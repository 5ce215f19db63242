/** The per-key concurrency limiter and the access handle (engine/gateway.py). */
module Gateway {
  /** Unauthenticated loopback requests are attributed but hold no slot. */
  const LOCAL := "local"

  function Count(m: map<string, nat>, k: string): nat { if k in m then m[k] else 0 }

  function Taken(slots: map<string, nat>, k: string): map<string, nat> { slots[k := Count(slots, k) + 1] }

  /** A key's last slot removes the key. */
  function Freed(slots: map<string, nat>, k: string): map<string, nat> {
    if Count(slots, k) <= 1 then slots - {k} else slots[k := slots[k] - 1]
  }

  predicate AtLimit(slots: map<string, nat>, maxConcurrent: int, k: string) {
    maxConcurrent > 0 && Count(slots, k) >= maxConcurrent
  }

  /** A request's slot, taken and given back; a loopback request has none. */
  function TakeSlot(slots: map<string, nat>, k: string): map<string, nat> {
    if k == LOCAL then slots else Taken(slots, k)
  }

  function FreeSlot(slots: map<string, nat>, k: string): map<string, nat> {
    if k == LOCAL then slots else Freed(slots, k)
  }

  /** Only the key's own count moves, by one, and a missing slot is not freed. */
  lemma CountsMove(slots: map<string, nat>, k: string, j: string)
    ensures Count(Taken(slots, k), j) == Count(slots, j) + (if j == k then 1 else 0)
    ensures Count(Freed(slots, k), j) == Count(slots, j) - (if j == k && Count(slots, k) > 0 then 1 else 0)
  {
  }

  /** Freeing undoes taking, to the last detail of the dictionary, exactly for
      dictionaries that store no zero for the key. */
  lemma FreedUndoesTaken(slots: map<string, nat>, k: string)
    ensures Freed(Taken(slots, k), k) == slots <==> (k in slots ==> slots[k] > 0)
  {
    if k in slots && slots[k] > 0 {
      assert Freed(Taken(slots, k), k) == slots;
    } else if k !in slots {
      assert Freed(Taken(slots, k), k) == slots;
    } else {
      assert k !in Freed(Taken(slots, k), k);
    }
  }

  class Limiter {
    const maxConcurrent: int
    var inflight: map<string, nat>

    constructor (maxConcurrent: int)
      ensures this.maxConcurrent == maxConcurrent && inflight == map[]
    {
      this.maxConcurrent, inflight := maxConcurrent, map[];
    }

    method Acquire(k: string) returns (ok: bool)
      modifies this
      ensures ok <==> maxConcurrent <= 0 || k !in old(inflight) || old(inflight)[k] < maxConcurrent
      ensures ok <==> !AtLimit(old(inflight), maxConcurrent, k)
      ensures inflight == if ok then Taken(old(inflight), k) else old(inflight)
    {
      if maxConcurrent <= 0 {
        inflight := inflight[k := Count(inflight, k) + 1];
        return true;
      }
      var current := Count(inflight, k);
      if current >= maxConcurrent { return false; }
      inflight := inflight[k := current + 1];
      ok := true;
    }

    method Release(k: string)
      modifies this
      ensures inflight == Freed(old(inflight), k)
    {
      var current := Count(inflight, k);
      if current <= 1 {
        inflight := inflight - {k};
      } else {
        inflight := inflight[k := current - 1];
      }
    }
  }

  /** One authorized request: ended by `finalize` or `abort`, whichever is
      first, and its slot given back then and only then. */
  class ApiAccess {
    const limiter: Limiter
    const key: string
    var slotHeld: bool
    var finalized: bool
    var recorded: nat

    constructor (limiter: Limiter, key: string, slotHeld: bool)
      ensures this.limiter == limiter && this.key == key && this.slotHeld == slotHeld && !finalized && recorded == 0
    {
      this.limiter, this.key, this.slotHeld, finalized, recorded := limiter, key, slotHeld, false, 0;
    }

    /** Usage is recorded unless the store fails; the slot is given back either way. */
    method Finalize(storeFails: bool) returns (raised: bool)
      modifies this, limiter
      ensures finalized && (!old(finalized) ==> !slotHeld)
      ensures raised == (storeFails && !old(finalized))
      ensures recorded == old(recorded) + (if old(finalized) || storeFails then 0 else 1)
      ensures limiter.inflight == if !old(finalized) && old(slotHeld) then Freed(old(limiter.inflight), key)
              else old(limiter.inflight)
    {
      if finalized { return false; }
      finalized := true;
      if !storeFails { recorded := recorded + 1; }
      if slotHeld {
        limiter.Release(key);
        slotHeld := false;
      }
      raised := storeFails;
    }

    method Abort()
      modifies this, limiter
      ensures finalized && recorded == old(recorded) && (!old(finalized) ==> !slotHeld)
      ensures limiter.inflight == if !old(finalized) && old(slotHeld) then Freed(old(limiter.inflight), key)
              else old(limiter.inflight)
    {
      if finalized { return; }
      finalized := true;
      if slotHeld {
        limiter.Release(key);
        slotHeld := false;
      }
    }
  }
}
