/** The request lifecycle (engine/api/serving.py) over the gateway's slots
    (engine/gateway.py), the scheduler, the registry and the active gauge
    (engine/telemetry/counters.py).

    One event is the code a request runs between two suspension points. A
    request suspends only while it waits in `admit` and while it generates. */
module Serving {
  import opened Basics
  import Sched = Scheduler
  import opened Registry
  import opened Router
  import opened Gateway

  datatype Config = Config(routing: Routing, maxPerKey: int)

  /** The four resources: scheduler permits, backend slots, gateway slots per
      key (`Limiter._inflight`), and the gauge of active requests. */
  datatype Resources = Resources(sched: Sched.State, entries: seq<Entry>, slots: map<string, nat>, active: nat)

  /** The requests suspended in `admit` and the unfinished `Served` handles,
      named by their `admit` call. */
  datatype Requests = Requests(waitKey: map<nat, string>, waitFor: map<nat, Request>,
                               key: map<nat, string>, on: map<nat, nat>)

  /** History: slots whose holder vanished without releasing them, and handles
      whose usage write failed before the gauge was decremented. */
  datatype Leaks = Leaks(slots: map<string, nat>, gauge: nat)

  datatype State = State(cfg: Config, res: Resources, reqs: Requests, leaks: Leaks)

  /** How `authorize_token` ended apart from its concurrency check: refused
      before it, a store failure after it, over quota, or passed. */
  datatype Verdict = Denied | StoreFails | OverQuota | Passed

  datatype Event =
    | Arrive(key: string, req: Request, verdict: Verdict, generates: bool)
    | Resume(id: nat, generates: bool)
    | TimeOut(id: nat)
    | CancelWait(id: nat)                                    // not caught by start_generation_core
    | Finish(id: nat, cancelled: bool, storeFails: bool)
    | Backend(index: nat, backend: Option<Backend>, available: bool)
    | BeginDrain

  predicate Crowded(s: State, k: string) { k != LOCAL && AtLimit(s.res.slots, s.cfg.maxPerKey, k) }

  function Leak(leaks: Leaks, k: string): Leaks {
    if k == LOCAL then leaks else leaks.(slots := Taken(leaks.slots, k))
  }

  /** Give back the permit and the slot of a request that was not placed. */
  function Undo(s: State, id: nat, k: string): State {
    s.(res := s.res.(sched := Sched.Next(s.res.sched, Sched.Release(id, false)), slots := FreeSlot(s.res.slots, k)))
  }

  /** From a granted permit to a `Served` handle, or to the error path. A
      `generate` that raises gives everything back, the gauge included. */
  function PlaceRequest(s: State, id: nat, k: string, req: Request, generates: bool): State {
    var r := Route(s.cfg.routing, s.res.entries, req);
    if !r.Routed? then Undo(s, id, k)
    else
      var i := r.decision.index;
      if generates then
        s.(res := s.res.(entries := Reserve(s.res.entries, i), active := s.res.active + 1),
           reqs := s.reqs.(key := s.reqs.key[id := k], on := s.reqs.on[id := i]))
      else
        Undo(s.(res := s.res.(entries := Free(Reserve(s.res.entries, i), i))), id, k)
  }

  /** `admit` for a request that holds its slot. */
  function AdmitRequest(s: State, k: string, req: Request, generates: bool): State {
    var id, after := s.res.sched.tally.calls, Sched.AdmitStep(s.res.sched);
    var t := s.(res := s.res.(sched := after));
    if id in after.held then PlaceRequest(t, id, k, req, generates)
    else if id in after.sem.queued then
      t.(reqs := t.reqs.(waitKey := t.reqs.waitKey[id := k], waitFor := t.reqs.waitFor[id := req]))
    else t.(res := t.res.(slots := FreeSlot(t.res.slots, k)))
  }

  function ArriveStep(s: State, k: string, req: Request, verdict: Verdict, generates: bool): State {
    if verdict.Denied? || Crowded(s, k) then s
    else
      var t := s.(res := s.res.(slots := TakeSlot(s.res.slots, k)));
      if k == LOCAL || verdict.Passed? then AdmitRequest(t, k, req, generates)
      else if verdict.StoreFails? then t.(leaks := Leak(t.leaks, k))
      else t.(res := t.res.(slots := FreeSlot(t.res.slots, k)))
  }

  function Unwait(r: Requests, id: nat): Requests { r.(waitKey := r.waitKey - {id}, waitFor := r.waitFor - {id}) }

  /** `finish_generation`: the leases, then usage, then the gauge. */
  function FinishStep(s: State, id: nat, cancelled: bool, storeFails: bool): State
    requires id in s.reqs.key && id in s.reqs.on && s.reqs.on[id] < |s.res.entries|
  {
    var gauge := if storeFails || s.res.active == 0 then s.res.active else s.res.active - 1;
    s.(res := Resources(Sched.Next(s.res.sched, Sched.Release(id, cancelled)), Free(s.res.entries, s.reqs.on[id]),
                        FreeSlot(s.res.slots, s.reqs.key[id]), gauge),
       reqs := s.reqs.(key := s.reqs.key - {id}, on := s.reqs.on - {id}),
       leaks := if storeFails then s.leaks.(gauge := s.leaks.gauge + 1) else s.leaks)
  }

  function Next(s: State, e: Event): State {
    match e
    case Arrive(k, req, verdict, generates) => ArriveStep(s, k, req, verdict, generates)
    case Resume(id, generates) =>
      if id in s.res.sched.sem.handed && id in s.reqs.waitKey && id in s.reqs.waitFor then
        PlaceRequest(s.(res := s.res.(sched := Sched.Next(s.res.sched, Sched.Resume(id))), reqs := Unwait(s.reqs, id)),
                     id, s.reqs.waitKey[id], s.reqs.waitFor[id], generates)
      else s
    case TimeOut(id) =>
      if id in s.reqs.waitKey then
        s.(res := s.res.(sched := Sched.Next(s.res.sched, Sched.TimeOut(id)),
            slots := FreeSlot(s.res.slots, s.reqs.waitKey[id])),
           reqs := Unwait(s.reqs, id))
      else s
    case CancelWait(id) =>
      if id in s.reqs.waitKey then
        s.(res := s.res.(sched := Sched.Next(s.res.sched, Sched.CancelWait(id))),
           reqs := Unwait(s.reqs, id), leaks := Leak(s.leaks, s.reqs.waitKey[id]))
      else s
    case Finish(id, cancelled, storeFails) =>
      if id in s.reqs.key && id in s.reqs.on && s.reqs.on[id] < |s.res.entries| then
        FinishStep(s, id, cancelled, storeFails)
      else s
    case Backend(i, backend, available) =>
      if i < |s.res.entries| then
        s.(res := s.res.(entries := s.res.entries[i := s.res.entries[i].(backend := backend, available := available)]))
      else s
    case BeginDrain => s.(res := s.res.(sched := Sched.Next(s.res.sched, Sched.BeginDrain)))
  }

  function Run(s: State, events: seq<Event>): State {
    if events == [] then s else Next(Run(s, events[..|events| - 1]), events[|events| - 1])
  }

  /** A fresh engine over a pool nothing is running on. */
  function Init(cfg: Config, entries: seq<Entry>, maxConcurrency: nat, depth: nat): State {
    State(cfg, Resources(Sched.Init(maxConcurrency, depth), entries, map[], 0), Requests(map[], map[], map[], map[]),
        Leaks(map[], 0))
  }

  // --------------------------------------------------------------- counting

  function SumInFlight(entries: seq<Entry>): nat {
    if entries == [] then 0 else SumInFlight(entries[..|entries| - 1]) + entries[|entries| - 1].inFlight
  }

  /** The requests a map attributes to `x`. */
  function Owners<T(==)>(m: map<nat, T>, x: T): set<nat> { set id | id in m && m[id] == x }

  lemma OwnersAdd<T>(m: map<nat, T>, id: nat, x: T, y: T)
    requires id !in m
    ensures |Owners(m[id := x], y)| == |Owners(m, y)| + (if x == y then 1 else 0)
  {
    assert Owners(m[id := x], y) == Owners(m, y) + (if x == y then {id} else {});
  }

  lemma OwnersDrop<T>(m: map<nat, T>, id: nat, y: T)
    requires id in m
    ensures |Owners(m - {id}, y)| == |Owners(m, y)| - (if m[id] == y then 1 else 0)
    ensures id in Owners(m, m[id])
  {
    assert Owners(m - {id}, y) == Owners(m, y) - {id};
  }

  lemma {:induction false} SumSet(entries: seq<Entry>, i: nat, e: Entry)
    requires i < |entries|
    ensures SumInFlight(entries[i := e]) == SumInFlight(entries) - entries[i].inFlight + e.inFlight
    decreases |entries|
  {
    var n := |entries| - 1;
    if i == n {
      assert entries[i := e][..n] == entries[..n];
    } else {
      SumSet(entries[..n], i, e);
      assert entries[i := e][..n] == entries[..n][i := e];
    }
  }

  // -------------------------------------------------------------- invariant

  /** The scheduler's leases and waiters are exactly the unfinished and the
      waiting requests; `cur` is a request between its permit and its placement. */
  ghost predicate Linked(sched: Sched.State, reqs: Requests, cur: set<nat>) {
    && Sched.Inv(sched)
    && reqs.key.Keys == reqs.on.Keys
    && reqs.waitKey.Keys == reqs.waitFor.Keys
    && sched.held == reqs.key.Keys + cur && cur !! reqs.key.Keys
    && (forall id :: id in reqs.waitKey <==> Sched.Waiting(sched, id))
  }

  /** A key's slot count is its waiting requests, its unfinished ones, its
      leaked ones, and the request in hand. */
  ghost predicate SlotLaw(slots: map<string, nat>, reqs: Requests, leaked: map<string, nat>, cur: Option<string>) {
    forall k {:trigger Count(slots, k)} | k != LOCAL ::
      Count(slots, k) == |Owners(reqs.waitKey, k)| + |Owners(reqs.key, k)| + Count(leaked, k)
                         + (if cur == Some(k) then 1 else 0)
  }

  /** Every backend's in-flight count is the number of unfinished requests on
      it, and is within its capacity. */
  ghost predicate BackendLaw(entries: seq<Entry>, on: map<nat, nat>) {
    && (forall id | id in on :: on[id] < |entries|)
    && (forall i | 0 <= i < |entries| :: entries[i].inFlight == |Owners(on, i)|)
    && (forall i | 0 <= i < |entries| :: entries[i].inFlight == 0 || entries[i].inFlight <= entries[i].cfg.maxInFlight)
    && SumInFlight(entries) == |on|
  }

  ghost predicate GaugeLaw(active: nat, reqs: Requests, leaks: Leaks) { active == |reqs.key| + leaks.gauge }

  ghost predicate Holds(s: State, cur: Option<(nat, string)>) {
    && Linked(s.res.sched, s.reqs, if cur.Some? then {cur.value.0} else {})
    && SlotLaw(s.res.slots, s.reqs, s.leaks.slots, if cur.Some? then Some(cur.value.1) else None)
    && BackendLaw(s.res.entries, s.reqs.on)
    && GaugeLaw(s.res.active, s.reqs, s.leaks)
  }

  ghost predicate Inv(s: State) { Holds(s, None) }

  // ----------------------------------------------------------- slot arithmetic

  lemma SlotsTake(slots: map<string, nat>, reqs: Requests, leaked: map<string, nat>, k: string)
    requires SlotLaw(slots, reqs, leaked, None)
    ensures SlotLaw(TakeSlot(slots, k), reqs, leaked, Some(k))
  {
    assert forall j :: Count(TakeSlot(slots, k), j) == Count(slots, j) + (if j == k && k != LOCAL then 1 else 0);
  }

  lemma SlotsFree(slots: map<string, nat>, reqs: Requests, leaked: map<string, nat>, k: string)
    requires SlotLaw(slots, reqs, leaked, Some(k))
    ensures SlotLaw(FreeSlot(slots, k), reqs, leaked, None)
  {
    assert k != LOCAL ==> Count(slots, k) >= 1;
    assert forall j :: Count(FreeSlot(slots, k), j) == Count(slots, j) - (if j == k && k != LOCAL then 1 else 0);
  }

  lemma SlotsLeak(slots: map<string, nat>, reqs: Requests, leaks: Leaks, k: string)
    requires SlotLaw(slots, reqs, leaks.slots, Some(k))
    ensures SlotLaw(slots, reqs, Leak(leaks, k).slots, None)
  {
    assert forall j ::
        Count(Leak(leaks, k).slots, j) == Count(leaks.slots, j) + (if j == k && k != LOCAL then 1 else 0);
  }

  /** A request in hand starts to wait. */
  lemma SlotsWait(slots: map<string, nat>, reqs: Requests, leaked: map<string, nat>, id: nat, k: string, req: Request)
    requires SlotLaw(slots, reqs, leaked, Some(k)) && id !in reqs.waitKey
    ensures SlotLaw(slots, reqs.(waitKey := reqs.waitKey[id := k], waitFor := reqs.waitFor[id := req]), leaked, None)
  {
    forall j ensures |Owners(reqs.waitKey[id := k], j)| == |Owners(reqs.waitKey, j)| + (if k == j then 1 else 0)
    {
      OwnersAdd(reqs.waitKey, id, k, j);
    }
  }

  /** A request in hand is served. */
  lemma SlotsServe(slots: map<string, nat>, reqs: Requests, leaked: map<string, nat>, id: nat, k: string, i: nat)
    requires SlotLaw(slots, reqs, leaked, Some(k)) && id !in reqs.key
    ensures SlotLaw(slots, reqs.(key := reqs.key[id := k], on := reqs.on[id := i]), leaked, None)
  {
    forall j ensures |Owners(reqs.key[id := k], j)| == |Owners(reqs.key, j)| + (if k == j then 1 else 0)
    {
      OwnersAdd(reqs.key, id, k, j);
    }
  }

  /** A waiting request is taken in hand. */
  lemma SlotsUnwait(slots: map<string, nat>, reqs: Requests, leaked: map<string, nat>, id: nat)
    requires SlotLaw(slots, reqs, leaked, None) && id in reqs.waitKey
    ensures SlotLaw(slots, Unwait(reqs, id), leaked, Some(reqs.waitKey[id]))
  {
    forall j ensures |Owners(reqs.waitKey - {id}, j)| ==
        |Owners(reqs.waitKey, j)| - (if reqs.waitKey[id] == j then 1 else 0)
    {
      OwnersDrop(reqs.waitKey, id, j);
    }
  }

  /** An unfinished request is taken in hand. */
  lemma SlotsFinish(slots: map<string, nat>, reqs: Requests, leaked: map<string, nat>, id: nat)
    requires SlotLaw(slots, reqs, leaked, None) && id in reqs.key
    ensures SlotLaw(slots, reqs.(key := reqs.key - {id}, on := reqs.on - {id}), leaked, Some(reqs.key[id]))
  {
    forall j ensures |Owners(reqs.key - {id}, j)| == |Owners(reqs.key, j)| - (if reqs.key[id] == j then 1 else 0)
    {
      OwnersDrop(reqs.key, id, j);
    }
  }

  // ------------------------------------------------------- backend arithmetic

  lemma BackendsReserve(entries: seq<Entry>, on: map<nat, nat>, id: nat, i: nat)
    requires BackendLaw(entries, on) && id !in on && i < |entries| && entries[i].HasCapacity()
    ensures BackendLaw(Reserve(entries, i), on[id := i])
  {
    SumSet(entries, i, entries[i].(inFlight := entries[i].inFlight + 1));
    forall j | 0 <= j < |entries| ensures |Owners(on[id := i], j)| == |Owners(on, j)| + (if i == j then 1 else 0)
    {
      OwnersAdd(on, id, i, j);
    }
  }

  lemma BackendsFree(entries: seq<Entry>, on: map<nat, nat>, id: nat)
    requires BackendLaw(entries, on) && id in on
    ensures BackendLaw(Free(entries, on[id]), on - {id})
  {
    var i := on[id];
    OwnersDrop(on, id, i);
    assert entries[i].inFlight > 0;
    SumSet(entries, i, entries[i].(inFlight := entries[i].inFlight - 1));
    forall j | 0 <= j < |entries| ensures |Owners(on - {id}, j)| == |Owners(on, j)| - (if i == j then 1 else 0)
    {
      OwnersDrop(on, id, j);
    }
  }

  lemma BackendsSwap(entries: seq<Entry>, on: map<nat, nat>, i: nat, backend: Option<Backend>, available: bool)
    requires BackendLaw(entries, on) && i < |entries|
    ensures BackendLaw(entries[i := entries[i].(backend := backend, available := available)], on)
  {
    SumSet(entries, i, entries[i].(backend := backend, available := available));
  }

  // ------------------------------------------------------ scheduler bookkeeping

  lemma LinkedRelease(sched: Sched.State, reqs: Requests, id: nat, cancelled: bool)
    requires Linked(sched, reqs, {id})
    ensures Linked(Sched.Next(sched, Sched.Release(id, cancelled)), reqs, {})
  {
    hide Sched.Inv, Sched.Next, Sched.Waiting;
    var after := Sched.Next(sched, Sched.Release(id, cancelled));
    Sched.NextKeeps(sched, Sched.Release(id, cancelled));
    forall x ensures after.held == sched.held - {id} && (Sched.Waiting(after, x) <==> Sched.Waiting(sched, x)) {
      Sched.ReleaseNames(sched, id, cancelled, x);
    }
    Sched.ReleaseNames(sched, id, cancelled, 0);
  }

  lemma LinkedLeave(sched: Sched.State, reqs: Requests, id: nat)
    requires Linked(sched, reqs, {}) && id in reqs.waitKey
    ensures Linked(Sched.Next(sched, Sched.TimeOut(id)), Unwait(reqs, id), {})
    ensures Linked(Sched.Next(sched, Sched.CancelWait(id)), Unwait(reqs, id), {})
  {
    Sched.NextKeeps(sched, Sched.TimeOut(id));
    Sched.NextKeeps(sched, Sched.CancelWait(id));
    forall x ensures (x in Sched.Leave(sched.sem, id).handed || x in Sched.Leave(sched.sem, id).queued) <==>
        Sched.Waiting(sched, x) && x != id
    {
      Sched.LeaveNames(sched, id, x);
    }
    hide Sched.Inv;
    hide Sched.Leave;
  }

  lemma LinkedResume(sched: Sched.State, reqs: Requests, id: nat)
    requires Linked(sched, reqs, {}) && id in sched.sem.handed
    ensures Linked(Sched.Next(sched, Sched.Resume(id)), Unwait(reqs, id), {id})
  {
    Sched.NextKeeps(sched, Sched.Resume(id));
    forall x ensures Sched.Waiting(Sched.Next(sched, Sched.Resume(id)), x) <==> Sched.Waiting(sched, x) && x != id
    {
      Sched.ResumeNames(sched, id, x);
    }
  }

  /** After `admit` returns, waits or raises. */
  lemma LinkedAdmit(sched: Sched.State, reqs: Requests, k: string, req: Request)
    requires Linked(sched, reqs, {})
    ensures var id, after := sched.tally.calls, Sched.AdmitStep(sched);
            && id !in reqs.key && id !in reqs.waitKey
            && (if id in after.held then Linked(after, reqs, {id})
                else if id in after.sem.queued then
                  Linked(after, reqs.(waitKey := reqs.waitKey[id := k], waitFor := reqs.waitFor[id := req]), {})
                else Linked(after, reqs, {}))
  {
    Sched.AdmitKeeps(sched);
    var id, after := sched.tally.calls, Sched.AdmitStep(sched);
    assert id !in sched.held && !Sched.Waiting(sched, id);
    hide Sched.Inv;
    assert forall x :: Sched.Waiting(after, x) <==> Sched.Waiting(sched, x) || (x == id && id in after.sem.queued);
  }

  // -------------------------------------------------- each event keeps the law

  lemma UndoKeeps(s: State, id: nat, k: string)
    requires Holds(s, Some((id, k)))
    ensures Inv(Undo(s, id, k))
  {
    LinkedRelease(s.res.sched, s.reqs, id, false);
    SlotsFree(s.res.slots, s.reqs, s.leaks.slots, k);
    hide Linked;
    hide SlotLaw;
  }

  lemma PlaceKeeps(s: State, id: nat, k: string, req: Request, generates: bool)
    requires Holds(s, Some((id, k)))
    ensures Inv(PlaceRequest(s, id, k, req, generates))
  {
    RoutedCanTake(s.cfg.routing, s.res.entries, req);
    hide Route;
    var r := Route(s.cfg.routing, s.res.entries, req);
    if !r.Routed? {
      UndoKeeps(s, id, k);
    } else if generates {
      var i := r.decision.index;
      SlotsServe(s.res.slots, s.reqs, s.leaks.slots, id, k, i);
      BackendsReserve(s.res.entries, s.reqs.on, id, i);
      hide SlotLaw;
      hide BackendLaw;
      assert (s.reqs.key[id := k]).Keys == s.reqs.key.Keys + {id};
      assert (s.reqs.on[id := i]).Keys == s.reqs.on.Keys + {id};
    } else {
      ReserveThenFree(s.res.entries, r.decision.index);
      UndoKeeps(s, id, k);
    }
  }

  lemma ReserveThenFree(entries: seq<Entry>, i: nat)
    requires i < |entries|
    ensures Free(Reserve(entries, i), i) == entries
  {
    assert Free(Reserve(entries, i), i)[i] == entries[i];
  }

  lemma AdmitKeeps(s: State, k: string, req: Request, generates: bool)
    requires Linked(s.res.sched, s.reqs, {}) && SlotLaw(s.res.slots, s.reqs, s.leaks.slots, Some(k))
    requires BackendLaw(s.res.entries, s.reqs.on) && GaugeLaw(s.res.active, s.reqs, s.leaks)
    ensures Inv(AdmitRequest(s, k, req, generates))
  {
    LinkedAdmit(s.res.sched, s.reqs, k, req);
    var id, after := s.res.sched.tally.calls, Sched.AdmitStep(s.res.sched);
    var t := s.(res := s.res.(sched := after));
    hide Sched.AdmitStep;
    if id in after.held {
      PlaceKeeps(t, id, k, req, generates);
    } else if id in after.sem.queued {
      SlotsWait(s.res.slots, s.reqs, s.leaks.slots, id, k, req);
      hide Linked;
      hide SlotLaw;
    } else {
      SlotsFree(s.res.slots, s.reqs, s.leaks.slots, k);
      hide Linked;
      hide SlotLaw;
    }
  }

  lemma ArriveKeeps(s: State, k: string, req: Request, verdict: Verdict, generates: bool)
    requires Inv(s)
    ensures Inv(ArriveStep(s, k, req, verdict, generates))
  {
    hide Linked;
    hide SlotLaw;
    hide BackendLaw;
    hide AdmitRequest;
    if !verdict.Denied? && !Crowded(s, k) {
      SlotsTake(s.res.slots, s.reqs, s.leaks.slots, k);
      var t := s.(res := s.res.(slots := TakeSlot(s.res.slots, k)));
      if k == LOCAL || verdict.Passed? {
        AdmitKeeps(t, k, req, generates);
      } else if verdict.StoreFails? {
        SlotsLeak(t.res.slots, t.reqs, t.leaks, k);
      } else {
        SlotsFree(t.res.slots, t.reqs, t.leaks.slots, k);
      }
    }
  }

  lemma ResumeKeeps(s: State, id: nat, generates: bool)
    requires Inv(s)
    ensures Inv(Next(s, Resume(id, generates)))
  {
    if id in s.res.sched.sem.handed && id in s.reqs.waitKey && id in s.reqs.waitFor {
      LinkedResume(s.res.sched, s.reqs, id);
      SlotsUnwait(s.res.slots, s.reqs, s.leaks.slots, id);
      var t := s.(res := s.res.(sched := Sched.Next(s.res.sched, Sched.Resume(id))), reqs := Unwait(s.reqs, id));
      hide Linked;
      hide SlotLaw;
      PlaceKeeps(t, id, s.reqs.waitKey[id], s.reqs.waitFor[id], generates);
    }
  }

  lemma TimeOutKeeps(s: State, id: nat)
    requires Inv(s) && id in s.reqs.waitKey
    ensures Inv(Next(s, TimeOut(id)))
  {
    hide Linked;
    hide SlotLaw;
    hide BackendLaw;
    hide FreeSlot;
    hide Sched.Next;
    LinkedLeave(s.res.sched, s.reqs, id);
    SlotsUnwait(s.res.slots, s.reqs, s.leaks.slots, id);
    SlotsFree(s.res.slots, Unwait(s.reqs, id), s.leaks.slots, s.reqs.waitKey[id]);
  }

  /** A cancelled wait is the leak: nothing releases the slot. */
  lemma CancelKeeps(s: State, id: nat)
    requires Inv(s) && id in s.reqs.waitKey
    ensures Inv(Next(s, CancelWait(id)))
  {
    hide Linked;
    hide SlotLaw;
    hide BackendLaw;
    hide Sched.Next;
    LinkedLeave(s.res.sched, s.reqs, id);
    SlotsUnwait(s.res.slots, s.reqs, s.leaks.slots, id);
    SlotsLeak(s.res.slots, Unwait(s.reqs, id), s.leaks, s.reqs.waitKey[id]);
  }

  lemma LinkedFinish(sched: Sched.State, reqs: Requests, id: nat, cancelled: bool)
    requires Linked(sched, reqs, {}) && id in reqs.key
    ensures id in reqs.on
    ensures var after := reqs.(key := reqs.key - {id}, on := reqs.on - {id});
            && Linked(Sched.Next(sched, Sched.Release(id, cancelled)), after, {})
            && |after.key| == |reqs.key| - 1
  {
    var after := reqs.(key := reqs.key - {id}, on := reqs.on - {id});
    assert after.key.Keys == reqs.key.Keys - {id} && after.on.Keys == reqs.on.Keys - {id};
    assert Linked(sched, after, {id});
    LinkedRelease(sched, after, id, cancelled);
  }

  lemma FinishKeeps(s: State, id: nat, cancelled: bool, storeFails: bool)
    requires Inv(s) && id in s.reqs.key
    ensures id in s.reqs.on && s.reqs.on[id] < |s.res.entries| && Inv(FinishStep(s, id, cancelled, storeFails))
  {
    LinkedFinish(s.res.sched, s.reqs, id, cancelled);
    var after := s.reqs.(key := s.reqs.key - {id}, on := s.reqs.on - {id});
    assert s.reqs.on[id] < |s.res.entries| && s.res.active > 0;
    hide Linked;
    hide SlotLaw;
    hide BackendLaw;
    hide FreeSlot;
    hide Sched.Next;
    SlotsFinish(s.res.slots, s.reqs, s.leaks.slots, id);
    SlotsFree(s.res.slots, after, s.leaks.slots, s.reqs.key[id]);
    BackendsFree(s.res.entries, s.reqs.on, id);
  }

  lemma DrainKeeps(s: State)
    requires Inv(s)
    ensures Inv(Next(s, BeginDrain))
  {
    Sched.NextKeeps(s.res.sched, Sched.BeginDrain);
    assert forall x :: Sched.Waiting(Sched.Next(s.res.sched, Sched.BeginDrain), x) <==> Sched.Waiting(s.res.sched, x);
  }

  lemma NextKeeps(s: State, e: Event)
    requires Inv(s)
    ensures Inv(Next(s, e))
  {
    hide Linked;
    hide SlotLaw;
    hide BackendLaw;
    hide Sched.Next;
    match e {
      case Arrive(k, req, verdict, generates) => ArriveKeeps(s, k, req, verdict, generates);
      case Resume(id, generates) => ResumeKeeps(s, id, generates);
      case TimeOut(id) => if id in s.reqs.waitKey { TimeOutKeeps(s, id); }
      case CancelWait(id) => if id in s.reqs.waitKey { CancelKeeps(s, id); }
      case Finish(id, cancelled, storeFails) => if id in s.reqs.key { FinishKeeps(s, id, cancelled, storeFails); }
      case Backend(i, backend, available) =>
        if i < |s.res.entries| { BackendsSwap(s.res.entries, s.reqs.on, i, backend, available); }
      case BeginDrain => DrainKeeps(s);
    }
  }

  lemma {:induction false} RunKeeps(s: State, events: seq<Event>)
    requires Inv(s)
    ensures Inv(Run(s, events))
    decreases |events|
  {
    hide Inv;
    if events != [] {
      RunKeeps(s, events[..|events| - 1]);
      NextKeeps(Run(s, events[..|events| - 1]), events[|events| - 1]);
    }
  }

  // ------------------------------------------------------------ main results

  predicate Idle(entries: seq<Entry>) { forall i | 0 <= i < |entries| :: entries[i].inFlight == 0 }

  lemma {:induction false} IdleSum(entries: seq<Entry>)
    requires Idle(entries)
    ensures SumInFlight(entries) == 0
    decreases |entries|
  {
    if entries != [] { IdleSum(entries[..|entries| - 1]); }
  }

  lemma InitInv(cfg: Config, entries: seq<Entry>, max: nat, depth: nat)
    requires Idle(entries)
    ensures Inv(Init(cfg, entries, max, depth))
  {
    IdleSum(entries);
    var none: map<nat, string>, nowhere: map<nat, nat> := map[], map[];
    assert forall k :: Owners(none, k) == {};
    assert forall i :: Owners(nowhere, i) == {};
  }

  /** The conservation law, in every state of every run over every rejection,
      placement error, `generate` failure, finish, timeout and cancellation:
      permits in use, in-flight requests over all backends and unfinished
      handles are one number; the gauge differs from it by the usage writes that
      failed; and a key's slots are its waiting and unfinished requests plus the
      slots leaked when a wait was cancelled or the quota store failed. */
  lemma RequestsAreConserved(cfg: Config, entries: seq<Entry>, max: nat, depth: nat, events: seq<Event>, k: string)
    requires Idle(entries)
    ensures var s := Run(Init(cfg, entries, max, depth), events);
            && s.res.sched.inUse == SumInFlight(s.res.entries) == |s.reqs.key|
            && s.res.active == |s.reqs.key| + s.leaks.gauge
            && (k != LOCAL ==> Count(s.res.slots, k)
                                 == |Owners(s.reqs.waitKey, k)| + |Owners(s.reqs.key, k)| + Count(s.leaks.slots, k))
  {
    InitInv(cfg, entries, max, depth);
    RunKeeps(Init(cfg, entries, max, depth), events);
    var s := Run(Init(cfg, entries, max, depth), events);
    assert |s.reqs.on.Keys| == |s.reqs.key.Keys| == |s.res.sched.held|;
  }

  /** Per backend: its in-flight count is the number of unfinished requests on
      it, never above its configured limit. */
  lemma BackendsStayWithinCapacity(cfg: Config, entries: seq<Entry>, max: nat, depth: nat, events: seq<Event>, i: nat)
    requires Idle(entries)
    ensures var s := Run(Init(cfg, entries, max, depth), events);
            i < |s.res.entries| ==>
              && s.res.entries[i].inFlight == |Owners(s.reqs.on, i)|
              && (s.res.entries[i].inFlight == 0 || s.res.entries[i].inFlight <= s.res.entries[i].cfg.maxInFlight)
  {
    InitInv(cfg, entries, max, depth);
    RunKeeps(Init(cfg, entries, max, depth), events);
  }

  /** The events that leave a key's slot behind: its wait is cancelled, or the
      quota store fails after the slot was granted. */
  predicate LeaksSlot(s: State, e: Event, k: string) {
    k != LOCAL &&
    ((e.CancelWait? && e.id in s.reqs.waitKey && s.reqs.waitKey[e.id] == k)
     || (e.Arrive? && e.key == k && e.verdict.StoreFails? && !Crowded(s, k)))
  }

  /** The event that leaves the gauge up: the usage write of a finish fails. */
  predicate LeaksGauge(s: State, e: Event) { e.Finish? && e.storeFails && e.id in s.reqs.key }

  function SlotLeaks(s: State, events: seq<Event>, k: string): nat {
    if events == [] then 0
    else
      var front, e := events[..|events| - 1], events[|events| - 1];
      SlotLeaks(s, front, k) + if LeaksSlot(Run(s, front), e, k) then 1 else 0
  }

  function GaugeLeaks(s: State, events: seq<Event>): nat {
    if events == [] then 0
    else
      var front, e := events[..|events| - 1], events[|events| - 1];
      GaugeLeaks(s, front) + if LeaksGauge(Run(s, front), e) then 1 else 0
  }

  lemma LeakCounts(leaks: Leaks, k: string, j: string)
    ensures Count(Leak(leaks, k).slots, j) == Count(leaks.slots, j) + (if j == k && k != LOCAL then 1 else 0)
  {
  }

  lemma ArriveLeaks(s: State, k: string, req: Request, verdict: Verdict, generates: bool)
    ensures var t := ArriveStep(s, k, req, verdict, generates);
            && t.leaks.gauge == s.leaks.gauge
            && t.leaks == if k != LOCAL && verdict.StoreFails? && !Crowded(s, k) then Leak(s.leaks, k) else s.leaks
  {
    hide Route, Sched.Next, Sched.AdmitStep, TakeSlot, FreeSlot, Reserve, Free, Crowded;
  }

  /** One event leaks exactly what the two predicates say. */
  lemma LeakStep(s: State, e: Event, k: string)
    requires Inv(s)
    ensures Count(Next(s, e).leaks.slots, k) == Count(s.leaks.slots, k) + (if LeaksSlot(s, e, k) then 1 else 0)
    ensures Next(s, e).leaks.gauge == s.leaks.gauge + (if LeaksGauge(s, e) then 1 else 0)
    ensures Next(s, e).cfg == s.cfg
  {
    hide Inv, ArriveStep, Sched.Next, FreeSlot, Crowded, Count, Route, Free, Reserve;
    if e.Arrive? {
      ArriveLeaks(s, e.key, e.req, e.verdict, e.generates);
      ArriveKeepsConfig(s, e.key, e.req, e.verdict, e.generates);
      LeakCounts(s.leaks, e.key, k);
    } else if e.CancelWait? && e.id in s.reqs.waitKey {
      LeakCounts(s.leaks, s.reqs.waitKey[e.id], k);
    } else if e.Finish? && e.id in s.reqs.key {
      FinishKeeps(s, e.id, e.cancelled, e.storeFails);
    }
  }

  lemma ArriveKeepsConfig(s: State, k: string, req: Request, verdict: Verdict, generates: bool)
    ensures ArriveStep(s, k, req, verdict, generates).cfg == s.cfg
  {
    hide Route, Sched.Next, Sched.AdmitStep, TakeSlot, FreeSlot, Reserve, Free, Crowded;
  }

  /** Over any run, what has leaked is the number of leaking events: nothing else
      leaks, and nothing heals. */
  lemma {:induction false} LeaksAreCounted(s: State, events: seq<Event>, k: string)
    requires Inv(s)
    ensures var t := Run(s, events);
            && Inv(t) && t.cfg == s.cfg
            && Count(t.leaks.slots, k) == Count(s.leaks.slots, k) + SlotLeaks(s, events, k)
            && t.leaks.gauge == s.leaks.gauge + GaugeLeaks(s, events)
    decreases |events|
  {
    hide Inv, Next, LeaksSlot, LeaksGauge, Count;
    if events != [] {
      var front, e := events[..|events| - 1], events[|events| - 1];
      LeaksAreCounted(s, front, k);
      LeakStep(Run(s, front), e, k);
      NextKeeps(Run(s, front), e);
    }
  }

  /** The exact law: permits in use, in-flight requests and unfinished handles
      always agree; the gauge agrees with them if and only if no usage write
      failed; and a key's slots are its waiting and unfinished requests if and
      only if none of its waits was cancelled and the quota store never failed
      on it. */
  lemma ConservedIffNothingLeaked(cfg: Config, entries: seq<Entry>, max: nat, depth: nat, events: seq<Event>, k: string)
    requires Idle(entries)
    ensures var s0 := Init(cfg, entries, max, depth); var s := Run(s0, events);
            && s.res.sched.inUse == SumInFlight(s.res.entries) == |s.reqs.key|
            && (s.res.active == |s.reqs.key| <==> GaugeLeaks(s0, events) == 0)
            && (k != LOCAL ==>
                  (Count(s.res.slots, k) == |Owners(s.reqs.waitKey, k)| + |Owners(s.reqs.key, k)| <==>
                      SlotLeaks(s0, events, k) == 0))
  {
    RequestsAreConserved(cfg, entries, max, depth, events, k);
    InitInv(cfg, entries, max, depth);
    hide Inv, Run;
    LeaksAreCounted(Init(cfg, entries, max, depth), events, k);
  }

  lemma LeakedKeyIsRefused(s: State, events: seq<Event>, k: string)
    requires Inv(s) && k != LOCAL && s.cfg.maxPerKey > 0 && Count(s.leaks.slots, k) >= s.cfg.maxPerKey
    ensures Crowded(Run(s, events), k)
  {
    hide Run;
    LeaksAreCounted(s, events, k);
    var t := Run(s, events);
    assert SlotLaw(t.res.slots, t.reqs, t.leaks.slots, None);
    assert Count(t.res.slots, k) >= Count(t.leaks.slots, k);
  }

  function Holding(s: State, k: string): nat { |Owners(s.reqs.waitKey, k)| + |Owners(s.reqs.key, k)| }

  lemma TimeOutEffect(s: State, id: nat)
    requires id in s.reqs.waitKey
    ensures var t := Next(s, TimeOut(id)); t.reqs == Unwait(s.reqs, id) && t.leaks == s.leaks && t.cfg == s.cfg
  {
    hide Sched.Next, FreeSlot;
  }

  lemma FinishEffect(s: State, id: nat, storeFails: bool)
    requires Inv(s) && id in s.reqs.key
    ensures var t := Next(s, Finish(id, false, storeFails));
            && t.reqs == s.reqs.(key := s.reqs.key - {id}, on := s.reqs.on - {id})
            && t.leaks.slots == s.leaks.slots && t.cfg == s.cfg
  {
    hide Inv, Sched.Next, FreeSlot, Free;
    FinishKeeps(s, id, false, storeFails);
  }

  // ------------------------------------------------- what becomes of a request

  /** What becomes of a request that holds a permit: it is served, under its key
      and on the backend the router names, exactly when the router finds one and
      the backend starts generating. */
  function Settled(reqs: Requests, id: nat, k: string, r: RouteResult, generates: bool): Requests {
    if generates && r.Routed? then
      reqs.(key := reqs.key[id := k], on := reqs.on[id := r.decision.index])
    else reqs
  }

  lemma PlaceIsExact(s: State, id: nat, k: string, req: Request, generates: bool)
    ensures PlaceRequest(s, id, k, req, generates).reqs
            == Settled(s.reqs, id, k, Route(s.cfg.routing, s.res.entries, req), generates)
  {
    hide Route, Sched.Next, FreeSlot, Reserve, Free;
  }

  /** A waiter that was handed its permit stops waiting, and is served exactly
      when the router finds a backend for it now and that backend starts. */
  lemma ResumedIsServedIffRouted(s: State, id: nat, generates: bool)
    requires Inv(s) && id in s.res.sched.sem.handed
    ensures id in s.reqs.waitKey && id in s.reqs.waitFor && id !in s.reqs.key
    ensures var t, r := Next(s, Resume(id, generates)), Route(s.cfg.routing, s.res.entries, s.reqs.waitFor[id]);
            && Inv(t) && id !in t.reqs.waitKey && t.reqs.waitKey == s.reqs.waitKey - {id}
            && (id in t.reqs.key <==> generates && r.Routed?)
            && (id in t.reqs.key ==>
                  t.reqs.key == s.reqs.key[id := s.reqs.waitKey[id]] && t.reqs.on == s.reqs.on[id := r.decision.index])
            && (id !in t.reqs.key ==> t.reqs.key == s.reqs.key && t.reqs.on == s.reqs.on)
  {
    NextKeeps(s, Resume(id, generates));
    HandedWaits(s, id);
    hide Inv, Route, Sched.Next, PlaceRequest;
    var t := s.(res := s.res.(sched := Sched.Next(s.res.sched, Sched.Resume(id))), reqs := Unwait(s.reqs, id));
    PlaceIsExact(t, id, s.reqs.waitKey[id], s.reqs.waitFor[id], generates);
  }

  lemma HandedWaits(s: State, id: nat)
    requires Inv(s) && id in s.res.sched.sem.handed
    ensures id in s.reqs.waitKey && id in s.reqs.waitFor && id !in s.reqs.key
  {
    hide SlotLaw, BackendLaw;
    assert Sched.Waiting(s.res.sched, id);
  }

  /** Turned away before it asks for a permit: not authorized, at its key's
      limit, or stopped by the quota check. */
  predicate TurnedAway(s: State, k: string, verdict: Verdict) {
    || verdict == Denied
    || (k != LOCAL && s.cfg.maxPerKey > 0 && Count(s.res.slots, k) >= s.cfg.maxPerKey)
    || (k != LOCAL && verdict != Passed)
  }

  lemma BeforeArrival(s: State)
    requires Inv(s)
    ensures var sched, id := s.res.sched, s.res.sched.tally.calls;
            var after := Sched.AdmitStep(sched);
            && id !in s.reqs.key && id !in s.reqs.waitKey && sched.waiters <= sched.depth
            && (id in after.held <==> !sched.draining && !Sched.Busy(sched))
            && (id in after.sem.queued <==> !sched.draining && Sched.Busy(sched) && sched.waiters < sched.depth)
  {
    SchedOf(s);
    hide SlotLaw, BackendLaw, GaugeLaw;
    Sched.AdmissionIsExact(s.res.sched);
    LinkedAdmit(s.res.sched, s.reqs, "", ASK);
  }

  /** What becomes of an arriving request, exactly: turned away or refused while
      draining or with a full queue, it leaves nothing; with every permit in use
      or someone ahead of it, it waits; otherwise it is served exactly when the
      router finds a backend and that backend starts. */
  lemma ArrivalIsExact(s: State, k: string, req: Request, verdict: Verdict, generates: bool)
    requires Inv(s)
    ensures var t, id, sched := Next(s, Arrive(k, req, verdict, generates)), s.res.sched.tally.calls, s.res.sched;
            && id !in s.reqs.key && id !in s.reqs.waitKey
            && t.reqs ==
               (if TurnedAway(s, k, verdict) || sched.draining || (Sched.Busy(sched) && sched.waiters == sched.depth)
                then s.reqs
                else if Sched.Busy(sched) then
                  s.reqs.(waitKey := s.reqs.waitKey[id := k], waitFor := s.reqs.waitFor[id := req])
                else Settled(s.reqs, id, k, Route(s.cfg.routing, s.res.entries, req), generates))
  {
    hide Inv, Sched.Busy, Sched.AdmitStep, Route, PlaceRequest, TakeSlot, FreeSlot;
    BeforeArrival(s);
    var t := s.(res := s.res.(slots := TakeSlot(s.res.slots, k), sched := Sched.AdmitStep(s.res.sched)));
    PlaceIsExact(t, s.res.sched.tally.calls, k, req, generates);
  }

  /** A wait that times out or is cancelled, and a finish, end that request and
      no other; the pool's health and the drain flag do not touch the requests. */
  lemma EndingIsExact(s: State, e: Event)
    requires Inv(s) && !e.Arrive? && !e.Resume?
    ensures Next(s, e).reqs == if (e.TimeOut? || e.CancelWait?) && e.id in s.reqs.waitKey then
                                 s.reqs.(waitKey := s.reqs.waitKey - {e.id}, waitFor := s.reqs.waitFor - {e.id})
                               else if e.Finish? && e.id in s.reqs.key then
                                 s.reqs.(key := s.reqs.key - {e.id}, on := s.reqs.on - {e.id})
                               else s.reqs
  {
    hide Inv, Sched.Next, FreeSlot, Free;
    if e.Finish? && e.id in s.reqs.key { FinishKeeps(s, e.id, e.cancelled, e.storeFails); }
  }

  /** An entry without its in-flight count. */
  function Bare(e: Entry): Entry { e.(inFlight := 0) }

  lemma PlaceKeepsPool(s: State, id: nat, k: string, req: Request, generates: bool)
    ensures var t := PlaceRequest(s, id, k, req, generates);
            && |t.res.entries| == |s.res.entries| && t.res.sched.draining == s.res.sched.draining
            && forall i | 0 <= i < |s.res.entries| :: Bare(t.res.entries[i]) == Bare(s.res.entries[i])
  {
    hide Route, FreeSlot;
  }

  /** Requests change nothing of a backend but its in-flight count; only the
      backend's own event sets its state and health, and only a drain the drain
      flag. */
  lemma PoolIsOperated(s: State, e: Event, i: nat)
    requires i < |s.res.entries|
    ensures var t := Next(s, e);
            && |t.res.entries| == |s.res.entries|
            && t.res.sched.draining == (s.res.sched.draining || e.BeginDrain?)
            && Bare(t.res.entries[i]) == if e.Backend? && e.index == i
                                         then Bare(s.res.entries[i]).(backend := e.backend, available := e.available)
                                         else Bare(s.res.entries[i])
  {
    hide PlaceRequest, FreeSlot, TakeSlot, Crowded;
    if e.Arrive? {
      var t := s.(res := s.res.(slots := TakeSlot(s.res.slots, e.key), sched := Sched.AdmitStep(s.res.sched)));
      PlaceKeepsPool(t, s.res.sched.tally.calls, e.key, e.req, e.generates);
    } else if e.Resume? && e.id in s.res.sched.sem.handed && e.id in s.reqs.waitKey && e.id in s.reqs.waitFor {
      var t := s.(res := s.res.(sched := Sched.Next(s.res.sched, Sched.Resume(e.id))), reqs := Unwait(s.reqs, e.id));
      PlaceKeepsPool(t, e.id, s.reqs.waitKey[e.id], s.reqs.waitFor[e.id], e.generates);
    }
  }

  /** The event that ends one waiting or running request of the key. */
  lemma OneLess(s: State, k: string) returns (e: Event)
    requires Inv(s) && Holding(s, k) > 0
    ensures Holding(Next(s, e), k) == Holding(s, k) - 1 && Inv(Next(s, e))
    ensures Next(s, e).leaks.slots == s.leaks.slots && Next(s, e).cfg == s.cfg
  {
    hide Inv, Next;
    if Owners(s.reqs.waitKey, k) != {} {
      var id :| id in Owners(s.reqs.waitKey, k);
      e := TimeOut(id);
      OwnersDrop(s.reqs.waitKey, id, k);
      TimeOutEffect(s, id);
    } else {
      var id :| id in Owners(s.reqs.key, k);
      e := Finish(id, false, false);
      OwnersDrop(s.reqs.key, id, k);
      FinishEffect(s, id, false);
    }
    NextKeeps(s, e);
  }

  /** All requests of a key end, without a leak. */
  lemma {:induction false} KeyDrains(s: State, k: string) returns (events: seq<Event>)
    requires Inv(s)
    ensures var t := Run(s, events);
            Inv(t) && Holding(t, k) == 0 && t.leaks.slots == s.leaks.slots && t.cfg == s.cfg
    decreases Holding(s, k)
  {
    hide Inv, Next, Holding;
    if Holding(s, k) == 0 {
      RunNone(s);
      events := [];
    } else {
      var e := OneLess(s, k);
      events := KeyDrains(Next(s, e), k);
      RunCons(s, e, events);
      events := [e] + events;
    }
  }

  lemma {:induction false} RunCons(s: State, e: Event, events: seq<Event>)
    ensures Run(s, [e] + events) == Run(Next(s, e), events)
    decreases |events|
  {
    hide Next;
    var all := [e] + events;
    if events == [] {
      assert all == [e] && all[..0] == [];
      assert Run(s, all) == Next(Run(s, []), e);
    } else {
      var n := |events| - 1;
      RunCons(s, e, events[..n]);
      assert all[..n + 1] == [e] + events[..n] && all[n + 1] == events[n];
    }
  }

  /** A limited key is refused for good, in every continuation, if and only if
      its leaked slots have reached its limit. */
  lemma LockedOutIffLeaked(s: State, k: string)
    requires Inv(s) && k != LOCAL && s.cfg.maxPerKey > 0
    ensures (forall events: seq<Event> :: Crowded(Run(s, events), k)) <==> Count(s.leaks.slots, k) >= s.cfg.maxPerKey
  {
    if Count(s.leaks.slots, k) >= s.cfg.maxPerKey {
      forall events: seq<Event> ensures Crowded(Run(s, events), k) { LeakedKeyIsRefused(s, events, k); }
    } else {
      var events := KeyDrains(s, k);
      hide Run;
      var t := Run(s, events);
      assert SlotLaw(t.res.slots, t.reqs, t.leaks.slots, None);
      assert Count(t.res.slots, k) == Count(t.leaks.slots, k);
      assert !Crowded(t, k);
    }
  }

  /** A key at its limit gets nothing: its request changes nothing at all. */
  lemma CrowdedIsRefused(s: State, k: string, req: Request, verdict: Verdict, generates: bool)
    requires Crowded(s, k)
    ensures Next(s, Arrive(k, req, verdict, generates)) == s
  {
  }

  // -------------------------------------------------------- a run that leaks

  /** A pool of one ready backend with one slot, one permit, a queue of one, and
      one request per key. */
  function SmallPool(): seq<Entry> {
    [Entry(Registry.Config.Config("primary", "local", 1, false, false),
        Some(Registry.Backend.Backend(Ready, Capabilities("m", {}))), true, 0)]
  }

  function SmallConfig(): Config { Config.Config(Routing(map[], [], false), 1) }

  const ASK := Request("m", None, {})

  lemma SmallPoolPlaces()
    ensures Route(SmallConfig().routing, SmallPool(), ASK).Routed?
    ensures Route(SmallConfig().routing, SmallPool(), ASK).decision.index == 0
  {
    var q := PhysicalQuery(ASK, None);
    PlacementIsExact(SmallPool(), q);
    assert CanTake(SmallPool()[0], q);
    hide Place;
  }

  lemma RunSnoc(s: State, events: seq<Event>, e: Event)
    ensures Run(s, events + [e]) == Next(Run(s, events), e)
  {
    hide Next;
    assert (events + [e])[..|events|] == events;
  }

  /** With every permit spoken for and room in the queue, a request waits. */
  lemma WaitsInQueue(s: State, k: string, req: Request, generates: bool)
    requires Sched.Inv(s.res.sched) && k != LOCAL && !Crowded(s, k)
    requires !s.res.sched.draining && Sched.Locked(s.res.sched.sem) && s.res.sched.waiters < s.res.sched.depth
    ensures var t, id := Next(s, Arrive(k, req, Passed, generates)), s.res.sched.tally.calls;
            && t.reqs == s.reqs.(waitKey := s.reqs.waitKey[id := k], waitFor := s.reqs.waitFor[id := req])
                && t.leaks == s.leaks
  {
    hide PlaceRequest, TakeSlot, FreeSlot;
    var sched := s.res.sched;
    assert sched.tally.calls !in sched.held;
    assert Sched.AdmitStep(sched).sem.queued == sched.sem.queued + [sched.tally.calls];
    hide Sched.Inv;
  }

  lemma FirstIsServed()
    ensures var s := Next(Init(SmallConfig(), SmallPool(), 1, 1), Arrive("b", ASK, Passed, true));
            && s.reqs == Requests(map[], map[], map[0 := "b"], map[0 := 0]) && s.leaks == Leaks(map[], 0)
            && s.res.slots == map["b" := 1] && s.cfg == SmallConfig()
            && s.res.sched.tally.calls == 1 && s.res.sched.sem.free == 0 && !s.res.sched.draining
            && s.res.sched.waiters == 0 && s.res.sched.depth == 1
  {
    hide Route;
    SmallPoolPlaces();
    hide SmallPool;
    assert 0 in Sched.AdmitStep(Sched.Init(1, 1)).held;
  }

  /** A request that waits and is cancelled leaves its slot behind. */
  lemma WaitThenCancel(s: State, first: Event, k: string, req: Request, generates: bool) returns (events: seq<Event>)
    requires Inv(s) && k != LOCAL && !Crowded(Next(s, first), k)
    requires var sched := Next(s, first).res.sched;
             !sched.draining && Sched.Locked(sched.sem) && sched.waiters < sched.depth
                 && sched.tally.calls !in Next(s, first).reqs.waitKey
    ensures var s1, t := Next(s, first), Run(s, events);
            && Inv(t) && t.leaks == Leak(s1.leaks, k) && t.cfg == s1.cfg && t.reqs.key == s1.reqs.key
            && t.reqs.waitKey == s1.reqs.waitKey
  {
    hide Inv, Next, Run, Sched.Inv, Sched.Locked, Crowded;
    var s1 := Next(s, first);
    var id, second := s1.res.sched.tally.calls, Arrive(k, req, Passed, generates);
    NextKeeps(s, first);
    SchedOf(s1);
    WaitsInQueue(s1, k, req, generates);
    NextKeeps(s1, second);
    LeakStep(s1, second, k);
    var s2 := Next(s1, second);
    CancelLeaks(s2, id);
    NextKeeps(s2, CancelWait(id));
    events := [] + [first] + [second] + [CancelWait(id)];
    RunNone(s);
    RunSnoc(s, [], first);
    RunSnoc(s, [] + [first], second);
    RunSnoc(s, [] + [first] + [second], CancelWait(id));
    assert s2.reqs.waitKey - {id} == s1.reqs.waitKey;
  }

  lemma RunNone(s: State)
    ensures Run(s, []) == s
  {
  }

  /** One key's request runs, another's waits behind it and is cancelled: the
      second key holds its only slot with no request, and is locked out. */
  lemma CancelledWaitLocksOut() returns (events: seq<Event>)
    ensures var s := Run(Init(SmallConfig(), SmallPool(), 1, 1), events);
            && Inv(s) && Owners(s.reqs.waitKey, "a") == Owners(s.reqs.key, "a") == {}
            && s.cfg.maxPerKey == 1 && Count(s.leaks.slots, "a") == 1
  {
    hide Inv, Next, Run, Init, SmallPool, Sched.Inv;
    InitInvSmall();
    FirstIsServed();
    events := WaitThenCancel(Init(SmallConfig(), SmallPool(), 1, 1), Arrive("b", ASK, Passed, true), "a", ASK, true);
  }

  lemma InitInvSmall()
    ensures Inv(Init(SmallConfig(), SmallPool(), 1, 1))
  {
    assert Idle(SmallPool());
    hide Inv, Init;
    InitInv(SmallConfig(), SmallPool(), 1, 1);
  }

  /** A usage write that fails leaves the gauge at one with nothing running. */
  lemma FailedWriteLeavesGaugeUp() returns (events: seq<Event>)
    ensures var s := Run(Init(SmallConfig(), SmallPool(), 1, 1), events);
            Inv(s) && s.reqs.key == map[] && s.res.active == 1
  {
    hide Inv, Next, Run, Init, SmallPool;
    InitInvSmall();
    FirstIsServed();
    var s0, first := Init(SmallConfig(), SmallPool(), 1, 1), Arrive("b", ASK, Passed, true);
    events := FinishWithoutStore(s0, first, 0);
  }

  lemma FinishWithoutStore(s: State, first: Event, id: nat) returns (events: seq<Event>)
    requires Inv(s) && id in Next(s, first).reqs.key && Next(s, first).leaks.gauge == 0
    requires Next(s, first).reqs.key.Keys == {id}
    ensures Inv(Run(s, events)) && Run(s, events).reqs.key == map[] && Run(s, events).res.active == 1
  {
    hide Next, Run, Linked, SlotLaw, BackendLaw;
    var last := Finish(id, false, true);
    events := [] + [first] + [last];
    NextKeeps(s, first);
    var s1 := Next(s, first);
    NextKeeps(s1, last);
    LeakStep(s1, last, "");
    FinishEffect(s1, id, true);
    RunNone(s);
    RunSnoc(s, [], first);
    RunSnoc(s, [] + [first], last);
    assert Run(s, events).reqs.key == map[];
  }

  /** A quota store that fails after the grant leaves the slot taken. */
  lemma FailedStoreLeavesSlotTaken()
    ensures var s := Next(Init(SmallConfig(), SmallPool(), 1, 1), Arrive("a", ASK, StoreFails, true));
            s.reqs == Requests(map[], map[], map[], map[]) && Count(s.res.slots, "a") == 1 && Crowded(s, "a")
  {
    hide AdmitRequest;
  }

  lemma SchedOf(s: State)
    requires Inv(s)
    ensures Sched.Inv(s.res.sched)
  {
  }

  lemma CancelLeaks(s: State, id: nat)
    requires id in s.reqs.waitKey
    ensures var t := Next(s, CancelWait(id));
            t.reqs == Unwait(s.reqs, id) && t.leaks == Leak(s.leaks, s.reqs.waitKey[id]) && t.cfg == s.cfg
  {
  }

  /** A refused start leaves no counter, slot or lease behind: if the request
      neither waits nor is served and nothing leaked, the resources are what
      they were, apart from the scheduler's counters of calls. */
  lemma RefusedStartLeavesNoTrace(s: State, k: string, req: Request, verdict: Verdict, generates: bool)
    requires Inv(s) && !verdict.StoreFails?
    requires var t := Next(s, Arrive(k, req, verdict, generates)); t.reqs == s.reqs
    ensures var t := Next(s, Arrive(k, req, verdict, generates));
            && t.res.entries == s.res.entries && t.res.active == s.res.active
            && t.res.sched.inUse == s.res.sched.inUse && t.res.sched.held == s.res.sched.held
            && (k != LOCAL ==> Count(t.res.slots, k) == Count(s.res.slots, k))
  {
    var t := Next(s, Arrive(k, req, verdict, generates));
    ArriveKeeps(s, k, req, verdict, generates);
    ArriveLeaks(s, k, req, verdict, generates);
    RefusedEntries(s, k, req, verdict, generates);
    assert t.res.sched.inUse == |t.res.sched.held| == |s.res.sched.held|;
  }

  lemma LinkedNow(s: State)
    requires Inv(s)
    ensures Linked(s.res.sched, s.reqs, {})
  {
  }

  lemma RefusedEntries(s: State, k: string, req: Request, verdict: Verdict, generates: bool)
    requires Inv(s) && Next(s, Arrive(k, req, verdict, generates)).reqs == s.reqs
    ensures var t := Next(s, Arrive(k, req, verdict, generates));
            t.res.entries == s.res.entries && t.res.active == s.res.active
  {
    hide Inv, Linked, Sched.Next, Sched.AdmitStep, Route, TakeSlot, FreeSlot, Free, Reserve, Crowded;
    assert Linked(s.res.sched, s.reqs, {}) by { LinkedNow(s); }
    LinkedAdmit(s.res.sched, s.reqs, k, req);
    var r := Route(s.cfg.routing, s.res.entries, req);
    if r.Routed? { ReserveThenFree(s.res.entries, r.decision.index); }
    var id := s.res.sched.tally.calls;
    assert id in s.reqs.key[id := k] && id !in s.reqs.key;
  }
}
