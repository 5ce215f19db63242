/** Backend selection and leasing (engine/inference/registry.py).

    Entries are named by their position, which is the `order` the registry
    assigned to them. A prefix key enters only through its SHA-256 digest read
    as a number; every result holds for any digest. */
module Registry {
  import opened Basics

  datatype BackendState = Unloaded | Loading | Ready | Generating | Failed

  /** Live capabilities: the served model and the request features it supports. */
  datatype Capabilities = Capabilities(modelId: string, features: set<string>)

  datatype Backend = Backend(state: BackendState, caps: Capabilities)

  /** The fixed part of an entry. */
  datatype Config = Config(name: string, kind: string, maxInFlight: int, prefixCache: bool, spillover: bool)

  datatype Entry = Entry(cfg: Config, backend: Option<Backend>, available: bool, inFlight: nat) {
    predicate IsLoaded() { backend.Some? && (backend.value.state.Ready? || backend.value.state.Generating?) }

    predicate IsReady() { available && IsLoaded() }

    predicate HasCapacity() { inFlight < cfg.maxInFlight }

    function LiveModel(): Option<string> {
      if IsReady() then Some(backend.value.caps.modelId) else None
    }
  }

  /** One placement request; `digest` is absent for an absent or empty prefix key. */
  datatype Query = Query(digest: Option<nat>, allowed: Option<set<string>>, model: Option<string>,
                         features: set<string>)

  predicate InScope(e: Entry, q: Query) { q.allowed.None? || e.cfg.name in q.allowed.value }

  predicate Eligible(e: Entry, q: Query) {
    && (q.model.Some? ==> e.LiveModel() == q.model)
    && (q.features != {} ==> e.IsReady() && q.features <= e.backend.value.caps.features)
  }

  /** The list comprehensions of the registry. */
  datatype Filter = Pool | Candidates(spill: bool) | Capable(spill: bool) | ModelReady | FeatureReady

  predicate InTier(e: Entry, q: Query, spill: bool) {
    InScope(e, q) && Eligible(e, q) && e.cfg.spillover == spill
  }

  predicate Keeps(e: Entry, q: Query, f: Filter) {
    match f
    case Pool => InScope(e, q) && Eligible(e, q)
    case Candidates(spill) => InTier(e, q, spill) && e.IsReady() && e.HasCapacity()
    case Capable(spill) => InTier(e, q, spill) && e.IsReady() && e.cfg.prefixCache
    case ModelReady => InScope(e, q) && e.IsReady() && (q.model.None? || e.LiveModel() == q.model)
    case FeatureReady => InScope(e, q) && e.IsReady() && (q.model.None? || e.LiveModel() == q.model) && Eligible(e, q)
  }

  /** The positions of the entries a comprehension keeps, in order. */
  function Positions(entries: seq<Entry>, q: Query, f: Filter): (r: seq<nat>)
    ensures forall k | 0 <= k < |r| :: r[k] < |entries| && Keeps(entries[r[k]], q, f)
    ensures forall i {:trigger i in r} | 0 <= i < |entries| && Keeps(entries[i], q, f) :: i in r
    ensures forall j, k | 0 <= j < k < |r| :: r[j] < r[k]
  {
    if entries == [] then []
    else
      var n := |entries| - 1;
      Positions(entries[..n], q, f) + (if Keeps(entries[n], q, f) then [n] else [])
  }

  predicate Within(cands: seq<nat>, entries: seq<Entry>) { forall k | 0 <= k < |cands| :: cands[k] < |entries| }

  /** The first candidate that is least busy: `min` by (in_flight, order). */
  function LeastBusyOf(entries: seq<Entry>, cands: seq<nat>): (r: nat)
    requires cands != [] && Within(cands, entries)
    ensures r in cands
    ensures forall k | 0 <= k < |cands| ::
              entries[r].inFlight < entries[cands[k]].inFlight
              || (entries[r].inFlight == entries[cands[k]].inFlight && r <= cands[k])
  {
    var n := |cands| - 1;
    if n == 0 then cands[0]
    else
      var best, c := LeastBusyOf(entries, cands[..n]), cands[n];
      if entries[c].inFlight < entries[best].inFlight || (entries[c].inFlight == entries[best].inFlight && c < best)
      then c else best
  }

  datatype Reason = ModelMap | LeastBusy | PrefixAffinity | AffinityFallback

  datatype Tier = Primary | Spillover

  datatype Choice = Choice(index: nat, reason: Reason, tier: Tier)

  /** `_pick`, given the candidates and the capable entries of its pool. */
  function PickFrom(entries: seq<Entry>, cands: seq<nat>, capable: seq<nat>,
                    digest: Option<nat>): (r: Option<(nat, Reason)>)
    requires Within(cands, entries) && Within(capable, entries)
    ensures r.Some? ==> r.value.0 < |entries|
  {
    if digest.Some? && capable != [] then
      var target := capable[digest.value % |capable|];
      if entries[target].HasCapacity() then Some((target, PrefixAffinity))
      else if cands != [] then Some((LeastBusyOf(entries, cands), AffinityFallback))
      else None
    else if cands == [] then None
    else Some((LeastBusyOf(entries, cands), LeastBusy))
  }

  function Pick(entries: seq<Entry>, q: Query, spill: bool): (r: Option<(nat, Reason)>)
    ensures r.Some? ==> r.value.0 < |entries|
  {
    PickFrom(entries, Positions(entries, q, Candidates(spill)), Positions(entries, q, Capable(spill)), q.digest)
  }

  /** `_select_detailed`: the primary tier first, spillover only if it yields nothing. */
  function Select(entries: seq<Entry>, q: Query): (r: Option<Choice>)
    ensures r.Some? ==> r.value.index < |entries|
  {
    var local := Pick(entries, q, false);
    var picked := if local.Some? then local else Pick(entries, q, true);
    if picked.None? then None
    else
      var (index, reason) := picked.value;
      var only := |Positions(entries, q, Candidates(local.None?))| == 1;
      Some(Choice(index,
                  if reason == LeastBusy && only && q.model.Some? then ModelMap else reason,
                  if local.Some? then Primary else Spillover))
  }

  datatype Outcome = Leased(choice: Choice) | NotLoaded | FeatureUnsupported | AllBusy

  /** `acquire`, up to its effect on `in_flight`. */
  function Place(entries: seq<Entry>, q: Query): (r: Outcome)
    ensures r.Leased? ==> r.choice.index < |entries|
  {
    var choice := Select(entries, q);
    if choice.Some? then Leased(choice.value)
    else
      if Positions(entries, q, ModelReady) == [] then NotLoaded
      else if Positions(entries, q, FeatureReady) == [] then FeatureUnsupported
      else AllBusy
  }

  function Reserve(entries: seq<Entry>, i: nat): seq<Entry>
    requires i < |entries|
  {
    entries[i := entries[i].(inFlight := entries[i].inFlight + 1)]
  }

  function Free(entries: seq<Entry>, i: nat): seq<Entry>
    requires i < |entries|
  {
    if entries[i].inFlight > 0 then entries[i := entries[i].(inFlight := entries[i].inFlight - 1)] else entries
  }

  // -------------------------------------------- what placement means

  /** A live backend: healthy, and loaded or generating. */
  predicate Alive(e: Entry) {
    e.available && e.backend.Some? && (e.backend.value.state == Ready || e.backend.value.state == Generating)
  }

  /** A live in-scope backend of the requested model, whatever its features. */
  predicate Serves(e: Entry, q: Query) {
    && (q.allowed == None || e.cfg.name in q.allowed.value)
    && Alive(e) && (q.model == None || e.backend.value.caps.modelId == q.model.value)
  }

  predicate Supports(e: Entry, q: Query) { Serves(e, q) && q.features <= e.backend.value.caps.features }

  predicate CanTake(e: Entry, q: Query) { Supports(e, q) && e.inFlight < e.cfg.maxInFlight }

  predicate Taker(e: Entry, q: Query, spill: bool) { CanTake(e, q) && e.cfg.spillover == spill }

  lemma FiltersMean(e: Entry, q: Query, spill: bool)
    ensures Keeps(e, q, Candidates(spill)) == Taker(e, q, spill)
    ensures Keeps(e, q, Capable(spill)) && e.HasCapacity() ==> Taker(e, q, spill)
    ensures Keeps(e, q, ModelReady) == Serves(e, q)
    ensures Keeps(e, q, FeatureReady) == Supports(e, q)
    ensures Keeps(e, q, Capable(spill)) == (Supports(e, q) && e.cfg.spillover == spill && e.cfg.prefixCache)
    ensures Keeps(e, q, Pool) <==>
              if Alive(e) then Supports(e, q)
              else (q.allowed == None || e.cfg.name in q.allowed.value) && q.model == None && q.features == {}
  {
  }

  /** A comprehension is empty exactly when no entry passes it. */
  lemma EmptyWhenNone(entries: seq<Entry>, q: Query, f: Filter)
    ensures Positions(entries, q, f) == [] <==> !exists i :: 0 <= i < |entries| && Keeps(entries[i], q, f)
  {
    var r := Positions(entries, q, f);
    if r != [] { assert Keeps(entries[r[0]], q, f); }
    if i :| 0 <= i < |entries| && Keeps(entries[i], q, f) { assert i in r; }
  }

  /** A tier yields a backend exactly when some backend of it can take the
      request, with or without a prefix key; the one it yields can. */
  lemma PickFindsTaker(entries: seq<Entry>, q: Query, spill: bool)
    ensures Pick(entries, q, spill).Some? <==> exists i :: 0 <= i < |entries| && Taker(entries[i], q, spill)
    ensures Pick(entries, q, spill).Some? ==> Taker(entries[Pick(entries, q, spill).value.0], q, spill)
  {
    EmptyWhenNone(entries, q, Candidates(spill));
    forall e: Entry ensures Keeps(e, q, Candidates(spill)) == Taker(e, q, spill)
    {
      FiltersMean(e, q, spill);
    }
    var r := Pick(entries, q, spill);
    if r.Some? { FiltersMean(entries[r.value.0], q, spill); }
  }

  lemma SelectFindsTaker(entries: seq<Entry>, q: Query)
    ensures var r := Select(entries, q);
            && (r.Some? <==> exists i :: 0 <= i < |entries| && CanTake(entries[i], q))
            && (r.Some? ==> Taker(entries[r.value.index], q, r.value.tier.Spillover?))
            && (r.Some? && r.value.tier.Spillover? ==> !exists i :: 0 <= i < |entries| && Taker(entries[i], q, false))
  {
    hide Pick, Positions;
    PickFindsTaker(entries, q, false);
    PickFindsTaker(entries, q, true);
    assert forall e: Entry :: CanTake(e, q) == (Taker(e, q, false) || Taker(e, q, true));
  }

  /** Placement is classified exactly. */
  lemma PlacementIsExact(entries: seq<Entry>, q: Query)
    ensures var r := Place(entries, q);
            && (r.Leased? <==> exists i :: 0 <= i < |entries| && CanTake(entries[i], q))
            && (r.Leased? ==> CanTake(entries[r.choice.index], q))
            && (r.NotLoaded? <==> !exists i :: 0 <= i < |entries| && Serves(entries[i], q))
            && (r.FeatureUnsupported? <==>
                  (exists i :: 0 <= i < |entries| && Serves(entries[i], q))
                  && !exists i :: 0 <= i < |entries| && Supports(entries[i], q))
            && (r.AllBusy? <==>
                  (exists i :: 0 <= i < |entries| && Supports(entries[i], q))
                  && !exists i :: 0 <= i < |entries| && CanTake(entries[i], q))
  {
    hide Select, Positions;
    SelectFindsTaker(entries, q);
    EmptyWhenNone(entries, q, ModelReady);
    EmptyWhenNone(entries, q, FeatureReady);
    forall e: Entry ensures Keeps(e, q, ModelReady) == Serves(e, q) && Keeps(e, q, FeatureReady) == Supports(e, q)
    {
      FiltersMean(e, q, false);
    }
    assert forall i | 0 <= i < |entries| && CanTake(entries[i], q) :: Supports(entries[i], q);
    assert forall i | 0 <= i < |entries| && Supports(entries[i], q) :: Serves(entries[i], q);
  }

  /** Spillover serves exactly when no primary backend can take the request. */
  lemma SpilloverIsLastResort(entries: seq<Entry>, q: Query)
    requires Place(entries, q).Leased?
    ensures var c := Place(entries, q).choice;
            && (c.tier.Spillover? <==> entries[c.index].cfg.spillover)
            && (c.tier.Spillover? <==> !exists i :: 0 <= i < |entries| && Taker(entries[i], q, false))
  {
    hide Select, Positions;
    SelectFindsTaker(entries, q);
  }

  /** A prefix key changes neither whether a request is placed, nor its error,
      nor its tier. */
  lemma PrefixKeyCostsNothing(entries: seq<Entry>, q: Query, digest: Option<nat>)
    ensures var r, r' := Place(entries, q), Place(entries, q.(digest := digest));
            if r.Leased? then r'.Leased? && r'.choice.tier == r.choice.tier else r' == r
  {
    hide Place;
    var q' := q.(digest := digest);
    assert forall e: Entry :: CanTake(e, q) == CanTake(e, q');
    assert forall e: Entry :: Serves(e, q) == Serves(e, q');
    assert forall e: Entry :: Supports(e, q) == Supports(e, q');
    assert forall e: Entry :: Taker(e, q, false) == Taker(e, q', false);
    PlacementIsExact(entries, q);
    PlacementIsExact(entries, q');
    if Place(entries, q).Leased? {
      SpilloverIsLastResort(entries, q);
      SpilloverIsLastResort(entries, q');
    }
  }

  /** Without affinity a tier yields its least busy taker, the earliest among equals. */
  lemma PickIsLeastBusy(entries: seq<Entry>, q: Query, spill: bool, i: nat)
    requires Pick(entries, q, spill).Some? && i < |entries| && Taker(entries[i], q, spill)
    ensures var (best, reason) := Pick(entries, q, spill).value;
            && (reason != PrefixAffinity ==>
                  NoBusier(entries, best, i) && (|Positions(entries, q, Candidates(spill))| == 1 ==> best == i))
  {
    FiltersMean(entries[i], q, spill);
    var cands := Positions(entries, q, Candidates(spill));
    assert i in cands;
    assert |cands| == 1 ==> cands[0] == i;
  }

  lemma SelectIsPick(entries: seq<Entry>, q: Query)
    requires Select(entries, q).Some?
    ensures var c := Select(entries, q).value;
            var p := Pick(entries, q, c.tier.Spillover?);
            && p.Some? && p.value.0 == c.index
            && (c.reason == p.value.1
                || (c.reason == ModelMap && p.value.1 == LeastBusy
                    && |Positions(entries, q, Candidates(c.tier.Spillover?))| == 1))
  {
  }

  /** Among the takers of one tier: no busier, earlier among equals. */
  predicate NoBusier(entries: seq<Entry>, a: nat, b: nat)
    requires a < |entries| && b < |entries|
  {
    entries[a].inFlight < entries[b].inFlight || (entries[a].inFlight == entries[b].inFlight && a <= b)
  }

  /** Except by prefix affinity, the backend chosen is the least busy of those
      in its tier that can take the request, the earliest among equals;
      `model_map` names the case of a single such backend. */
  lemma ChosenIsLeastBusy(entries: seq<Entry>, q: Query, i: nat)
    requires Select(entries, q).Some?
    requires i < |entries| && Taker(entries[i], q, Select(entries, q).value.tier.Spillover?)
    ensures var c := Select(entries, q).value;
            (c.reason != PrefixAffinity ==> NoBusier(entries, c.index, i)) && (c.reason == ModelMap ==> i == c.index)
  {
    SelectIsPick(entries, q);
    var spill := Select(entries, q).value.tier.Spillover?;
    PickIsLeastBusy(entries, q, spill, i);
  }

  /** Affinity is sticky, and never overloads: while the same backends of its
      tier are capable, a key that was placed by affinity is placed on the same
      backend again exactly as long as that backend has capacity and, on
      spillover, no primary backend can take the request. */
  lemma AffinityIsSticky(before: seq<Entry>, after: seq<Entry>, q: Query)
    requires Select(before, q).Some? && Select(before, q).value.reason == PrefixAffinity
    requires var capable := Capable(Select(before, q).value.tier.Spillover?);
             Positions(after, q, capable) == Positions(before, q, capable)
    ensures var c := Select(before, q).value;
            && c.index < |after|
            && (Select(after, q) == Some(c) <==>
                  after[c.index].HasCapacity()
                  && (c.tier.Spillover? ==> !exists i :: 0 <= i < |after| && Taker(after[i], q, false)))
  {
    hide Pick, Taker, Positions;
    SelectIsPick(before, q);
    AffinityPick(before, after, q, Select(before, q).value.tier.Spillover?);
    PickFindsTaker(after, q, false);
  }

  /** In one tier: the hash picks the same capable entry. */
  lemma AffinityPick(before: seq<Entry>, after: seq<Entry>, q: Query, spill: bool)
    requires Pick(before, q, spill).Some? && Pick(before, q, spill).value.1 == PrefixAffinity
    requires Positions(after, q, Capable(spill)) == Positions(before, q, Capable(spill))
    ensures var p := Pick(before, q, spill);
            && p.value.0 < |after| && (Pick(after, q, spill) == p <==> after[p.value.0].HasCapacity())
            && (Pick(after, q, spill).Some? && Pick(after, q, spill).value.1 == PrefixAffinity ==>
                  Pick(after, q, spill) == p)
  {
    hide Positions, LeastBusyOf;
  }

  predicate HasCache(e: Entry, q: Query, spill: bool) {
    Supports(e, q) && e.cfg.spillover == spill && e.cfg.prefixCache
  }

  /** The positions of the entries of one tier that have a prefix cache and support the request, in order. */
  ghost predicate ListsCaches(entries: seq<Entry>, q: Query, spill: bool, r: seq<nat>) {
    && (forall j, k | 0 <= j < k < |r| :: r[j] < r[k])
    && (forall i: nat :: i in r <==> i < |entries| && HasCache(entries[i], q, spill))
  }

  ghost predicate OnlyTaker(entries: seq<Entry>, q: Query, spill: bool, i: nat) {
    forall j | 0 <= j < |entries| && Taker(entries[j], q, spill) :: j == i
  }

  /** Two increasing sequences of the same numbers are one. */
  lemma {:induction false} SameListing(a: seq<nat>, b: seq<nat>)
    requires forall j, k | 0 <= j < k < |a| :: a[j] < a[k]
    requires forall j, k | 0 <= j < k < |b| :: b[j] < b[k]
    requires |a| == 0 <==> |b| == 0
    requires forall x: nat :: x in a <==> x in b
    ensures a == b
    decreases |a|
  {
    if a != [] && b != [] {
      var m, n := |a| - 1, |b| - 1;
      assert a[m] in b && b[n] in a;
      assert a[m] == b[n];
      forall x: nat ensures x in a[..m] <==> x in b[..n] {
        assert x in a[..m] <==> x in a && x != a[m];
        assert x in b[..n] <==> x in b && x != b[n];
      }
      assert m > 0 ==> a[0] in b[..n];
      assert n > 0 ==> b[0] in a[..m];
      SameListing(a[..m], b[..n]);
      assert a == a[..m] + [a[m]] && b == b[..n] + [b[n]];
    }
  }

  lemma CapableIsListed(entries: seq<Entry>, q: Query, spill: bool, r: seq<nat>)
    requires ListsCaches(entries, q, spill, r)
    ensures Positions(entries, q, Capable(spill)) == r
  {
    var p := Positions(entries, q, Capable(spill));
    forall x: nat ensures x in p <==> x in r {
      if x < |entries| { FiltersMean(entries[x], q, spill); }
    }
    assert p != [] ==> p[0] in r;
    assert r != [] ==> r[0] in p;
    SameListing(p, r);
  }

  lemma OneTaker(entries: seq<Entry>, q: Query, spill: bool, i: nat)
    requires i < |entries| && Taker(entries[i], q, spill)
    ensures |Positions(entries, q, Candidates(spill))| == 1 <==> OnlyTaker(entries, q, spill, i)
  {
    hide Positions, Keeps, Taker;
    var p := Positions(entries, q, Candidates(spill));
    forall x | 0 <= x < |entries| ensures Keeps(entries[x], q, Candidates(spill)) == Taker(entries[x], q, spill) {
      FiltersMean(entries[x], q, spill);
    }
    assert i in p;
    if |p| > 1 { assert p[0] != p[1] && Taker(entries[p[0]], q, spill) && Taker(entries[p[1]], q, spill); }
    if |p| == 1 {
      forall j | 0 <= j < |entries| && Taker(entries[j], q, spill) ensures j == i { assert j in p; }
    }
  }

  lemma CachesSupport(entries: seq<Entry>, q: Query, spill: bool, r: seq<nat>)
    requires ListsCaches(entries, q, spill, r)
    ensures forall k | 0 <= k < |r| :: r[k] < |entries|
  {
    forall k | 0 <= k < |r| ensures r[k] < |entries| { assert r[k] in r; }
  }

  /** Why a backend was chosen, exactly. `caches` lists the prefix-cache backends
      of the chosen tier. A request with a prefix key goes to the one its digest
      selects whenever that has capacity; if it has none, or there is no key or
      no cache, to the least busy taker, under the name that says which. */
  lemma ChoiceIsExplained(entries: seq<Entry>, q: Query, caches: seq<nat>)
    requires Place(entries, q).Leased?
    requires ListsCaches(entries, q, Place(entries, q).choice.tier.Spillover?, caches)
    ensures var c := Place(entries, q).choice;
            var keyed := q.digest.Some? && caches != [];
            if keyed then
              var target := caches[q.digest.value % |caches|];
              && target < |entries|
              && (c.reason == PrefixAffinity <==> entries[target].inFlight < entries[target].cfg.maxInFlight)
              && (c.reason == PrefixAffinity ==> c.index == target)
              && (c.reason != PrefixAffinity ==> c.reason == AffinityFallback)
            else
              && c.reason in {ModelMap, LeastBusy}
              && (c.reason == ModelMap <==>
                    q.model.Some? && OnlyTaker(entries, q, c.tier.Spillover?, c.index))
  {
    hide Positions, LeastBusyOf, Keeps, Taker, Supports, CanTake, ListsCaches;
    var c := Select(entries, q).value;
    var spill := c.tier.Spillover?;
    CachesSupport(entries, q, spill, caches);
    CapableIsListed(entries, q, spill, caches);
    SelectFindsTaker(entries, q);
    OneTaker(entries, q, spill, c.index);
  }

  // ------------------------------------------------------- the objects

  /** The registry: `acquire` and `_release` update entries in place. */
  class BackendRegistry {
    var entries: seq<Entry>

    constructor (entries: seq<Entry>)
      ensures this.entries == entries
    {
      this.entries := entries;
    }

    /** One more request in flight on an entry that could take it, nothing else
        touched; or the reason why no entry could. */
    method Acquire(q: Query) returns (r: Outcome)
      modifies this
      ensures r.Leased? ==>
                var i := r.choice.index;
                && OnlyAt(old(entries), entries, i) && CanTake(old(entries)[i], q)
                && entries[i] == old(entries)[i].(inFlight := old(entries)[i].inFlight + 1)
      ensures !r.Leased? ==> entries == old(entries) && !exists i :: 0 <= i < |entries| && CanTake(entries[i], q)
      ensures r == Place(old(entries), q)
    {
      PlacementIsExact(entries, q);
      var choice := Select(entries, q);
      if choice.None? {
        if Positions(entries, q, ModelReady) == [] { return NotLoaded; }
        if Positions(entries, q, FeatureReady) == [] { return FeatureUnsupported; }
        return AllBusy;
      }
      var e := entries[choice.value.index];
      entries := entries[choice.value.index := e.(inFlight := e.inFlight + 1)];
      r := Leased(choice.value);
    }

    /** One request fewer in flight on the entry, or none if it had none; nothing
        else touched. Right after an `Acquire` this restores the pool. */
    method Release(i: nat)
      requires i < |entries|
      modifies this
      ensures OnlyAt(old(entries), entries, i)
      ensures entries[i] ==
              old(entries)[i].(inFlight := if old(entries)[i].inFlight > 0 then old(entries)[i].inFlight - 1 else 0)
      ensures forall pool | i < |pool| && old(entries) == Reserve(pool, i) :: entries == pool
    {
      if entries[i].inFlight > 0 {
        entries := entries[i := entries[i].(inFlight := entries[i].inFlight - 1)];
      }
    }
  }

  /** At most the entry at `i` differs. */
  ghost predicate OnlyAt(before: seq<Entry>, after: seq<Entry>, i: nat) {
    i < |before| == |after| && forall j | 0 <= j < |before| && j != i :: after[j] == before[j]
  }

  lemma OneSlotTaken(before: seq<Entry>, after: seq<Entry>, i: nat)
    requires OnlyAt(before, after, i) && after[i] == before[i].(inFlight := before[i].inFlight + 1)
    ensures after == Reserve(before, i)
  {
  }

  lemma OneSlotFreed(before: seq<Entry>, after: seq<Entry>, i: nat)
    requires OnlyAt(before, after, i)
    requires after[i] == before[i].(inFlight := if before[i].inFlight > 0 then before[i].inFlight - 1 else 0)
    ensures after == Free(before, i)
  {
  }

  /** One in-flight slot; releasing it twice frees it once. */
  class RegistryLease {
    const registry: BackendRegistry
    const index: nat
    var released: bool

    constructor (registry: BackendRegistry, index: nat)
      ensures this.registry == registry && this.index == index && !released
    {
      this.registry, this.index, released := registry, index, false;
    }

    method Release()
      requires index < |registry.entries|
      modifies this, registry
      ensures released
      ensures registry.entries == if old(released) then old(registry.entries) else Free(old(registry.entries), index)
    {
      if released { return; }
      released := true;
      registry.Release(index);
      OneSlotFreed(old(registry.entries), registry.entries, index);
    }
  }
}
