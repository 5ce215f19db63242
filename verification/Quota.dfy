/** Compute-unit quotas: windows (engine/quota/windows.py), the usage store
    (engine/quota/store.py), the cost model (engine/quota/compute.py) and the
    pre-check of the gateway (engine/gateway.py). Times and units are reals. */
module Quota {
  import opened Gateway

  const DAY := 86400.0
  const WEEK := 604800.0
  const FIVE_HOURS := 18000.0

  datatype Window = Rolling | Weekly

  function RollingStart(now: real): real { now - FIVE_HOURS }

  /** The day number of the Monday on or before `now`; day 0 was a Thursday. */
  function MondayOf(now: real): int {
    var day := (now / DAY).Floor;
    day - (day + 3) % 7
  }

  /** Monday 00:00 UTC of the week of `now`. */
  function WeekStart(now: real): real { MondayOf(now) as real * DAY }

  function WeekReset(now: real): real { WeekStart(now) + WEEK }

  function Start(w: Window, now: real): real { if w.Rolling? then RollingStart(now) else WeekStart(now) }

  /** The weekly window starts on a Monday and holds the instant it is taken at. */
  lemma WeekHoldsNow(now: real)
    ensures WeekStart(now) <= now < WeekReset(now) && (MondayOf(now) + 3) % 7 == 0
  {
    var day := (now / DAY).Floor;
    var off := (day + 3) % 7;
    assert day as real * DAY <= now < (day as real + 1.0) * DAY;
    assert (day - off) as real == day as real - off as real;
  }

  /** Weeks partition time: every instant up to the reset has the same week, and
      the reset starts the next one. */
  lemma WeeksPartition(now: real, t: real)
    ensures WeekStart(now) <= t < WeekReset(now) ==> WeekStart(t) == WeekStart(now)
    ensures WeekStart(WeekReset(now)) == WeekReset(now)
  {
    SameMonday(now, t);
    NextMonday(now);
  }

  lemma SameMonday(now: real, t: real)
    ensures WeekStart(now) <= t < WeekStart(now) + 604800.0 ==> MondayOf(t) == MondayOf(now)
  {
    WeekHoldsNow(now);
    WeekHoldsNow(t);
    var a, b := MondayOf(now), MondayOf(t);
    if WeekStart(now) <= t < WeekStart(now) + 604800.0 {
      assert a as real < b as real + 7.0 && b as real < a as real + 7.0;
      assert a < b + 7 && b < a + 7;
    }
  }

  lemma NextMonday(now: real)
    ensures WeekStart(WeekReset(now)) == WeekReset(now)
  {
    WeekHoldsNow(now);
    var monday := MondayOf(now);
    assert WeekReset(now) == (monday + 7) as real * DAY;
    assert WeekReset(now) / DAY == (monday + 7) as real;
    assert (WeekReset(now) / DAY).Floor == monday + 7;
  }

  /** Windows only move forward. */
  lemma StartIsMonotone(w: Window, t: real, u: real)
    requires t <= u
    ensures Start(w, t) <= Start(w, u)
  {
    if w.Weekly? {
      WeekHoldsNow(t);
      WeekHoldsNow(u);
      var a, b := MondayOf(t), MondayOf(u);
      assert (b as real + 7.0) * DAY > a as real * DAY;
      assert b + 7 > a;
      assert a <= b;
    }
  }

  lemma StartIsPast(w: Window, now: real)
    ensures Start(w, now) <= now
  {
    WeekHoldsNow(now);
  }

  // ------------------------------------------------------------- cost model

  datatype CostModel = CostModel(promptWeight: real, completionWeight: real) {
    function Actual(prompt: nat, completion: nat): real {
      prompt as real * promptWeight + completion as real * completionWeight
    }

    function Estimate(prompt: nat, maxTokens: nat): real { Actual(prompt, maxTokens) }
  }

  /** A request that stays within its estimated prompt and its output cap costs
      no more than its estimate. */
  lemma ActualWithinEstimate(m: CostModel, p: nat, c: nat, p': nat, cap: nat)
    requires m.promptWeight >= 0.0 && m.completionWeight >= 0.0 && p <= p' && c <= cap
    ensures 0.0 <= m.Actual(p, c) <= m.Estimate(p', cap)
  {
    ScaleUp(p as real, p' as real, m.promptWeight);
    ScaleUp(c as real, cap as real, m.completionWeight);
  }

  /** The cost is the weighted sum of the two counts: nothing costs nothing, and
      each token adds the weight of its kind. */
  lemma CostIsLinear(m: CostModel, p: nat, c: nat)
    ensures m.Actual(0, 0) == 0.0
    ensures m.Actual(p + 1, c) == m.Actual(p, c) + m.promptWeight
    ensures m.Actual(p, c + 1) == m.Actual(p, c) + m.completionWeight
    ensures m.Estimate(p, c) == m.Actual(p, c)
  {
    assert (p + 1) as real * m.promptWeight == p as real * m.promptWeight + m.promptWeight;
    assert (c + 1) as real * m.completionWeight == c as real * m.completionWeight + m.completionWeight;
  }

  lemma ScaleUp(x: real, y: real, weight: real)
    requires 0.0 <= x <= y && weight >= 0.0
    ensures 0.0 <= x * weight <= y * weight
  {
  }

  // -------------------------------------------------------------- the store

  datatype Row = Row(key: string, ts: real, cu: real)

  /** `_sum_cu`. */
  function SumCu(rows: seq<Row>, key: string, since: real): real {
    if rows == [] then 0.0
    else
      var r := rows[|rows| - 1];
      SumCu(rows[..|rows| - 1], key, since) + (if r.key == key && r.ts >= since then r.cu else 0.0)
  }

  function Used(rows: seq<Row>, key: string, w: Window, now: real): real { SumCu(rows, key, Start(w, now)) }

  /** `WindowUsage.would_exceed`; a limit of zero or less is no limit. */
  predicate WouldExceed(used: real, limit: real, additional: real) { limit > 0.0 && used + additional > limit }

  // -------------------------------------------------------------- the gateway

  /** One authorized request that has not been finalized or aborted. */
  datatype Flight = Flight(key: string, estimate: real)

  datatype Limits = Limits(rolling: real, weekly: real, maxConcurrent: int)

  /** `slots` counts held limiter slots; a slot can outlive its flight when the
      waiting task is cancelled. `overrun` is history: how much finished
      requests of a key cost beyond their estimates. */
  datatype State = State(now: real, rows: seq<Row>, flights: seq<Flight>, slots: map<string, nat>,
                         overrun: map<string, real>)

  datatype Event =
    | Advance(dt: real)
    | Authorize(key: string, estimate: real)
    | Finalize(i: nat, cu: real)
    | Abort(i: nat)
    | Lose(i: nat)                                 // the flight ends, its slot is never released

  function Slots(s: State, key: string): nat { Count(s.slots, key) }

  function Overrun(s: State, key: string): real { if key in s.overrun then s.overrun[key] else 0.0 }

  /** The loopback key is attributed but neither limited nor checked. */
  predicate Admits(s: State, lim: Limits, key: string, estimate: real) {
    key == LOCAL ||
    (&& !AtLimit(s.slots, lim.maxConcurrent, key)
     && !WouldExceed(Used(s.rows, key, Weekly, s.now), lim.weekly, estimate)
     && !WouldExceed(Used(s.rows, key, Rolling, s.now), lim.rolling, estimate))
  }

  function Drop(flights: seq<Flight>, i: nat): seq<Flight>
    requires i < |flights|
  {
    flights[..i] + flights[i + 1..]
  }

  function Max(a: real, b: real): real { if a >= b then a else b }

  function Next(s: State, lim: Limits, e: Event): State {
    match e
    case Advance(dt) => if dt >= 0.0 then s.(now := s.now + dt) else s
    case Authorize(key, estimate) =>
      if Admits(s, lim, key, estimate) then
        s.(flights := s.flights + [Flight(key, estimate)], slots := TakeSlot(s.slots, key))
      else s
    case Finalize(i, cu) =>
      if i < |s.flights| then
        var f := s.flights[i];
        s.(rows := s.rows + [Row(f.key, s.now, cu)], flights := Drop(s.flights, i), slots := FreeSlot(s.slots, f.key),
           overrun := s.overrun[f.key := Overrun(s, f.key) + Max(0.0, cu - f.estimate)])
      else s
    case Abort(i) =>
      if i < |s.flights| then s.(flights := Drop(s.flights, i), slots := FreeSlot(s.slots, s.flights[i].key)) else s
    case Lose(i) =>
      if i < |s.flights| then s.(flights := Drop(s.flights, i)) else s
  }

  function Run(s: State, lim: Limits, events: seq<Event>): State {
    if events == [] then s else Next(Run(s, lim, events[..|events| - 1]), lim, events[|events| - 1])
  }

  function Init(now: real): State { State(now, [], [], map[], map[]) }

  // --------------------------------------------------------------- the bound

  function Promised(flights: seq<Flight>, key: string): real {
    if flights == [] then 0.0
    else
      var f := flights[|flights| - 1];
      Promised(flights[..|flights| - 1], key) + (if f.key == key then f.estimate else 0.0)
  }

  function Flying(flights: seq<Flight>, key: string): nat {
    if flights == [] then 0
    else Flying(flights[..|flights| - 1], key) + (if flights[|flights| - 1].key == key then 1 else 0)
  }

  /** Costs are never negative and no estimate exceeds `cap`. */
  predicate Reasonable(e: Event, cap: real) {
    && (e.Authorize? ==> 0.0 <= e.estimate <= cap)
    && (e.Finalize? ==> e.cu >= 0.0)
  }

  function Min(a: real, b: real): real { if a <= b then a else b }

  /** The largest estimate the check can let in: within `cap` and both limits. */
  function Top(lim: Limits, cap: real): real {
    var t := if lim.rolling > 0.0 then Min(cap, lim.rolling) else cap;
    if lim.weekly > 0.0 then Min(t, lim.weekly) else t
  }

  predicate Sane(s: State, lim: Limits, cap: real) {
    && (forall i | 0 <= i < |s.rows| :: s.rows[i].cu >= 0.0)
    && (forall i | 0 <= i < |s.flights| ::
          0.0 <= s.flights[i].estimate && (s.flights[i].key != LOCAL ==> s.flights[i].estimate <= Top(lim, cap)))
    && (forall k | k in s.overrun :: s.overrun[k] >= 0.0)
  }

  /** Every flight of a limited key holds one of its key's slots. */
  ghost predicate Slotted(s: State) {
    forall k {:trigger Slots(s, k)} | k != LOCAL :: Flying(s.flights, k) <= Slots(s, k)
  }

  /** n * cap. */
  function Times(n: nat, cap: real): real { if n == 0 then 0.0 else Times(n - 1, cap) + cap }

  lemma {:induction false} TimesIsProduct(n: nat, cap: real)
    ensures Times(n, cap) == n as real * cap
  {
    if n > 0 {
      TimesIsProduct(n - 1, cap);
      assert n as real * cap == ((n - 1) as real + 1.0) * cap;
    }
  }

  /** limit + (maxConcurrent - 1) * cap. */
  function Bound(limit: real, maxConcurrent: int, cap: real): real
    requires maxConcurrent > 0
  {
    limit + Times(maxConcurrent - 1, cap)
  }

  function Limit(lim: Limits, w: Window): real { if w.Rolling? then lim.rolling else lim.weekly }

  ghost predicate Bounded(s: State, lim: Limits, cap: real, key: string, w: Window)
    requires lim.maxConcurrent > 0
  {
    Used(s.rows, key, w, s.now) + Promised(s.flights, key)
    <= Bound(Limit(lim, w), lim.maxConcurrent, Top(lim, cap)) + Overrun(s, key)
  }

  lemma {:induction false} SumCuShrinks(rows: seq<Row>, key: string, since: real, later: real)
    requires since <= later && forall i | 0 <= i < |rows| :: rows[i].cu >= 0.0
    ensures SumCu(rows, key, later) <= SumCu(rows, key, since)
    decreases |rows|
  {
    if rows != [] { SumCuShrinks(rows[..|rows| - 1], key, since, later); }
  }

  lemma {:induction false} SumCuNotNegative(rows: seq<Row>, key: string, since: real)
    requires forall i | 0 <= i < |rows| :: rows[i].cu >= 0.0
    ensures SumCu(rows, key, since) >= 0.0
    decreases |rows|
  {
    if rows != [] { SumCuNotNegative(rows[..|rows| - 1], key, since); }
  }

  lemma {:induction false} DropCounts(flights: seq<Flight>, i: nat, key: string)
    requires i < |flights|
    ensures Promised(Drop(flights, i), key) ==
            Promised(flights, key) - (if flights[i].key == key then flights[i].estimate else 0.0)
    ensures Flying(Drop(flights, i), key) == Flying(flights, key) - (if flights[i].key == key then 1 else 0)
    decreases |flights|
  {
    var n, d := |flights| - 1, Drop(flights, i);
    if i == n {
      assert d == flights[..n];
    } else {
      DropCounts(flights[..n], i, key);
      assert d[..n - 1] == Drop(flights[..n], i) && d[n - 1] == flights[n];
    }
  }

  lemma {:induction false} PromisedIsCapped(flights: seq<Flight>, key: string, cap: real)
    requires forall i | 0 <= i < |flights| ::
               0.0 <= flights[i].estimate && (flights[i].key == key ==> flights[i].estimate <= cap)
    ensures 0.0 <= Promised(flights, key) <= Times(Flying(flights, key), cap)
    decreases |flights|
  {
    if flights != [] {
      var n := |flights| - 1;
      PromisedIsCapped(flights[..n], key, cap);
    }
  }

  lemma PromisedAppend(flights: seq<Flight>, f: Flight, key: string)
    ensures Promised(flights + [f], key) == Promised(flights, key) + (if f.key == key then f.estimate else 0.0)
    ensures Flying(flights + [f], key) == Flying(flights, key) + (if f.key == key then 1 else 0)
  {
    assert (flights + [f])[..|flights|] == flights;
  }

  /** Admission re-establishes the bound whatever was used before: the check
      leaves room for this request, and at most maxConcurrent - 1 others fly. */
  lemma AuthorizeKeeps(s: State, lim: Limits, cap: real, key: string, w: Window, k: string, estimate: real)
    requires key != LOCAL && cap >= 0.0 && lim.maxConcurrent > 0 && Limit(lim, w) > 0.0 && 0.0 <= estimate <= cap
    requires Sane(s, lim, cap) && Slotted(s) && Bounded(s, lim, cap, key, w)
    ensures Bounded(Next(s, lim, Authorize(k, estimate)), lim, cap, key, w)
  {
    hide Used, Times, Promised, Flying;
    if Admits(s, lim, k, estimate) {
      PromisedAppend(s.flights, Flight(k, estimate), key);
      if k == key {
        PromisedIsCapped(s.flights, key, Top(lim, cap));
        assert Flying(s.flights, key) <= Slots(s, key) < lim.maxConcurrent;
        CapScales(Flying(s.flights, key), lim.maxConcurrent - 1, Top(lim, cap));
      }
    }
  }

  lemma {:induction false} CapScales(n: nat, m: nat, cap: real)
    requires n <= m && cap >= 0.0
    ensures Times(n, cap) <= Times(m, cap)
    decreases m
  {
    if n < m { CapScales(n, m - 1, cap); }
  }

  lemma AdvanceKeeps(s: State, lim: Limits, cap: real, key: string, w: Window, dt: real)
    requires lim.maxConcurrent > 0 && Sane(s, lim, cap) && Bounded(s, lim, cap, key, w)
    ensures Bounded(Next(s, lim, Advance(dt)), lim, cap, key, w)
  {
    hide Start;
    hide Times;
    if dt >= 0.0 {
      StartIsMonotone(w, s.now, s.now + dt);
      SumCuShrinks(s.rows, key, Start(w, s.now), Start(w, s.now + dt));
    }
  }

  /** A finished request trades its estimate for its cost. */
  lemma FinalizeKeeps(s: State, lim: Limits, cap: real, key: string, w: Window, i: nat, cu: real)
    requires lim.maxConcurrent > 0 && Sane(s, lim, cap) && Bounded(s, lim, cap, key, w) && cu >= 0.0
    ensures Bounded(Next(s, lim, Finalize(i, cu)), lim, cap, key, w)
  {
    hide Start, Times, SumCu, Promised, Flying;
    if i < |s.flights| {
      StartIsPast(w, s.now);
      DropCounts(s.flights, i, key);
      SumCuAppends(s.rows, Row(s.flights[i].key, s.now, cu), key, Start(w, s.now));
    }
  }

  lemma LeaveKeeps(s: State, lim: Limits, cap: real, key: string, w: Window, i: nat)
    requires lim.maxConcurrent > 0 && Sane(s, lim, cap) && Bounded(s, lim, cap, key, w)
    ensures Bounded(Next(s, lim, Abort(i)), lim, cap, key, w) && Bounded(Next(s, lim, Lose(i)), lim, cap, key, w)
  {
    hide Used;
    hide Times;
    if i < |s.flights| {
      DropCounts(s.flights, i, key);
    }
  }

  lemma NextSane(s: State, lim: Limits, cap: real, e: Event)
    requires Sane(s, lim, cap) && Reasonable(e, cap)
    ensures Sane(Next(s, lim, e), lim, cap)
  {
    hide Start;
    if e.Authorize? {
      SumCuNotNegative(s.rows, e.key, Start(Rolling, s.now));
      SumCuNotNegative(s.rows, e.key, Start(Weekly, s.now));
    }
    hide SumCu;
  }

  lemma SlottedFor(s: State, lim: Limits, e: Event, k: string)
    requires k != LOCAL && Flying(s.flights, k) <= Slots(s, k)
    ensures Flying(Next(s, lim, e).flights, k) <= Slots(Next(s, lim, e), k)
  {
    hide Used, Flying, Promised;
    if e.Authorize? && Admits(s, lim, e.key, e.estimate) {
      PromisedAppend(s.flights, Flight(e.key, e.estimate), k);
    } else if (e.Finalize? || e.Abort? || e.Lose?) && e.i < |s.flights| {
      DropCounts(s.flights, e.i, k);
    }
  }

  lemma NextSlotted(s: State, lim: Limits, e: Event)
    requires Slotted(s)
    ensures Slotted(Next(s, lim, e))
  {
    hide Next;
    forall k | k != LOCAL ensures Flying(Next(s, lim, e).flights, k) <= Slots(Next(s, lim, e), k)
    {
      assert Flying(s.flights, k) <= Slots(s, k);
      SlottedFor(s, lim, e, k);
    }
  }

  /** The overshoot bound, for every run and both windows, as time advances: a
      key's usage plus the estimates of its requests in flight stays within
      limit + (maxConcurrent - 1) * the largest estimate that can be let in,
      plus what finished requests cost beyond their estimates. */
  lemma {:induction false} QuotaOvershootIsBounded(now: real, lim: Limits, cap: real, key: string, w: Window,
                                                   events: seq<Event>)
    requires key != LOCAL && cap >= 0.0 && lim.maxConcurrent > 0 && Limit(lim, w) > 0.0
    requires forall i | 0 <= i < |events| :: Reasonable(events[i], cap)
    ensures var s := Run(Init(now), lim, events);
            Sane(s, lim, cap) && Slotted(s) && Bounded(s, lim, cap, key, w)
    decreases |events|
  {
    if events == [] {
      CapScales(0, lim.maxConcurrent - 1, Top(lim, cap));
    } else {
      QuotaOvershootIsBounded(now, lim, cap, key, w, events[..|events| - 1]);
      var s, e := Run(Init(now), lim, events[..|events| - 1]), events[|events| - 1];
      NextSane(s, lim, cap, e);
      NextSlotted(s, lim, e);
      hide *;
      match e {
        case Advance(dt) => AdvanceKeeps(s, lim, cap, key, w, dt);
        case Authorize(k, estimate) => AuthorizeKeeps(s, lim, cap, key, w, k, estimate);
        case Finalize(i, cu) => FinalizeKeeps(s, lim, cap, key, w, i, cu);
        case Abort(i) => LeaveKeeps(s, lim, cap, key, w, i);
        case Lose(i) => LeaveKeeps(s, lim, cap, key, w, i);
      }
    }
  }

  /** No finished request of the run cost more than its estimate. */
  predicate Fair(now: real, lim: Limits, events: seq<Event>) {
    events == [] ||
    (var front, e := events[..|events| - 1], events[|events| - 1];
     Fair(now, lim, front) && FairStep(Run(Init(now), lim, front), e))
  }

  predicate FairStep(s: State, e: Event) { e.Finalize? && e.i < |s.flights| ==> e.cu <= s.flights[e.i].estimate }

  /** Nothing is overrun when no request costs more than its estimate. */
  lemma {:induction false} NoOverrun(now: real, lim: Limits, key: string, events: seq<Event>)
    requires Fair(now, lim, events)
    ensures Overrun(Run(Init(now), lim, events), key) == 0.0
    decreases |events|
  {
    hide Used;
    if events != [] { NoOverrun(now, lim, key, events[..|events| - 1]); }
  }

  /** The pre-check, exactly: a request of a key flies if and only if the key has
      a slot left and in both windows its recorded usage and this estimate fit
      the limit, where a limit of zero or less is none; estimates in flight do
      not count. It then holds one slot; a refused one leaves no trace. */
  lemma AuthorizeIsExact(s: State, lim: Limits, key: string, estimate: real)
    requires key != LOCAL
    ensures var t := Next(s, lim, Authorize(key, estimate));
            var slots := if key in s.slots then s.slots[key] else 0;
            if && (lim.maxConcurrent <= 0 || slots < lim.maxConcurrent)
               && (lim.weekly <= 0.0 || SumCu(s.rows, key, WeekStart(s.now)) + estimate <= lim.weekly)
               && (lim.rolling <= 0.0 || SumCu(s.rows, key, s.now - 18000.0) + estimate <= lim.rolling)
            then t == s.(flights := s.flights + [Flight(key, estimate)], slots := s.slots[key := slots + 1])
            else t == s
  {
    hide WeekStart, SumCu;
  }

  lemma {:induction false} SumCuAppends(rows: seq<Row>, row: Row, key: string, since: real)
    ensures SumCu(rows + [row], key, since)
            == SumCu(rows, key, since) + (if row.key == key && row.ts >= since then row.cu else 0.0)
  {
    assert (rows + [row])[..|rows|] == rows;
  }

  /** How a flight ends, exactly: a finished one adds its cost, and nothing else,
      to its key's usage in every window; finished and aborted ones give their
      slot back and a lost one keeps it. */
  lemma EndingIsExact(s: State, lim: Limits, e: Event, key: string, w: Window)
    requires (e.Finalize? || e.Abort? || e.Lose?) && e.i < |s.flights|
    ensures var t, f := Next(s, lim, e), s.flights[e.i];
            && t.now == s.now && t.flights == s.flights[..e.i] + s.flights[e.i + 1..]
            && Used(t.rows, key, w, t.now)
                 == Used(s.rows, key, w, s.now) + (if e.Finalize? && f.key == key then e.cu else 0.0)
            && Slots(t, key)
                 == Slots(s, key) - (if !e.Lose? && f.key == key && key != LOCAL && Slots(s, key) > 0 then 1 else 0)
  {
    hide Start, SumCu, Flying, Promised;
    StartIsPast(w, s.now);
    if e.Finalize? { SumCuAppends(s.rows, Row(s.flights[e.i].key, s.now, e.cu), key, Start(w, s.now)); }
  }

  /** The loopback key is always let through and takes no slot. */
  lemma LoopbackIsExempt(s: State, lim: Limits, estimate: real)
    ensures var t := Next(s, lim, Authorize(LOCAL, estimate));
            t.flights == s.flights + [Flight(LOCAL, estimate)] && t.slots == s.slots
  {
  }
}
