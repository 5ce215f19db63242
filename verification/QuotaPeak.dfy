/** The worst case of a quota, exactly: how far usage and in-flight estimates of
    a key can go in a window when the other window has a limit too
    (engine/gateway.py, engine/quota/store.py, engine/quota/windows.py). */
module QuotaPeak {
  import opened Gateway
  import opened Quota

  function Other(w: Window): Window { if w.Rolling? then Weekly else Rolling }

  /** How many windows of the other kind one window can touch: a week is covered
      by 34 stretches of five hours, five hours lie in at most two weeks. */
  function Touches(w: Window): nat { if w.Weekly? then 34 else 2 }

  /** The most that usage and in-flight estimates reach: the window's own bound,
      or what the other window's bound lets through as often as it is touched. */
  function Peak(lim: Limits, cap: real, w: Window): real
    requires lim.maxConcurrent > 0
  {
    var top := Top(lim, cap);
    var own := Bound(Limit(lim, w), lim.maxConcurrent, top);
    var other := Limit(lim, Other(w));
    if other > 0.0 then Min(own, Times(Touches(w), Bound(other, lim.maxConcurrent, top))) else own
  }

  // ---------------------------------------------------- windows behind windows

  /** The start of the n-th window of kind `o` counting back from `t`. */
  function Back(o: Window, t: real, n: nat): real
    requires n >= 1
  {
    if o.Rolling? then t - Times(n, FIVE_HOURS) else WeekStart(t) - Times(n - 1, WEEK)
  }

  /** Being before a week's start is being in an earlier week. */
  lemma EarlierWeek(u: real, t: real)
    requires u < WeekStart(t)
    ensures WeekStart(u) <= WeekStart(t) - WEEK
  {
    WeekHoldsNow(u);
    WeekHoldsNow(t);
    var a, b := MondayOf(u), MondayOf(t);
    assert a as real * DAY < b as real * DAY;
    assert a < b;
    assert a <= b - 7;
    assert (b - 7) as real == b as real - 7.0;
  }

  lemma BackStep(o: Window, u: real, t: real, n: nat)
    requires u < Start(o, t) && n >= 1
    ensures Back(o, u, n) <= Back(o, t, n + 1)
  {
    hide MondayOf;
    if o.Weekly? { EarlierWeek(u, t); }
    hide WeekStart;
  }

  lemma BackOne(o: Window, t: real)
    ensures Back(o, t, 1) == Start(o, t)
  {
    assert Times(1, FIVE_HOURS) == FIVE_HOURS;
  }

  /** A window lies within as many windows of the other kind as it touches. */
  lemma WindowIsCovered(w: Window, now: real)
    ensures Back(Other(w), now, Touches(w)) <= Start(w, now)
  {
    WeekHoldsNow(now);
    TimesIsProduct(34, FIVE_HOURS);
    assert Times(1, WEEK) == WEEK;
    hide MondayOf;
  }

  // ------------------------------------------------------ what was used before

  /** Rows come in order of time, and at each one the window `o` that ends there
      holds at most `bound` of the key. */
  predicate Paced(rows: seq<Row>, key: string, o: Window, bound: real) {
    rows == [] ||
    (var n := |rows| - 1;
     && Paced(rows[..n], key, o, bound)
     && rows[n].cu >= 0.0 && Ended(rows[..n], rows[n].ts)
     && SumCu(rows, key, Start(o, rows[n].ts)) <= bound)
  }

  /** No row is after `t`. */
  predicate Ended(rows: seq<Row>, t: real) { rows == [] || rows[|rows| - 1].ts <= t }

  lemma {:induction false} PacedIsPositive(rows: seq<Row>, key: string, o: Window, bound: real)
    requires Paced(rows, key, o, bound)
    ensures forall i | 0 <= i < |rows| :: rows[i].cu >= 0.0
    decreases |rows|
  {
    hide SumCu, Start;
    if rows != [] { PacedIsPositive(rows[..|rows| - 1], key, o, bound); }
  }

  /** The rows before `mid`. */
  function Before(rows: seq<Row>, mid: real): seq<Row> {
    if rows == [] || rows[|rows| - 1].ts < mid then rows else Before(rows[..|rows| - 1], mid)
  }

  lemma {:induction false} BeforeIsPaced(rows: seq<Row>, key: string, o: Window, bound: real, mid: real)
    requires Paced(rows, key, o, bound)
    ensures var e := Before(rows, mid); Paced(e, key, o, bound) && (e != [] ==> e[|e| - 1].ts < mid)
    decreases |rows|
  {
    hide SumCu, Start;
    if rows != [] && rows[|rows| - 1].ts >= mid { BeforeIsPaced(rows[..|rows| - 1], key, o, bound, mid); }
  }

  lemma {:induction false} NothingSince(rows: seq<Row>, key: string, o: Window, bound: real, since: real)
    requires Paced(rows, key, o, bound) && (rows != [] ==> rows[|rows| - 1].ts < since)
    ensures SumCu(rows, key, since) == 0.0
    decreases |rows|
  {
    hide Start;
    if rows != [] { NothingSince(rows[..|rows| - 1], key, o, bound, since); }
  }

  lemma {:induction false} SumSplits(rows: seq<Row>, key: string, o: Window, bound: real, since: real, mid: real)
    requires Paced(rows, key, o, bound) && since <= mid
    ensures SumCu(rows, key, since) == SumCu(rows, key, mid) + SumCu(Before(rows, mid), key, since)
    decreases |rows|
  {
    hide Start;
    if rows != [] {
      if rows[|rows| - 1].ts >= mid {
        SumSplits(rows[..|rows| - 1], key, o, bound, since, mid);
      } else {
        NothingSince(rows, key, o, bound, mid);
      }
    }
  }

  lemma CurrentWindow(rows: seq<Row>, key: string, o: Window, bound: real, t: real)
    requires Paced(rows, key, o, bound) && Ended(rows, t) && bound >= 0.0
    ensures SumCu(rows, key, Start(o, t)) <= bound
  {
    hide Start;
    if rows != [] {
      var u := rows[|rows| - 1].ts;
      PacedIsPositive(rows, key, o, bound);
      StartIsMonotone(o, u, t);
      SumCuShrinks(rows, key, Start(o, u), Start(o, t));
    }
  }

  /** `n` windows back from `t` hold at most `n` times the bound. */
  lemma {:induction false} WindowsBack(rows: seq<Row>, key: string, o: Window, bound: real, t: real, n: nat)
    requires Paced(rows, key, o, bound) && Ended(rows, t) && bound >= 0.0 && n >= 1
    ensures SumCu(rows, key, Back(o, t, n)) <= Times(n, bound)
    decreases n
  {
    hide Paced, SumCu, Start, Back, Before;
    CurrentWindow(rows, key, o, bound, t);
    BackOne(o, t);
    if n > 1 { EarlierWindows(rows, key, o, bound, t, n); }
  }

  /** The rows before the current window, in the n - 1 windows before it. */
  lemma {:induction false} EarlierWindows(rows: seq<Row>, key: string, o: Window, bound: real, t: real, n: nat)
    requires Paced(rows, key, o, bound) && Ended(rows, t) && bound >= 0.0 && n >= 2
    ensures SumCu(Before(rows, Start(o, t)), key, Back(o, t, n)) <= Times(n - 1, bound)
    ensures SumCu(rows, key, Back(o, t, n)) ==
            SumCu(rows, key, Start(o, t)) + SumCu(Before(rows, Start(o, t)), key, Back(o, t, n))
    decreases n, 0
  {
    hide Paced, SumCu, Start, Back, Before;
    var early := Before(rows, Start(o, t));
    BeforeIsPaced(rows, key, o, bound, Start(o, t));
    BackBefore(o, t, n);
    SumSplits(rows, key, o, bound, Back(o, t, n), Start(o, t));
    if early == [] {
      NothingSince(early, key, o, bound, Back(o, t, n));
      TimesGrow(0, n - 1, bound);
    } else {
      var u := early[|early| - 1].ts;
      WindowsBack(early, key, o, bound, u, n - 1);
      BackStep(o, u, t, n - 1);
      PacedIsPositive(early, key, o, bound);
      SumCuShrinks(early, key, Back(o, u, n - 1), Back(o, t, n));
    }
  }

  lemma BackBefore(o: Window, t: real, n: nat)
    requires n >= 1
    ensures Back(o, t, n) <= Start(o, t)
  {
    hide MondayOf;
    TimesGrow(1, n, FIVE_HOURS);
    TimesGrow(0, n - 1, WEEK);
    assert Times(1, FIVE_HOURS) == FIVE_HOURS;
  }

  lemma {:induction false} TimesGrow(n: nat, m: nat, x: real)
    requires n <= m && x >= 0.0
    ensures 0.0 <= Times(n, x) <= Times(m, x)
    decreases m
  {
    if n < m {
      TimesGrow(n, m - 1, x);
    } else if n > 0 {
      TimesGrow(n - 1, m - 1, x);
    }
  }

  // -------------------------------------------------------- nothing exceeds it

  predicate AllReasonable(events: seq<Event>, cap: real) { forall i | 0 <= i < |events| :: Reasonable(events[i], cap) }

  /** The bound on the other window, without overrun, at one moment of a run. */
  lemma NowBounded(now: real, lim: Limits, cap: real, key: string, o: Window, events: seq<Event>)
    requires key != LOCAL && cap >= 0.0 && lim.maxConcurrent > 0 && Limit(lim, o) > 0.0
    requires AllReasonable(events, cap) && Fair(now, lim, events)
    ensures var s := Run(Init(now), lim, events);
            && Sane(s, lim, cap) && Promised(s.flights, key) >= 0.0
            && Used(s.rows, key, o, s.now) + Promised(s.flights, key)
               <= Bound(Limit(lim, o), lim.maxConcurrent, Top(lim, cap))
  {
    QuotaOvershootIsBounded(now, lim, cap, key, o, events);
    NoOverrun(now, lim, key, events);
    hide Run, Fair, Used;
    PromisedIsCapped(Run(Init(now), lim, events).flights, key, Top(lim, cap));
  }

  lemma {:induction false} RunIsPaced(now: real, lim: Limits, cap: real, key: string, o: Window, events: seq<Event>)
    requires key != LOCAL && cap >= 0.0 && lim.maxConcurrent > 0 && Limit(lim, o) > 0.0
    requires AllReasonable(events, cap) && Fair(now, lim, events)
    ensures var s := Run(Init(now), lim, events);
            Paced(s.rows, key, o, Bound(Limit(lim, o), lim.maxConcurrent, Top(lim, cap))) && Ended(s.rows, s.now)
    decreases |events|
  {
    if events != [] {
      var front, e := events[..|events| - 1], events[|events| - 1];
      RunIsPaced(now, lim, cap, key, o, front);
      NowBounded(now, lim, cap, key, o, events);
      var s, t := Run(Init(now), lim, front), Run(Init(now), lim, events);
      PaceStep(s, t, lim, cap, key, o, e);
    }
  }

  lemma PaceStep(s: State, t: State, lim: Limits, cap: real, key: string, o: Window, e: Event)
    requires lim.maxConcurrent > 0 && t == Next(s, lim, e) && Sane(t, lim, cap)
    requires var b := Bound(Limit(lim, o), lim.maxConcurrent, Top(lim, cap));
             && Paced(s.rows, key, o, b) && Ended(s.rows, s.now) && Used(t.rows, key, o, t.now) <= b
    ensures Paced(t.rows, key, o, Bound(Limit(lim, o), lim.maxConcurrent, Top(lim, cap))) && Ended(t.rows, t.now)
  {
    hide Paced, SumCu, Start, Top, Bound;
    if e.Finalize? && e.i < |s.flights| {
      var row := Row(s.flights[e.i].key, s.now, e.cu);
      assert t.rows == s.rows + [row] && t.now == s.now && t.rows[|s.rows|].cu >= 0.0;
      PacedAppend(s.rows, row, key, o, Bound(Limit(lim, o), lim.maxConcurrent, Top(lim, cap)));
    }
  }

  lemma PacedAppend(rows: seq<Row>, row: Row, key: string, o: Window, bound: real)
    requires Paced(rows, key, o, bound) && Ended(rows, row.ts) && row.cu >= 0.0
    requires SumCu(rows + [row], key, Start(o, row.ts)) <= bound
    ensures Paced(rows + [row], key, o, bound)
  {
    hide SumCu, Start;
    assert (rows + [row])[..|rows|] == rows;
  }

  /** In every run without overrun, usage and in-flight estimates together stay
      within the peak of either window. */
  lemma UsageStaysWithinPeak(now: real, lim: Limits, cap: real, key: string, w: Window, events: seq<Event>)
    requires key != LOCAL && cap >= 0.0 && lim.maxConcurrent > 0 && Limit(lim, w) > 0.0
    requires AllReasonable(events, cap) && Fair(now, lim, events)
    ensures var s := Run(Init(now), lim, events);
            Used(s.rows, key, w, s.now) + Promised(s.flights, key) <= Peak(lim, cap, w)
  {
    hide Run, Fair, SumCu, Start, Paced, Back, Top, Sane, AllReasonable, Promised, Before;
    NowBounded(now, lim, cap, key, w, events);
    if Limit(lim, Other(w)) > 0.0 {
      var o, n := Other(w), Touches(w);
      var s, b := Run(Init(now), lim, events), Bound(Limit(lim, o), lim.maxConcurrent, Top(lim, cap));
      NowBounded(now, lim, cap, key, o, events);
      RunIsPaced(now, lim, cap, key, o, events);
      assert b >= 0.0 by { TopIsPositive(lim, cap); TimesGrow(0, lim.maxConcurrent - 1, Top(lim, cap)); }
      EarlierWindows(s.rows, key, o, b, s.now, n);
      WindowIsCovered(w, s.now);
      PacedIsPositive(s.rows, key, o, b);
      SumCuShrinks(s.rows, key, Back(o, s.now, n), Start(w, s.now));
      assert Times(n, b) == Times(n - 1, b) + b;
    }
  }

  lemma TopIsPositive(lim: Limits, cap: real)
    requires cap >= 0.0
    ensures Top(lim, cap) >= 0.0 && (cap > 0.0 ==> Top(lim, cap) > 0.0) && Top(lim, cap) <= cap
    ensures forall w :: Limit(lim, w) > 0.0 ==> Top(lim, cap) <= Limit(lim, w)
  {
  }

  // ---------------------------------------------------------- flights and time

  function Copies(n: nat, f: Flight): seq<Flight> { if n == 0 then [] else Copies(n - 1, f) + [f] }

  lemma {:induction false} CopiesDrop(n: nat, f: Flight)
    ensures |Copies(n, f)| == n && (n > 0 ==> Copies(n, f)[0] == f && Drop(Copies(n, f), 0) == Copies(n - 1, f))
  {
    if n > 0 {
      CopiesDrop(n - 1, f);
      if n > 1 { assert Drop(Copies(n, f), 0) == Drop(Copies(n - 1, f), 0) + [f]; }
    }
  }

  /** Where a run stands for one key, seen from window `w`: all usage between
      `since` and now `t`; used in `w` and in the other window; and `n` requests
      of one size in flight. */
  datatype Spot = Spot(since: real, t: real, own: real, other: real, n: nat, size: real)

  /** The run `es`, without overrun and with no estimate above `cap`, stands at `g`. */
  ghost predicate Reaches(now: real, lim: Limits, cap: real, key: string, w: Window, es: seq<Event>, g: Spot) {
    var s := Run(Init(now), lim, es);
    && AllReasonable(es, cap) && Fair(now, lim, es)
    && s.now == g.t && s.flights == Copies(g.n, Flight(key, g.size)) && Slots(s, key) == g.n
    && Start(w, g.t) <= g.since && (forall i | 0 <= i < |s.rows| :: g.since <= s.rows[i].ts <= g.t)
    && Used(s.rows, key, w, g.t) == g.own && Used(s.rows, key, Other(w), g.t) == g.other
  }

  /** The check lets a request in whatever is in flight, while slots last. */
  predicate Fits(lim: Limits, w: Window, own: real, other: real, size: real) {
    !WouldExceed(own, Limit(lim, w), size) && !WouldExceed(other, Limit(lim, Other(w)), size)
  }

  predicate SlotLeft(lim: Limits, n: nat) { lim.maxConcurrent > 0 ==> n < lim.maxConcurrent }

  lemma RunSnoc(now: real, lim: Limits, es: seq<Event>, e: Event)
    ensures Run(Init(now), lim, es + [e]) == Next(Run(Init(now), lim, es), lim, e)
    ensures Fair(now, lim, es + [e]) <==> Fair(now, lim, es) && FairStep(Run(Init(now), lim, es), e)
  {
    hide Next;
    assert (es + [e])[..|es|] == es;
  }

  /** A run that only waits until `t`. */
  lemma Begin(now: real, lim: Limits, cap: real, key: string, w: Window, t: real, size: real) returns (es: seq<Event>)
    requires t >= now
    ensures Reaches(now, lim, cap, key, w, es, Spot(t, t, 0.0, 0.0, 0, size))
  {
    es := [] + [Advance(t - now)];
    RunSnoc(now, lim, [], Advance(t - now));
    assert Run(Init(now), lim, []) == Init(now);
    StartIsPast(w, t);
    hide Start;
  }

  lemma TakeOff(now: real, lim: Limits, cap: real, key: string, w: Window, es: seq<Event>, g: Spot)
    requires key != LOCAL && Reaches(now, lim, cap, key, w, es, g) && 0.0 <= g.size <= cap
    requires Fits(lim, w, g.own, g.other, g.size) && SlotLeft(lim, g.n)
    ensures Reaches(now, lim, cap, key, w, es + [Authorize(key, g.size)], g.(n := g.n + 1))
  {
    hide Used, Run, Fair, Start;
    RunSnoc(now, lim, es, Authorize(key, g.size));
    var s := Run(Init(now), lim, es);
    assert Used(s.rows, key, Rolling, g.t) == if w.Rolling? then g.own else g.other;
    assert Used(s.rows, key, Weekly, g.t) == if w.Weekly? then g.own else g.other;
    assert Admits(s, lim, key, g.size);
  }

  lemma UsedAppend(rows: seq<Row>, key: string, w: Window, now: real, cu: real)
    ensures Used(rows + [Row(key, now, cu)], key, w, now) == Used(rows, key, w, now) + cu
  {
    StartIsPast(w, now);
    hide Start;
    assert (rows + [Row(key, now, cu)])[..|rows|] == rows;
  }

  lemma Land(now: real, lim: Limits, cap: real, key: string, w: Window, es: seq<Event>, g: Spot)
    requires key != LOCAL && g.n > 0 && Reaches(now, lim, cap, key, w, es, g) && g.size >= 0.0 && g.since <= g.t
    ensures Reaches(now, lim, cap, key, w, es + [Finalize(0, g.size)],
                    g.(own := g.own + g.size, other := g.other + g.size, n := g.n - 1))
  {
    hide Used, Run, Fair, Copies, Drop, Start;
    CopiesDrop(g.n, Flight(key, g.size));
    RunSnoc(now, lim, es, Finalize(0, g.size));
    var s := Run(Init(now), lim, es);
    UsedAppend(s.rows, key, w, g.t, g.size);
    UsedAppend(s.rows, key, Other(w), g.t, g.size);
  }

  lemma {:induction false} AllSince(rows: seq<Row>, key: string, a: real, b: real)
    requires forall i | 0 <= i < |rows| :: a <= rows[i].ts && b <= rows[i].ts
    ensures SumCu(rows, key, a) == SumCu(rows, key, b)
    decreases |rows|
  {
    if rows != [] { AllSince(rows[..|rows| - 1], key, a, b); }
  }

  lemma {:induction false} NoneSince(rows: seq<Row>, key: string, a: real)
    requires forall i | 0 <= i < |rows| :: rows[i].ts < a
    ensures SumCu(rows, key, a) == 0.0
    decreases |rows|
  {
    if rows != [] { NoneSince(rows[..|rows| - 1], key, a); }
  }

  /** With nothing in flight, time passes until the other window is empty while
      this one still holds everything. */
  lemma Wait(now: real, lim: Limits, cap: real, key: string, w: Window, es: seq<Event>, g: Spot, t: real)
    requires Reaches(now, lim, cap, key, w, es, g) && g.n == 0 && t >= g.t
    requires Start(Other(w), t) > g.t && Start(w, t) <= g.since
    ensures Reaches(now, lim, cap, key, w, es + [Advance(t - g.t)], g.(t := t, other := 0.0))
  {
    hide Run, Fair, Start, SumCu;
    RunSnoc(now, lim, es, Advance(t - g.t));
    var s := Run(Init(now), lim, es);
    AllSince(s.rows, key, Start(w, g.t), Start(w, t));
    NoneSince(s.rows, key, Start(Other(w), t));
  }

  /** With nothing in flight the size of the flights is immaterial. */
  lemma AnySize(now: real, lim: Limits, cap: real, key: string, w: Window, es: seq<Event>, g: Spot, size: real)
    requires Reaches(now, lim, cap, key, w, es, g) && g.n == 0
    ensures Reaches(now, lim, cap, key, w, es, g.(size := size))
  {
    hide Used, Run, Fair, Start;
  }

  /** Requests take off one after the other and none lands: what is in flight is
      not counted by the check. */
  lemma {:induction false} BurstIsAdmitted(now: real, lim: Limits, cap: real, key: string, w: Window, es: seq<Event>,
                                           g: Spot, m: nat) returns (out: seq<Event>)
    requires key != LOCAL && Reaches(now, lim, cap, key, w, es, g) && g.n == 0 && 0.0 <= g.size <= cap
    requires m > 0 ==> Fits(lim, w, g.own, g.other, g.size) && SlotLeft(lim, m - 1)
    ensures Reaches(now, lim, cap, key, w, out, g.(n := m))
    decreases m
  {
    hide Reaches;
    if m == 0 { return es; }
    out := BurstIsAdmitted(now, lim, cap, key, w, es, g, m - 1);
    TakeOff(now, lim, cap, key, w, out, g.(n := m - 1));
    out := out + [Authorize(key, g.size)];
  }

  /** All of them land, each at its estimate. */
  lemma {:induction false} LandAll(now: real, lim: Limits, cap: real, key: string, w: Window, es: seq<Event>, g: Spot)
    returns (out: seq<Event>)
    requires key != LOCAL && Reaches(now, lim, cap, key, w, es, g) && g.size >= 0.0 && g.since <= g.t
    ensures Reaches(now, lim, cap, key, w, out,
                    g.(own := g.own + Times(g.n, g.size), other := g.other + Times(g.n, g.size), n := 0))
    decreases g.n
  {
    hide Reaches;
    if g.n == 0 { return es; }
    Land(now, lim, cap, key, w, es, g);
    var h := g.(own := g.own + g.size, other := g.other + g.size, n := g.n - 1);
    out := LandAll(now, lim, cap, key, w, es + [Finalize(0, g.size)], h);
    assert g.own + g.size + Times(g.n - 1, g.size) == g.own + Times(g.n, g.size);
    assert g.other + g.size + Times(g.n - 1, g.size) == g.other + Times(g.n, g.size);
  }

  /** A burst of `m` requests that all land. */
  lemma Burst(now: real, lim: Limits, cap: real, key: string, w: Window, es: seq<Event>, g: Spot, m: nat, size: real)
    returns (out: seq<Event>)
    requires key != LOCAL && Reaches(now, lim, cap, key, w, es, g) && g.n == 0 && 0.0 <= size <= cap && g.since <= g.t
    requires m > 0 ==> Fits(lim, w, g.own, g.other, size) && SlotLeft(lim, m - 1)
    ensures Reaches(now, lim, cap, key, w, out,
            g.(own := g.own + Times(m, size), other := g.other + Times(m, size), size := size))
  {
    hide Reaches;
    AnySize(now, lim, cap, key, w, es, g, size);
    out := BurstIsAdmitted(now, lim, cap, key, w, es, g.(size := size), m);
    out := LandAll(now, lim, cap, key, w, out, g.(size := size, n := m));
  }

  // ------------------------------------------------------------ filling windows

  /** `k` requests of one size, one after the other. */
  lemma {:induction false} Spend(now: real, lim: Limits, cap: real, key: string, w: Window, es: seq<Event>, g: Spot,
                                 k: nat, size: real) returns (out: seq<Event>)
    requires key != LOCAL && Reaches(now, lim, cap, key, w, es, g) && g.n == 0 && 0.0 <= size <= cap && g.since <= g.t
    requires k > 0 ==> Fits(lim, w, g.own + Times(k - 1, size), g.other + Times(k - 1, size), size) && SlotLeft(lim, 0)
    ensures Reaches(now, lim, cap, key, w, out,
            g.(own := g.own + Times(k, size), other := g.other + Times(k, size), size := size))
    decreases k
  {
    hide Reaches;
    AnySize(now, lim, cap, key, w, es, g, size);
    if k == 0 { return es; }
    out := Spend(now, lim, cap, key, w, es, g, k - 1, size);
    var h := g.(own := g.own + Times(k - 1, size), other := g.other + Times(k - 1, size), size := size);
    out := Burst(now, lim, cap, key, w, out, h, 1, size);
    assert Times(1, size) == size;
    assert g.own + Times(k - 1, size) + Times(1, size) == g.own + Times(k, size);
    assert g.other + Times(k - 1, size) + Times(1, size) == g.other + Times(k, size);
  }

  lemma Quotient(whole: real, size: real) returns (q: real)
    requires whole >= 0.0 && size > 0.0
    ensures q >= 0.0 && q * size == whole
  {
    q := whole / size;
  }

  /** `whole` as a number of steps of `size` and a rest. */
  lemma Divide(whole: real, size: real) returns (n: nat, rest: real)
    requires whole >= 0.0 && size > 0.0
    ensures 0.0 <= rest <= size && Times(n, size) + rest == whole
  {
    hide Times;
    var q := Quotient(whole, size);
    n := q.Floor;
    TimesIsProduct(n, size);
    rest := whole - Times(n, size);
    Between(size, q, n as real, Times(n, size), whole);
  }

  lemma Between(size: real, q: real, n: real, steps: real, whole: real)
    requires size > 0.0 && n <= q <= n + 1.0 && steps == n * size && whole == q * size
    ensures steps <= whole <= steps + size
  {
    NotNegative(n + 1.0 - q, size);
    NotNegative(q - n, size);
    assert (n + 1.0 - q) * size == n * size + 1.0 * size - q * size;
    assert (q - n) * size == q * size - n * size;
  }

  lemma NotNegative(x: real, size: real)
    requires x >= 0.0 && size > 0.0
    ensures x * size >= 0.0
  {
  }

  /** Any amount that both windows have room for is used up in small requests. */
  lemma Fill(now: real, lim: Limits, cap: real, key: string, w: Window, es: seq<Event>, g: Spot, f: real)
    returns (out: seq<Event>)
    requires key != LOCAL && Reaches(now, lim, cap, key, w, es, g) && g.n == 0 && cap > 0.0 && f >= 0.0
             && g.since <= g.t
    requires Fits(lim, w, g.own, g.other, f) && SlotLeft(lim, 0)
    ensures Reaches(now, lim, cap, key, w, out, g.(own := g.own + f, other := g.other + f))
  {
    hide Reaches;
    var k, rest := Divide(f, cap);
    if k > 0 { assert Times(k, cap) == Times(k - 1, cap) + cap; }
    hide Times;
    out := Spend(now, lim, cap, key, w, es, g, k, cap);
    var h := g.(own := g.own + Times(k, cap), other := g.other + Times(k, cap), size := cap);
    out := Burst(now, lim, cap, key, w, out, h, 1, rest);
    TimesOnce(rest);
    AnySize(now, lim, cap, key, w, out, g.(own := g.own + f, other := g.other + f, size := rest), g.size);
  }

  lemma TimesOnce(x: real)
    ensures Times(1, x) == x
  {
  }

  /** Fill, then burst: one window's worth. */
  lemma Round(now: real, lim: Limits, cap: real, key: string, w: Window, es: seq<Event>, g: Spot, f: real,
              size: real, m: nat)
    returns (out: seq<Event>)
    requires key != LOCAL && Reaches(now, lim, cap, key, w, es, g) && g.n == 0 && g.since <= g.t
    requires cap > 0.0 && f >= 0.0 && 0.0 <= size <= cap && m > 0 && SlotLeft(lim, m - 1)
    requires Fits(lim, w, g.own, g.other, f + size)
    ensures var a := f + Times(m, size);
            Reaches(now, lim, cap, key, w, out, g.(own := g.own + a, other := g.other + a, size := size))
  {
    hide Reaches, Times;
    out := Fill(now, lim, cap, key, w, es, g, f);
    out := Burst(now, lim, cap, key, w, out, g.(own := g.own + f, other := g.other + f), m, size);
  }

  // ------------------------------------------------------------- the timetable

  /** A day number names the week's Monday for every moment of that week. */
  lemma InWeek(monday: int, x: real)
    requires (monday + 3) % 7 == 0 && monday as real * DAY <= x < (monday + 7) as real * DAY
    ensures MondayOf(x) == monday
  {
    var day := (x / DAY).Floor;
    assert monday as real <= x / DAY < (monday + 7) as real;
    assert monday <= day < monday + 7;
  }

  /** The Monday after next, so that the hour before it is still to come. */
  function Monday(now: real): real { (MondayOf(now) + 14) as real * DAY }

  const PACE := 18300.0

  /** When the i-th window of the other kind is used: a little over five hours
      apart from a Monday on; or in the hour before a Monday and at it. */
  function Turn(w: Window, now: real, i: nat): real {
    if w.Weekly? then Monday(now) + Times(i, PACE) else if i == 0 then Monday(now) - 3600.0 else Monday(now)
  }

  lemma MondayIsAhead(now: real)
    ensures Monday(now) - WEEK >= now && (MondayOf(now) + 14 + 3) % 7 == 0
  {
    WeekHoldsNow(now);
    assert (MondayOf(now) + 14) as real == MondayOf(now) as real + 14.0;
  }

  /** From one turn to the next the other window empties and this one does not. */
  lemma NextTurn(w: Window, now: real, i: nat)
    requires i + 1 < Touches(w)
    ensures Turn(w, now, i) <= Turn(w, now, i + 1) && now <= Turn(w, now, 0) <= Turn(w, now, i)
    ensures Start(Other(w), Turn(w, now, i + 1)) > Turn(w, now, i)
    ensures Start(w, Turn(w, now, i + 1)) <= Turn(w, now, 0)
  {
    MondayIsAhead(now);
    TimesGrow(0, i, PACE);
    TimesGrow(i + 1, 33, PACE);
    TimesIsProduct(33, PACE);
    var m := MondayOf(now) + 14;
    assert (m + 7) as real == m as real + 7.0;
    InWeek(m, Turn(w, now, i + 1));
  }

  /** `k` rounds, one per turn, and the wait for turn `k`. */
  lemma {:induction false} Rounds(now: real, lim: Limits, cap: real, key: string, w: Window, k: nat, f: real,
                                  size: real, m: nat)
    returns (es: seq<Event>)
    requires key != LOCAL && cap > 0.0 && f >= 0.0 && 0.0 <= size <= cap && m > 0 && SlotLeft(lim, m - 1)
             && k < Touches(w)
    requires var a := f + Times(m, size);
             && Times(k, a) <= Limit(lim, w) && !WouldExceed(0.0, Limit(lim, Other(w)), f + size)
    ensures Reaches(now, lim, cap, key, w, es,
                    Spot(Turn(w, now, 0), Turn(w, now, k), Times(k, f + Times(m, size)), 0.0, 0, size))
    decreases k
  {
    hide Reaches, Start, Turn;
    if k == 0 {
      NextTurn(w, now, 0);
      es := Begin(now, lim, cap, key, w, Turn(w, now, 0), size);
    } else {
      var a := f + Times(m, size);
      TimesGrow(1, m, size);
      TimesOnce(size);
      TimesGrow(k - 1, k, a);
      hide Times;
      TimesStep(k, a);
      es := Rounds(now, lim, cap, key, w, k - 1, f, size, m);
      NextTurn(w, now, k - 1);
      var g := Spot(Turn(w, now, 0), Turn(w, now, k - 1), Times(k - 1, a), 0.0, 0, size);
      es := Round(now, lim, cap, key, w, es, g, f, size, m);
      g := g.(own := g.own + a, other := g.other + a);
      Wait(now, lim, cap, key, w, es, g, Turn(w, now, k));
      es := es + [Advance(Turn(w, now, k) - g.t)];
    }
  }

  lemma TimesStep(k: nat, a: real)
    requires k > 0
    ensures Times(k, a) == Times(k - 1, a) + a
  {
  }

  // ------------------------------------------------------- the peak is attained

  lemma {:induction false} TimesMonotone(n: nat, x: real, y: real)
    requires x <= y
    ensures Times(n, x) <= Times(n, y) && (n > 0 && x < y ==> Times(n, x) < Times(n, y))
  {
    if n > 0 { TimesMonotone(n - 1, x, y); }
  }

  /** Any amount up to the bound of a window is a filling and a burst. */
  lemma ChooseRound(limit: real, m: nat, top: real, a: real) returns (f: real, size: real)
    requires m > 0 && 0.0 < top <= limit && 0.0 <= a <= Bound(limit, m, top)
    ensures f >= 0.0 && 0.0 <= size <= top && f + size <= limit && f + Times(m, size) == a
  {
    TimesStep(m, top);
    assert Times(0, top) == 0.0;
    if a <= limit {
      f, size := a, 0.0;
      TimesIsProduct(m, 0.0);
    } else {
      size := Share(a - limit, m - 1);
      if size > top { TimesMonotone(m - 1, top, size); }
      f := limit - size;
      TimesStep(m, size);
    }
  }

  /** One of `n` equal parts. */
  lemma Share(whole: real, n: nat) returns (part: real)
    requires whole >= 0.0 && n > 0
    ensures part >= 0.0 && Times(n, part) == whole
  {
    hide Times;
    part := Quotient(whole, n as real);
    TimesIsProduct(n, part);
  }

  /** The other window is no obstacle: fill to one request below the limit, then
      burst. */
  lemma AttainAtOnce(now: real, lim: Limits, cap: real, key: string, w: Window) returns (es: seq<Event>)
    requires key != LOCAL && cap > 0.0 && lim.maxConcurrent > 0 && Limit(lim, w) > 0.0
    requires Limit(lim, Other(w)) <= 0.0 || Limit(lim, Other(w)) >= Limit(lim, w)
    ensures var peak := Bound(Limit(lim, w), lim.maxConcurrent, Top(lim, cap));
            Reaches(now, lim, cap, key, w, es, Spot(now, now, peak, peak, 0, Top(lim, cap)))
  {
    hide Reaches;
    var top, m := Top(lim, cap), lim.maxConcurrent;
    TopIsPositive(lim, cap);
    TimesStep(m, top);
    es := Begin(now, lim, cap, key, w, now, top);
    es := Round(now, lim, cap, key, w, es, Spot(now, now, 0.0, 0.0, 0, top), Limit(lim, w) - top, top, m);
    assert 0.0 + (Limit(lim, w) - top + Times(m, top)) == Bound(Limit(lim, w), m, top);
  }

  /** What each of the earlier turns and the filling of the last one use. */
  lemma Budget(limit: real, other: real, m: nat, top: real, k: nat) returns (a: real, f: real)
    requires m > 0 && 0.0 < top <= other < limit && k > 0
    ensures var b := Bound(other, m, top);
            && 0.0 <= a <= b && 0.0 <= f <= other - top && Times(k, a) + f + top <= limit
            && Times(k, a) + f + Times(m, top) == Min(Bound(limit, m, top), Times(k + 1, b))
  {
    var b := Bound(other, m, top);
    TimesGrow(0, m - 1, top);
    TimesStep(m, top);
    TimesStep(k + 1, b);
    if limit - top >= Times(k, b) {
      a := b;
    } else {
      a := Share(limit - top, k);
      if a > b { TimesMonotone(k, b, a); }
    }
    f := Min(other - top, limit - top - Times(k, a));
    TimesMonotone(k, a, b);
    hide Times;
  }

  /** The other window is tighter: use it as often as this one touches it. */
  lemma AttainOverTime(now: real, lim: Limits, cap: real, key: string, w: Window) returns (es: seq<Event>, g: Spot)
    requires key != LOCAL && cap > 0.0 && lim.maxConcurrent > 0 && 0.0 < Limit(lim, Other(w)) < Limit(lim, w)
    ensures Reaches(now, lim, cap, key, w, es, g) && g.n == 0 && g.own == Peak(lim, cap, w)
  {
    hide Reaches, Turn, Times, Bound, Top;
    var top, m, k := Top(lim, cap), lim.maxConcurrent, Touches(w) - 1;
    var limit, other := Limit(lim, w), Limit(lim, Other(w));
    TopIsPositive(lim, cap);
    var a, f := Budget(limit, other, m, top, k);
    var fill, size := ChooseRound(other, m, top, a);
    es := Rounds(now, lim, cap, key, w, k, fill, size, m);
    TurnsAhead(w, now);
    g := Spot(Turn(w, now, 0), Turn(w, now, k), Times(k, a), 0.0, 0, size);
    es := Round(now, lim, cap, key, w, es, g, f, top, m);
    g := g.(own := g.own + (f + Times(m, top)), other := g.other + (f + Times(m, top)), size := top);
  }

  lemma TurnsAhead(w: Window, now: real)
    ensures Turn(w, now, 0) <= Turn(w, now, Touches(w) - 1)
  {
    hide Turn;
    NextTurn(w, now, Touches(w) - 2);
  }

  /** The peak is attained, by recorded usage with nothing in flight, for every
      pair of limits: the default one included, where the five-hour limit is the
      tighter. */
  lemma PeakIsAttained(now: real, lim: Limits, cap: real, key: string, w: Window) returns (es: seq<Event>)
    requires key != LOCAL && cap > 0.0 && lim.maxConcurrent > 0 && Limit(lim, w) > 0.0
    ensures AllReasonable(es, cap) && Fair(now, lim, es)
    ensures var s := Run(Init(now), lim, es); s.flights == [] && Used(s.rows, key, w, s.now) == Peak(lim, cap, w)
  {
    if 0.0 < Limit(lim, Other(w)) < Limit(lim, w) {
      var g: Spot;
      es, g := AttainOverTime(now, lim, cap, key, w);
    } else {
      es := AttainAtOnce(now, lim, cap, key, w);
      PeakIsOwn(lim, cap, w);
    }
    hide Run, Fair, Used, Peak;
  }

  lemma PeakIsOwn(lim: Limits, cap: real, w: Window)
    requires cap > 0.0 && lim.maxConcurrent > 0 && Limit(lim, w) > 0.0
    requires Limit(lim, Other(w)) <= 0.0 || Limit(lim, Other(w)) >= Limit(lim, w)
    ensures Peak(lim, cap, w) == Bound(Limit(lim, w), lim.maxConcurrent, Top(lim, cap))
  {
    var b := Bound(Limit(lim, Other(w)), lim.maxConcurrent, Top(lim, cap));
    TopIsPositive(lim, cap);
    TimesGrow(0, lim.maxConcurrent - 1, Top(lim, cap));
    if Limit(lim, Other(w)) > 0.0 {
      TimesGrow(1, Touches(w), b);
      TimesOnce(b);
    }
  }

  /** Without a concurrency limit there is no bound at all. */
  lemma NoLimitNoBound(now: real, lim: Limits, cap: real, key: string, w: Window, x: real) returns (es: seq<Event>)
    requires key != LOCAL && cap > 0.0 && lim.maxConcurrent <= 0 && x >= 0.0
    ensures AllReasonable(es, cap) && Fair(now, lim, es)
    ensures var s := Run(Init(now), lim, es); s.flights == [] && Used(s.rows, key, w, s.now) > x
  {
    var top := Top(lim, cap);
    TopIsPositive(lim, cap);
    var n, rest := Divide(x, top);
    TimesStep(n + 2, top);
    TimesStep(n + 1, top);
    hide Times;
    es := Begin(now, lim, cap, key, w, now, top);
    es := Burst(now, lim, cap, key, w, es, Spot(now, now, 0.0, 0.0, 0, top), n + 2, top);
    hide Run, Fair, Used;
  }

  predicate Within(s: State, key: string, w: Window, limit: real) {
    Used(s.rows, key, w, s.now) + Promised(s.flights, key) <= limit
  }

  /** No run with estimates within `cap` and without overrun takes usage and
      in-flight estimates of the key beyond the limit. */
  ghost predicate QuotaHolds(now: real, lim: Limits, cap: real, key: string, w: Window) {
    forall es: seq<Event> :: AllReasonable(es, cap) && Fair(now, lim, es) ==>
      Within(Run(Init(now), lim, es), key, w, Limit(lim, w))
  }

  /** Exactly when a quota holds: a key may have one request at a time, or there
      is a concurrency limit and the other window, as often as this one touches
      it, never lets enough through. */
  lemma QuotaHoldsIffOneAtATimeOrShielded(now: real, lim: Limits, cap: real, key: string, w: Window)
    requires key != LOCAL && cap > 0.0 && Limit(lim, w) > 0.0
    ensures QuotaHolds(now, lim, cap, key, w) <==>
              || lim.maxConcurrent == 1
              || (&& lim.maxConcurrent > 1 && Limit(lim, Other(w)) > 0.0
                  && Limit(lim, w) >= Times(Touches(w), Bound(Limit(lim, Other(w)), lim.maxConcurrent, Top(lim, cap))))
  {
    hide Run, Fair, AllReasonable, Used;
    if lim.maxConcurrent <= 0 {
      var es := NoLimitNoBound(now, lim, cap, key, w, Limit(lim, w));
      assert !Within(Run(Init(now), lim, es), key, w, Limit(lim, w));
    } else {
      PeakAgainstLimit(lim, cap, w);
      if Peak(lim, cap, w) <= Limit(lim, w) {
        forall es: seq<Event> | AllReasonable(es, cap) && Fair(now, lim, es)
          ensures Within(Run(Init(now), lim, es), key, w, Limit(lim, w))
        {
          UsageStaysWithinPeak(now, lim, cap, key, w, es);
        }
      } else {
        var es := PeakIsAttained(now, lim, cap, key, w);
        assert !Within(Run(Init(now), lim, es), key, w, Limit(lim, w));
      }
    }
  }

  lemma PeakAgainstLimit(lim: Limits, cap: real, w: Window)
    requires cap > 0.0 && lim.maxConcurrent > 0 && Limit(lim, w) > 0.0
    ensures Peak(lim, cap, w) <= Limit(lim, w) <==>
              || lim.maxConcurrent == 1
              || (Limit(lim, Other(w)) > 0.0
                  && Limit(lim, w) >= Times(Touches(w), Bound(Limit(lim, Other(w)), lim.maxConcurrent, Top(lim, cap))))
  {
    TopIsPositive(lim, cap);
    var n := lim.maxConcurrent - 1;
    if n > 0 {
      TimesGrow(0, n - 1, Top(lim, cap));
      TimesStep(n, Top(lim, cap));
    }
  }

  /** With the default limits a week of the engine is not shielded: the weekly
      quota of five million holds exactly for one request at a time. */
  lemma DefaultWeekHoldsIffOneAtATime(now: real, maxConcurrent: int, cap: real, key: string)
    requires key != LOCAL && cap > 0.0
    ensures QuotaHolds(now, Limits(1000000.0, 5000000.0, maxConcurrent), cap, key, Weekly) <==> maxConcurrent == 1
  {
    hide QuotaHolds;
    var lim := Limits(1000000.0, 5000000.0, maxConcurrent);
    QuotaHoldsIffOneAtATimeOrShielded(now, lim, cap, key, Weekly);
    if maxConcurrent > 1 {
      TopIsPositive(lim, cap);
      var b := Bound(1000000.0, maxConcurrent, Top(lim, cap));
      TimesGrow(0, maxConcurrent - 1, Top(lim, cap));
      TimesMonotone(34, 1000000.0, b);
      TimesIsProduct(34, 1000000.0);
    }
  }
}
