/** Engine-wide request counters and the rolling requests-per-minute figure
    (engine/telemetry/counters.py). Each method runs under the lock. */
module Counters {
  const WINDOW := 60.0

  /** `_trim`: drop starts from the front while they are before `cutoff`. */
  function Trimmed(starts: seq<real>, cutoff: real): seq<real> {
    if starts != [] && starts[0] < cutoff then Trimmed(starts[1..], cutoff) else starts
  }

  /** The starts at or after `cutoff`, wherever they stand. */
  function From(starts: seq<real>, cutoff: real): seq<real> {
    if starts == [] then []
    else (if starts[0] < cutoff then [] else [starts[0]]) + From(starts[1..], cutoff)
  }

  predicate Ascending(starts: seq<real>) { forall i, j | 0 <= i < j < |starts| :: starts[i] <= starts[j] }

  /** No old start stands behind a recent one. */
  predicate FrontLoaded(starts: seq<real>, cutoff: real) {
    forall i, j | 0 <= i < j < |starts| && starts[i] >= cutoff :: starts[j] >= cutoff
  }

  lemma FrontLoadedTail(starts: seq<real>, cutoff: real)
    requires starts != [] && starts[0] < cutoff
    ensures FrontLoaded(starts, cutoff) <==> FrontLoaded(starts[1..], cutoff)
  {
    var rest := starts[1..];
    if FrontLoaded(rest, cutoff) {
      forall i, j | 0 <= i < j < |starts| && starts[i] >= cutoff ensures starts[j] >= cutoff {
        assert rest[i - 1] == starts[i] && rest[j - 1] == starts[j];
      }
    }
    if FrontLoaded(starts, cutoff) {
      forall i, j | 0 <= i < j < |rest| && rest[i] >= cutoff ensures rest[j] >= cutoff {
        assert starts[i + 1] == rest[i] && starts[j + 1] == rest[j];
      }
    }
  }

  /** Trimming the front leaves exactly the recent starts if and only if no old
      start stands behind a recent one. */
  lemma {:induction false} TrimIsExactIffFrontLoaded(starts: seq<real>, cutoff: real)
    ensures Trimmed(starts, cutoff) == From(starts, cutoff) <==> FrontLoaded(starts, cutoff)
    decreases |starts|
  {
    if starts == [] {
    } else if starts[0] < cutoff {
      TrimIsExactIffFrontLoaded(starts[1..], cutoff);
      FrontLoadedTail(starts, cutoff);
      hide FrontLoaded;
      assert From(starts, cutoff) == From(starts[1..], cutoff);
    } else {
      FromIsAllIffNoneOld(starts, cutoff);
      assert FrontLoaded(starts, cutoff) <==> forall i | 0 <= i < |starts| :: starts[i] >= cutoff;
    }
  }

  lemma {:induction false} FromIsAllIffNoneOld(starts: seq<real>, cutoff: real)
    ensures |From(starts, cutoff)| <= |starts|
    ensures From(starts, cutoff) == starts <==> forall i | 0 <= i < |starts| :: starts[i] >= cutoff
    decreases |starts|
  {
    if starts != [] {
      FromIsAllIffNoneOld(starts[1..], cutoff);
      if From(starts, cutoff) == starts {
        assert From(starts[1..], cutoff) == starts[1..];
        forall i | 0 <= i < |starts| ensures starts[i] >= cutoff {
          if i > 0 { assert starts[i] == starts[1..][i - 1]; }
        }
      }
    }
  }

  /** Raising the cutoff in steps is raising it at once. */
  lemma {:induction false} FromComposes(starts: seq<real>, low: real, high: real)
    requires low <= high
    ensures From(From(starts, low), high) == From(starts, high)
    decreases |starts|
  {
    if starts != [] {
      FromComposes(starts[1..], low, high);
      var rest := From(starts[1..], low);
      if starts[0] < low {
        assert From(starts, low) == rest;
        assert From(starts, high) == From(starts[1..], high);
      } else {
        assert From(starts, low)[1..] == rest;
      }
    }
  }

  lemma {:induction false} FromAppends(starts: seq<real>, t: real, cutoff: real)
    ensures From(starts + [t], cutoff) == From(starts, cutoff) + (if t < cutoff then [] else [t])
    decreases |starts|
  {
    if starts != [] {
      FromAppends(starts[1..], t, cutoff);
      assert (starts + [t])[1..] == starts[1..] + [t];
    }
  }

  lemma {:induction false} FromAscends(starts: seq<real>, cutoff: real)
    requires Ascending(starts)
    ensures Ascending(From(starts, cutoff)) && forall x | x in From(starts, cutoff) :: x in starts && x >= cutoff
    decreases |starts|
  {
    if starts != [] {
      FromAscends(starts[1..], cutoff);
      var rest := From(starts[1..], cutoff);
      forall i | 0 <= i < |rest| ensures starts[0] <= rest[i] { assert rest[i] in rest && rest[i] in starts[1..]; }
    }
  }

  /** A start or a snapshot at a given time. */
  datatype Event = Start(t: real) | Snapshot(t: real)

  /** What the deque holds, and every start there ever was. */
  datatype State = State(recent: seq<real>, all: seq<real>)

  function Next(s: State, e: Event): State {
    match e
    case Start(t) => State(Trimmed(s.recent + [t], t - WINDOW), s.all + [t])
    case Snapshot(t) => s.(recent := Trimmed(s.recent, t - WINDOW))
  }

  function Run(events: seq<Event>): State {
    if events == [] then State([], []) else Next(Run(events[..|events| - 1]), events[|events| - 1])
  }

  predicate ClockAdvances(events: seq<Event>) { forall i, j | 0 <= i < j < |events| :: events[i].t <= events[j].t }

  /** The deque holds the starts from `low` on, and none is after `now`. */
  ghost predicate Exact(s: State, low: real, now: real) {
    s.recent == From(s.all, low) && Ascending(s.all) && forall i | 0 <= i < |s.all| :: s.all[i] <= now
  }

  lemma TrimIsExact(starts: seq<real>, cutoff: real)
    requires Ascending(starts)
    ensures Trimmed(starts, cutoff) == From(starts, cutoff)
  {
    hide Trimmed, From;
    TrimIsExactIffFrontLoaded(starts, cutoff);
  }

  lemma NextIsExact(s: State, e: Event, low: real, now: real)
    requires Exact(s, low, now) && now <= e.t && low <= e.t - WINDOW
    ensures Exact(Next(s, e), e.t - WINDOW, e.t)
  {
    hide From, Trimmed;
    var all := if e.Start? then s.all + [e.t] else s.all;
    var queue := if e.Start? then s.recent + [e.t] else s.recent;
    assert Ascending(all);
    FromAppends(s.all, e.t, low);
    assert queue == From(all, low);
    FromAscends(all, low);
    TrimIsExact(queue, e.t - WINDOW);
    FromComposes(all, low, e.t - WINDOW);
  }

  /** While the clock does not go back, the deque after any event holds exactly
      the starts of the last sixty seconds, out of all there ever were. */
  lemma {:induction false} RateIsExact(events: seq<Event>)
    requires events != [] && ClockAdvances(events)
    ensures var now := events[|events| - 1].t; Exact(Run(events), now - 60.0, now)
    decreases |events|
  {
    var n := |events| - 1;
    var e := events[n];
    if n > 0 {
      RateIsExact(events[..n]);
      NextIsExact(Run(events[..n]), e, events[n - 1].t - WINDOW, events[n - 1].t);
    } else {
      NextIsExact(State([], []), e, e.t - WINDOW, e.t);
    }
  }

  class RequestCounters {
    var total: nat
    var active: nat
    var errors: nat
    var promptTokens: nat
    var completionTokens: nat
    var recent: seq<real>

    constructor ()
      ensures total == active == errors == promptTokens == completionTokens == 0 && recent == []
    {
      total, active, errors, promptTokens, completionTokens, recent := 0, 0, 0, 0, 0, [];
    }

    method Trim(now: real)
      modifies `recent
      ensures recent == Trimmed(old(recent), now - WINDOW)
    {
      var cutoff := now - WINDOW;
      while recent != [] && recent[0] < cutoff
        invariant Trimmed(recent, cutoff) == Trimmed(old(recent), cutoff)
        decreases |recent|
      {
        recent := recent[1..];
      }
    }

    method RequestStarted(now: real)
      modifies `total, `active, `recent
      ensures total == old(total) + 1 && active == old(active) + 1
      ensures recent == Trimmed(old(recent) + [now], now - WINDOW)
    {
      total, active, recent := total + 1, active + 1, recent + [now];
      Trim(now);
    }

    /** The gauge never goes below zero, and negative token counts add nothing. */
    method RequestFinished(prompt: int, completion: int, error: bool)
      modifies `active, `promptTokens, `completionTokens, `errors
      ensures active == if old(active) > 0 then old(active) - 1 else 0
      ensures promptTokens == old(promptTokens) + (if prompt > 0 then prompt else 0)
      ensures completionTokens == old(completionTokens) + (if completion > 0 then completion else 0)
      ensures errors == old(errors) + (if error then 1 else 0)
    {
      if active > 0 { active := active - 1; }
      promptTokens := promptTokens + (if prompt > 0 then prompt else 0);
      completionTokens := completionTokens + (if completion > 0 then completion else 0);
      if error { errors := errors + 1; }
    }
  }
}
