/** Admission control with bounded concurrency and a bounded waiting queue
    (engine/inference/scheduler.py).

    `asyncio.Semaphore` is taken as specified: permits are handed to waiters in
    order of arrival, a waiter that was handed a permit takes it when its task
    resumes, and one that is cancelled or times out first gives it back. An
    event is the code of one task between two suspension points. */
module Scheduler {
  /** Free permits, waiters that were handed one, and waiters that were not. */
  datatype Semaphore = Semaphore(free: nat, handed: set<nat>, queued: seq<nat>)

  /** Counters of `admit` calls by how they ended (`lost` were cancelled while
      waiting), and of leases released as cancelled. */
  datatype Tally = Tally(calls: nat, admitted: nat, rejected: nat, timedOut: nat, lost: nat, cancelled: nat)

  /** `held` are the leases not yet released, named by their `admit` call. */
  datatype State = State(max: nat, depth: nat, sem: Semaphore, held: set<nat>, inUse: nat, waiters: int,
                         idle: bool, draining: bool, tally: Tally)

  datatype Event =
    | Admit                                    // a call of `admit`, up to its wait
    | Resume(id: nat)                          // a waiter continues with its permit
    | TimeOut(id: nat)
    | CancelWait(id: nat)                      // the waiting task is cancelled
    | Release(id: nat, cancelled: bool)        // `SchedulerLease.release`
    | BeginDrain

  function Init(max: nat, depth: nat): State {
    State(max, depth, Semaphore(max, {}, []), {}, 0, 0, true, false, Tally(0, 0, 0, 0, 0, 0))
  }

  predicate Locked(sem: Semaphore) { sem.free == 0 || sem.handed != {} || sem.queued != [] }

  /** `Semaphore.release`: hand the permit to the first waiter without one. */
  function Post(sem: Semaphore): Semaphore {
    if sem.queued == [] then sem.(free := sem.free + 1)
    else sem.(handed := sem.handed + {sem.queued[0]}, queued := sem.queued[1..])
  }

  /** The wake-up loop at the end of `Semaphore.acquire`: a permit that became
      free while a handed-over waiter had not resumed is passed on now. */
  function Wake(sem: Semaphore): Semaphore
    decreases |sem.queued|
  {
    if sem.free > 0 && sem.queued != [] then
      Wake(Semaphore(sem.free - 1, sem.handed + {sem.queued[0]}, sem.queued[1..]))
    else sem
  }

  function Without(q: seq<nat>, id: nat): seq<nat> {
    if q == [] then [] else if q[0] == id then q[1..] else [q[0]] + Without(q[1..], id)
  }

  predicate Waiting(s: State, id: nat) { id in s.sem.handed || id in s.sem.queued }

  /** A waiter leaves the queue without a lease, giving back a permit it was handed. */
  function Leave(sem: Semaphore, id: nat): Semaphore {
    if id in sem.handed then Wake(sem.(free := sem.free + 1, handed := sem.handed - {id}))
    else Wake(sem.(queued := Without(sem.queued, id)))
  }

  /** The end of `admit`: the caller now holds a lease. */
  function Enter(s: State, id: nat): State {
    s.(held := s.held + {id}, inUse := s.inUse + 1, idle := false,
       tally := s.tally.(admitted := s.tally.admitted + 1))
  }

  function AdmitStep(s: State): State {
    var id := s.tally.calls;
    var t := s.(tally := s.tally.(calls := id + 1));
    if s.draining || (Locked(s.sem) && s.waiters >= s.depth) then
      t.(tally := t.tally.(rejected := t.tally.rejected + 1))
    else if Locked(s.sem) then
      t.(waiters := t.waiters + 1, sem := t.sem.(queued := t.sem.queued + [id]))
    else
      Enter(t.(sem := t.sem.(free := t.sem.free - 1)), id)
  }

  function ReleaseStep(s: State, id: nat, cancelled: bool): State {
    var n := if s.inUse > 0 then s.inUse - 1 else s.inUse;
    s.(held := s.held - {id}, inUse := n, idle := s.idle || n == 0, sem := Post(s.sem),
       tally := if cancelled then s.tally.(cancelled := s.tally.cancelled + 1) else s.tally)
  }

  function Next(s: State, e: Event): State {
    match e
    case Admit => AdmitStep(s)
    case Resume(id) =>
      if id in s.sem.handed then
        Enter(s.(sem := Wake(s.sem.(handed := s.sem.handed - {id})), waiters := s.waiters - 1), id)
      else s
    case TimeOut(id) =>
      if Waiting(s, id) then
        s.(sem := Leave(s.sem, id), waiters := s.waiters - 1, tally := s.tally.(timedOut := s.tally.timedOut + 1))
      else s
    case CancelWait(id) =>
      if Waiting(s, id) then
        s.(sem := Leave(s.sem, id), waiters := s.waiters - 1, tally := s.tally.(lost := s.tally.lost + 1))
      else s
    case Release(id, cancelled) => if id in s.held then ReleaseStep(s, id, cancelled) else s
    case BeginDrain => s.(draining := true)
  }

  function Run(s: State, events: seq<Event>): State {
    if events == [] then s else Next(Run(s, events[..|events| - 1]), events[|events| - 1])
  }

  // -------------------------------------------------------------- invariant

  predicate Distinct(q: seq<nat>) { forall i, j | 0 <= i < j < |q| :: q[i] != q[j] }

  /** The waiters of a semaphore are named once each, below `bound`, outside `held`. */
  predicate WellQueued(sem: Semaphore, held: set<nat>, bound: nat) {
    && Distinct(sem.queued)
    && (forall i | 0 <= i < |sem.queued| :: sem.queued[i] !in sem.handed && sem.queued[i] !in held
          && sem.queued[i] < bound)
    && (forall id | id in sem.handed :: id !in held && id < bound)
  }

  /** Every permit is free, handed over, or in use; and a waiter without a
      permit while one is free is behind one that was handed its permit. */
  predicate Permits(s: State) {
    && s.sem.free + |s.sem.handed| + s.inUse == s.max
    && s.inUse == |s.held|
    && (s.sem.free > 0 && s.sem.queued != [] ==> s.sem.handed != {})
    && s.waiters == |s.sem.handed| + |s.sem.queued| <= s.depth
    && (s.idle <==> s.inUse == 0)
  }

  /** Every `admit` call is in exactly one place. */
  predicate Calls(s: State) {
    && WellQueued(s.sem, s.held, s.tally.calls)
    && (forall id | id in s.held :: id < s.tally.calls)
    && s.tally.calls == s.tally.admitted + s.tally.rejected + s.tally.timedOut + s.tally.lost + s.waiters
  }

  predicate Inv(s: State) { Permits(s) && Calls(s) }

  lemma {:induction false} WithoutNames(q: seq<nat>, id: nat, x: nat)
    requires Distinct(q)
    ensures x in Without(q, id) <==> x in q && x != id
    decreases |q|
  {
    if q != [] && q[0] != id { WithoutNames(q[1..], id, x); }
  }

  lemma {:induction false} WithoutSize(q: seq<nat>, id: nat)
    ensures |Without(q, id)| == |q| - (if id in q then 1 else 0)
    decreases |q|
  {
    if q != [] && q[0] != id { WithoutSize(q[1..], id); }
  }

  lemma {:induction false} WithoutDistinct(q: seq<nat>, id: nat)
    requires Distinct(q)
    ensures Distinct(Without(q, id))
    decreases |q|
  {
    if q != [] && q[0] != id {
      var rest := Without(q[1..], id);
      WithoutDistinct(q[1..], id);
      forall i | 0 <= i < |rest| ensures rest[i] != q[0] { WithoutNames(q[1..], id, rest[i]); }
    }
  }

  lemma WithoutOne(q: seq<nat>, id: nat)
    requires Distinct(q)
    ensures var r := Without(q, id);
            && Distinct(r) && |r| == |q| - (if id in q then 1 else 0)
            && forall i | 0 <= i < |r| :: r[i] in q && r[i] != id
  {
    hide Without, Distinct;
    WithoutSize(q, id);
    WithoutDistinct(q, id);
    var r := Without(q, id);
    forall i | 0 <= i < |r| ensures r[i] in q && r[i] != id { WithoutNames(q, id, r[i]); }
  }

  /** Waking moves waiters from the queue to the handed-over set, one permit
      each, and stops when either runs out. */
  lemma {:induction false} WakeConserves(sem: Semaphore, held: set<nat>, bound: nat)
    requires WellQueued(sem, held, bound)
    ensures var w := Wake(sem);
            && WellQueued(w, held, bound)
            && w.free + |w.handed| == sem.free + |sem.handed|
            && |w.handed| + |w.queued| == |sem.handed| + |sem.queued|
            && (w.free == 0 || w.queued == [])
    decreases |sem.queued|
  {
    if sem.free > 0 && sem.queued != [] {
      WakeConserves(Semaphore(sem.free - 1, sem.handed + {sem.queued[0]}, sem.queued[1..]), held, bound);
    }
  }

  lemma EnqueueKeeps(sem: Semaphore, held: set<nat>, id: nat)
    requires WellQueued(sem, held, id) && id !in held && id !in sem.handed
    ensures WellQueued(sem.(queued := sem.queued + [id]), held, id + 1)
  {
  }

  lemma AdmitKeeps(s: State)
    requires Inv(s)
    ensures Inv(AdmitStep(s))
  {
    assert s.tally.calls !in s.held && s.tally.calls !in s.sem.handed;
    EnqueueKeeps(s.sem, s.held, s.tally.calls);
    assert WellQueued(s.sem, s.held, s.tally.calls + 1)
        && WellQueued(s.sem, s.held + {s.tally.calls}, s.tally.calls + 1);
    hide WellQueued;
  }

  lemma ResumeKeeps(s: State, id: nat)
    requires Inv(s) && id in s.sem.handed
    ensures Inv(Next(s, Resume(id)))
  {
    WakeConserves(s.sem.(handed := s.sem.handed - {id}), s.held + {id}, s.tally.calls);
  }

  lemma LeaveKeeps(s: State, id: nat)
    requires Inv(s) && Waiting(s, id)
    ensures var w := Leave(s.sem, id);
            && WellQueued(w, s.held, s.tally.calls)
            && w.free + |w.handed| == s.sem.free + |s.sem.handed|
            && |w.handed| + |w.queued| == s.waiters - 1
            && (w.free == 0 || w.queued == [])
  {
    if id in s.sem.handed {
      WakeConserves(s.sem.(free := s.sem.free + 1, handed := s.sem.handed - {id}), s.held, s.tally.calls);
    } else {
      WithoutOne(s.sem.queued, id);
      WakeConserves(s.sem.(queued := Without(s.sem.queued, id)), s.held, s.tally.calls);
    }
  }

  lemma ReleaseKeeps(s: State, id: nat, cancelled: bool)
    requires Inv(s) && id in s.held
    ensures Inv(ReleaseStep(s, id, cancelled))
  {
  }

  lemma NextKeeps(s: State, e: Event)
    requires Inv(s)
    ensures Inv(Next(s, e)) && Next(s, e).max == s.max && Next(s, e).depth == s.depth
  {
    match e {
      case Admit => AdmitKeeps(s);
      case Resume(id) => if id in s.sem.handed { ResumeKeeps(s, id); }
      case TimeOut(id) => if Waiting(s, id) { LeaveKeeps(s, id); }
      case CancelWait(id) => if Waiting(s, id) { LeaveKeeps(s, id); }
      case Release(id, c) => if id in s.held { ReleaseKeeps(s, id, c); }
      case BeginDrain =>
    }
  }

  lemma {:induction false} RunKeeps(s: State, events: seq<Event>)
    requires Inv(s)
    ensures Inv(Run(s, events)) && Run(s, events).max == s.max && Run(s, events).depth == s.depth
    decreases |events|
  {
    if events != [] {
      RunKeeps(s, events[..|events| - 1]);
      NextKeeps(Run(s, events[..|events| - 1]), events[|events| - 1]);
    }
  }

  // ------------------------------------------------------------ main results

  /** In every run: permits are conserved, waiters stay within the queue depth,
      a permit is idle while someone waits without one only until a waiter that
      was handed its permit resumes, `idle` is set exactly when nothing is in
      use, and every `admit` call is counted exactly once. */
  lemma AdmissionIsConserved(max: nat, depth: nat, events: seq<Event>)
    ensures var s := Run(Init(max, depth), events);
            && s.sem.free + |s.sem.handed| + s.inUse == max
            && 0 <= s.waiters <= depth
            && (s.sem.free > 0 && s.sem.queued != [] ==> s.sem.handed != {})
            && (s.idle <==> s.inUse == 0)
            && s.tally.calls == s.tally.admitted + s.tally.rejected + s.tally.timedOut + s.tally.lost + s.waiters
  {
    RunKeeps(Init(max, depth), events);
  }

  /** Nothing lets a request in at once: every permit is in use, or someone waits. */
  predicate Busy(s: State) { s.inUse == s.max || s.waiters > 0 }

  /** What becomes of a call of `admit`, exactly: it holds a permit at once unless
      the scheduler drains or is busy; it waits, behind everyone else, if the
      scheduler is busy and the queue has room; otherwise it is refused. Nobody
      else is affected. */
  lemma AdmissionIsExact(s: State)
    requires Inv(s)
    ensures var id, t := s.tally.calls, Next(s, Admit);
            && t.held == (if !s.draining && !Busy(s) then s.held + {id} else s.held)
            && t.sem.queued == (if !s.draining && Busy(s) && s.waiters < s.depth then s.sem.queued + [id]
                                else s.sem.queued)
            && t.sem.handed == s.sem.handed && id !in s.held && id !in s.sem.queued
            && (t.tally.rejected == s.tally.rejected + 1 <==> s.draining || (Busy(s) && s.waiters == s.depth))
  {
    assert s.sem.handed != {} ==> |s.sem.handed| > 0;
  }

  /** Calls are numbered as they arrive: whoever holds a permit or was handed one
      arrived before everyone who still waits for one, who wait in order. */
  predicate InOrder(sem: Semaphore, held: set<nat>) {
    && (forall i, j | 0 <= i < j < |sem.queued| :: sem.queued[i] < sem.queued[j])
    && (forall x, i | x in sem.handed && 0 <= i < |sem.queued| :: x < sem.queued[i])
    && (forall x, i | x in held && 0 <= i < |sem.queued| :: x < sem.queued[i])
  }

  lemma {:induction false} WakeInOrder(sem: Semaphore, held: set<nat>)
    requires InOrder(sem, held)
    ensures InOrder(Wake(sem), held)
    decreases |sem.queued|
  {
    if sem.free > 0 && sem.queued != [] {
      WakeInOrder(Semaphore(sem.free - 1, sem.handed + {sem.queued[0]}, sem.queued[1..]), held);
    }
  }

  lemma {:induction false} WithoutInOrder(q: seq<nat>, id: nat)
    requires forall i, j | 0 <= i < j < |q| :: q[i] < q[j]
    ensures forall i, j | 0 <= i < j < |Without(q, id)| :: Without(q, id)[i] < Without(q, id)[j]
    ensures forall i | 0 <= i < |Without(q, id)| :: Without(q, id)[i] in q
    decreases |q|
  {
    forall i | 0 <= i < |Without(q, id)| ensures Without(q, id)[i] in q { WithoutNames(q, id, Without(q, id)[i]); }
    if q != [] && q[0] != id {
      WithoutInOrder(q[1..], id);
      var rest := Without(q[1..], id);
      forall i | 0 <= i < |rest| ensures q[0] < rest[i] { WithoutNames(q[1..], id, rest[i]); }
      assert Without(q, id) == [q[0]] + rest;
    }
  }

  lemma NextInOrder(s: State, e: Event)
    requires Inv(s) && InOrder(s.sem, s.held)
    ensures InOrder(Next(s, e).sem, Next(s, e).held)
  {
    hide Inv, Leave, Wake, Post, InOrder, AdmitStep;
    match e {
      case Admit => AdmitInOrder(s);
      case Resume(id) => if id in s.sem.handed { ResumeInOrder(s.sem, s.held, id); }
      case TimeOut(id) => LeaveInOrder(s.sem, s.held, id);
      case CancelWait(id) => LeaveInOrder(s.sem, s.held, id);
      case Release(id, _) => PostInOrder(s.sem, s.held, id);
      case BeginDrain =>
    }
  }

  lemma AdmitInOrder(s: State)
    requires Inv(s) && InOrder(s.sem, s.held)
    ensures InOrder(AdmitStep(s).sem, AdmitStep(s).held)
  {
    AdmissionIsExact(s);
    assert forall x | x in s.held || x in s.sem.handed :: x < s.tally.calls;
    assert forall i | 0 <= i < |s.sem.queued| :: s.sem.queued[i] < s.tally.calls;
    assert !s.draining && !Busy(s) ==> s.sem.queued == [];
    hide Inv, AdmitStep;
  }

  lemma ResumeInOrder(sem: Semaphore, held: set<nat>, id: nat)
    requires InOrder(sem, held) && id in sem.handed
    ensures InOrder(Wake(sem.(handed := sem.handed - {id})), held + {id})
  {
    hide Wake;
    WakeInOrder(sem.(handed := sem.handed - {id}), held + {id});
  }

  lemma PostInOrder(sem: Semaphore, held: set<nat>, id: nat)
    requires InOrder(sem, held)
    ensures InOrder(Post(sem), held - {id})
  {
  }

  lemma LeaveInOrder(sem: Semaphore, held: set<nat>, id: nat)
    requires InOrder(sem, held)
    ensures InOrder(Leave(sem, id), held)
  {
    if id in sem.handed {
      WakeInOrder(sem.(free := sem.free + 1, handed := sem.handed - {id}), held);
    } else {
      WithoutInOrder(sem.queued, id);
      assert InOrder(sem.(queued := Without(sem.queued, id)), held);
      WakeInOrder(sem.(queued := Without(sem.queued, id)), held);
    }
  }

  /** Nobody is overtaken: in every run, everyone who holds a permit or was handed
      one called `admit` before everyone who still waits for one. */
  lemma {:induction false} NobodyIsOvertaken(max: nat, depth: nat, events: seq<Event>)
    ensures var s := Run(Init(max, depth), events);
            && InOrder(s.sem, s.held)
            && forall x, y | (x in s.held || x in s.sem.handed) && y in s.sem.queued :: x < y
    decreases |events|
  {
    hide Next;
    if events != [] {
      var front := events[..|events| - 1];
      NobodyIsOvertaken(max, depth, front);
      RunKeeps(Init(max, depth), front);
      NextInOrder(Run(Init(max, depth), front), events[|events| - 1]);
    }
  }

  /** A permit given back goes to the one who has waited longest, if anyone waits
      without one. */
  lemma ReleasedPermitIsHandedOn(s: State, id: nat, cancelled: bool, x: nat)
    requires Inv(s) && InOrder(s.sem, s.held) && id in s.held
    ensures var t := Next(s, Release(id, cancelled));
            && t.held == s.held - {id} && t.inUse == s.inUse - 1
            && (x in s.sem.queued && (forall y | y in s.sem.queued :: x <= y) ==>
                  x in t.sem.handed && t.sem.free == s.sem.free && |t.sem.queued| == |s.sem.queued| - 1)
            && (s.sem.queued == [] ==> t.sem == s.sem.(free := s.sem.free + 1))
  {
    if s.sem.queued != [] && x in s.sem.queued && forall y | y in s.sem.queued :: x <= y {
      assert s.sem.queued[0] in s.sem.queued && x == s.sem.queued[0];
    }
  }

  /** Each way for a wait or a lease to end is counted under its own name, and
      ends that wait or lease and no other. */
  lemma EndingIsExact(s: State, e: Event, x: nat)
    requires Inv(s) && !e.Admit?
    ensures var t := Next(s, e);
            var waited := (e.TimeOut? || e.CancelWait?) && (e.id in s.sem.handed || e.id in s.sem.queued);
            var resumed := e.Resume? && e.id in s.sem.handed;
            var released := e.Release? && e.id in s.held;
            && (Waiting(t, x) <==> Waiting(s, x) && !((waited || resumed) && x == e.id))
            && (x in t.held <==> (x in s.held && !(released && x == e.id)) || (resumed && x == e.id))
            && t.tally.timedOut == s.tally.timedOut + (if waited && e.TimeOut? then 1 else 0)
            && t.tally.lost == s.tally.lost + (if waited && e.CancelWait? then 1 else 0)
            && t.tally.admitted == s.tally.admitted + (if resumed then 1 else 0)
            && t.tally.cancelled == s.tally.cancelled + (if released && e.cancelled then 1 else 0)
            && t.tally.rejected == s.tally.rejected && t.tally.calls == s.tally.calls
            && t.draining == (s.draining || e.BeginDrain?)
  {
    hide Inv;
    match e {
      case Resume(id) => if id in s.sem.handed { ResumeNames(s, id, x); }
      case TimeOut(id) => if Waiting(s, id) { LeaveNames(s, id, x); }
      case CancelWait(id) => if Waiting(s, id) { LeaveNames(s, id, x); }
      case Release(id, c) => if id in s.held { ReleaseNames(s, id, c, x); }
      case _ =>
    }
    hide Leave, Wake;
  }

  /** Once draining with nobody waiting, the number in use never rises again. */
  lemma {:induction false} DrainNeverRises(s: State, events: seq<Event>)
    requires Inv(s) && s.draining && s.waiters == 0
    ensures var t := Run(s, events); t.draining && t.waiters == 0 && t.inUse <= s.inUse
    decreases |events|
  {
    if events != [] {
      var front := events[..|events| - 1];
      DrainNeverRises(s, front);
      RunKeeps(s, front);
      DrainStep(Run(s, front), events[|events| - 1]);
    }
  }

  lemma DrainStep(s: State, e: Event)
    requires Inv(s) && s.draining && s.waiters == 0
    ensures Next(s, e).draining && Next(s, e).waiters == 0 && Next(s, e).inUse <= s.inUse
  {
  }

  /** `begin_drain` leaves queued requests in place, so "drained" is final
      exactly when nobody was waiting: with a waiter queued, an idle draining
      scheduler can still become busy. */
  lemma DrainedIsFinalIffQueueEmpty(s: State)
    requires Inv(s) && s.max >= 1 && s.draining && s.inUse == 0
    ensures (forall events: seq<Event> :: Run(s, events).inUse == 0) <==> s.waiters == 0
  {
    if s.waiters == 0 {
      forall events: seq<Event> ensures Run(s, events).inUse == 0 { DrainNeverRises(s, events); }
    } else {
      assert s.sem.handed != {};
      var id :| id in s.sem.handed;
      assert Run(s, [Resume(id)]) == Next(Run(s, []), Resume(id));
      assert Run(s, [Resume(id)]).inUse == 1;
    }
  }

  /** Such a state is reachable: one request running, one queued, then drain. */
  lemma DrainedCanBecomeBusyAgain()
    ensures exists before: seq<Event> ::
              var s := Run(Init(1, 1), before); s.draining && s.inUse == 0 && s.idle && s.waiters == 1
  {
    var es := [Admit, Admit, BeginDrain, Release(0, false)];
    var s0 := Init(1, 1);
    RunSnoc(s0, [], Admit);
    RunSnoc(s0, [Admit], Admit);
    RunSnoc(s0, [Admit, Admit], BeginDrain);
    RunSnoc(s0, [Admit, Admit, BeginDrain], Release(0, false));
    assert [Admit] == [] + [Admit] && [Admit, Admit] == [Admit] + [Admit];
    assert es == [Admit, Admit, BeginDrain] + [Release(0, false)];
    assert [Admit, Admit, BeginDrain] == [Admit, Admit] + [BeginDrain];
    var s2 := Run(s0, [Admit, Admit]);
    assert s2.sem.queued == [1] && s2.held == {0} && s2.inUse == 1;
    var s := Run(s0, es);
    assert s.draining && s.inUse == 0 && s.idle && s.waiters == 1;
  }

  lemma RunSnoc(s: State, events: seq<Event>, e: Event)
    ensures Run(s, events + [e]) == Next(Run(s, events), e)
  {
    assert (events + [e])[..|events|] == events;
  }

  // -------------------------------------------------------------- the object

  datatype Ticket = Admitted(id: nat) | Queued(id: nat) | Saturated

  /** The scheduler's fields; each method is one event. */
  class AdmissionControl {
    const maxConcurrency: nat
    const maxQueueDepth: nat
    var sem: Semaphore
    var held: set<nat>
    var inUse: nat
    var waiters: int
    var idle: bool
    var draining: bool
    var tally: Tally

    function View(): State
      reads this
    {
      State(maxConcurrency, maxQueueDepth, sem, held, inUse, waiters, idle, draining, tally)
    }

    constructor (maxConcurrency: nat, maxQueueDepth: nat)
      requires maxConcurrency >= 1
      ensures View() == Init(maxConcurrency, maxQueueDepth)
    {
      this.maxConcurrency, this.maxQueueDepth := maxConcurrency, maxQueueDepth;
      sem := Semaphore(maxConcurrency, {}, []);
      held, inUse, waiters, idle, draining := {}, 0, 0, true, false;
      tally := Tally(0, 0, 0, 0, 0, 0);
    }

    /** Refused exactly while draining, or when every permit is spoken for and
        the queue is full. */
    method Admit() returns (r: Ticket)
      requires Inv(View())
      modifies this
      ensures View() == Next(old(View()), Event.Admit) && Inv(View())
      ensures r.Saturated? <==> old(draining) || (Locked(old(sem)) && old(waiters) == maxQueueDepth)
      ensures r.Admitted? ==> r.id in held && r.id !in old(held)
      ensures r.Queued? ==> r.id in sem.queued && !Waiting(old(View()), r.id)
      ensures !r.Saturated? ==> r.id == old(tally.calls)
      ensures var id := old(tally.calls); r.Admitted? == (id in held) && r.Queued? == (id in sem.queued)
    {
      AdmitKeeps(View());
      assert !Waiting(View(), tally.calls) && tally.calls !in held && waiters <= maxQueueDepth;
      hide Inv;
      var id := tally.calls;
      tally := tally.(calls := id + 1);
      if draining {
        tally := tally.(rejected := tally.rejected + 1);
        return Saturated;
      }
      var mustQueue := Locked(sem);
      if mustQueue && waiters >= maxQueueDepth {
        tally := tally.(rejected := tally.rejected + 1);
        return Saturated;
      }
      if mustQueue {
        waiters := waiters + 1;
        sem := sem.(queued := sem.queued + [id]);
        return Queued(id);
      }
      sem := sem.(free := sem.free - 1);
      held, inUse, idle := held + {id}, inUse + 1, false;
      tally := tally.(admitted := tally.admitted + 1);
      r := Admitted(id);
    }

    method ResumeWaiter(id: nat)
      requires Inv(View()) && id in sem.handed
      modifies this
      ensures View() == Next(old(View()), Resume(id)) && Inv(View()) && id in held
    {
      ResumeKeeps(View(), id);
      sem := Wake(sem.(handed := sem.handed - {id}));
      waiters := waiters - 1;
      held, inUse, idle := held + {id}, inUse + 1, false;
      tally := tally.(admitted := tally.admitted + 1);
    }

    /** A waiter leaves: its wait timed out, or its task was cancelled. */
    method AbandonWait(id: nat, timedOut: bool)
      requires Inv(View()) && Waiting(View(), id)
      modifies this
      ensures View() == Next(old(View()), if timedOut then TimeOut(id) else CancelWait(id)) && Inv(View())
      ensures held == old(held) && !Waiting(View(), id)
    {
      NextKeeps(View(), if timedOut then TimeOut(id) else CancelWait(id));
      LeaveNames(View(), id, id);
      sem := Leave(sem, id);
      waiters := waiters - 1;
      if timedOut {
        tally := tally.(timedOut := tally.timedOut + 1);
      } else {
        tally := tally.(lost := tally.lost + 1);
      }
    }

    /** Releasing a lease again does nothing. */
    method ReleaseLease(id: nat, cancelled: bool)
      requires Inv(View())
      modifies this
      ensures View() == Next(old(View()), Release(id, cancelled)) && Inv(View())
      ensures id !in held && inUse == old(inUse) - (if id in old(held) then 1 else 0)
    {
      NextKeeps(View(), Release(id, cancelled));
      assert id in held ==> inUse > 0;
      hide Inv;
      if id !in held { return; }
      held := held - {id};
      if inUse > 0 { inUse := inUse - 1; }
      if cancelled { tally := tally.(cancelled := tally.cancelled + 1); }
      if inUse == 0 { idle := true; }
      sem := Post(sem);
    }

    method Drain()
      requires Inv(View())
      modifies this`draining
      ensures View() == Next(old(View()), BeginDrain) && Inv(View())
    {
      draining := true;
    }
  }

  // ------------------------------------------------- who waits after a step

  lemma {:induction false} WakeKeepsNames(sem: Semaphore, x: nat)
    ensures (x in Wake(sem).handed || x in Wake(sem).queued) <==> (x in sem.handed || x in sem.queued)
    decreases |sem.queued|
  {
    if sem.free > 0 && sem.queued != [] {
      WakeKeepsNames(Semaphore(sem.free - 1, sem.handed + {sem.queued[0]}, sem.queued[1..]), x);
    }
  }

  lemma LeaveNames(s: State, id: nat, x: nat)
    requires Inv(s) && Waiting(s, id)
    ensures (x in Leave(s.sem, id).handed || x in Leave(s.sem, id).queued) <==> Waiting(s, x) && x != id
  {
    if id in s.sem.handed {
      assert forall i | 0 <= i < |s.sem.queued| :: s.sem.queued[i] != id;
      WakeKeepsNames(s.sem.(free := s.sem.free + 1, handed := s.sem.handed - {id}), x);
    } else {
      WithoutNames(s.sem.queued, id, x);
      WakeKeepsNames(s.sem.(queued := Without(s.sem.queued, id)), x);
    }
  }

  lemma ResumeNames(s: State, id: nat, x: nat)
    requires Inv(s) && id in s.sem.handed
    ensures Waiting(Next(s, Resume(id)), x) <==> Waiting(s, x) && x != id
  {
    assert forall i | 0 <= i < |s.sem.queued| :: s.sem.queued[i] != id;
    WakeKeepsNames(s.sem.(handed := s.sem.handed - {id}), x);
  }

  /** Releasing a lease ends that lease and nobody's wait. */
  lemma ReleaseNames(s: State, id: nat, cancelled: bool, x: nat)
    ensures var t := Next(s, Release(id, cancelled)); t.held == s.held - {id} && (Waiting(t, x) <==> Waiting(s, x))
  {
    if s.sem.queued != [] { assert x in s.sem.queued <==> x == s.sem.queued[0] || x in s.sem.queued[1..]; }
  }
}
