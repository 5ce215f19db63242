/** The in-process event bus: bounded history per channel and bounded
    drop-oldest queues per subscriber (engine/telemetry/events.py). */
module EventBus {
  import opened Basics

  /** `data` is the event's metadata as text. */
  datatype Note = Note(kind: string, data: string, ts: real)

  /** A subscriber's queue, its drop counter, and the flag that wakes its reader. */
  datatype Queue = Queue(items: seq<Note>, dropped: nat, signal: bool)

  /** `offer`; a `max` of zero or less is no limit. */
  function Offered(q: Queue, max: int, event: Note): Queue {
    if max > 0 && |q.items| >= max then Queue(q.items[1..] + [event], q.dropped + 1, true)
    else Queue(q.items + [event], q.dropped, true)
  }

  /** `deque(maxlen=size).append`. */
  function Ringed(ring: seq<Note>, size: nat, event: Note): seq<Note> {
    var all := ring + [event];
    if |all| > size then all[|all| - size..] else all
  }

  // ---------------------------------------------- one channel, one subscriber

  datatype Pc = Idle | Open | Blocked | Closed

  /** Everything published on the channel, and its ring buffer. */
  datatype Channel = Channel(pubs: seq<Note>, ring: seq<Note>, size: nat)

  /** `first` is the index of the first publication replayed, `joined` of the
      first one offered live, `upto` of the first one after the subscription.
      `replay` is the rest of the history copy; `taken` are the indices of what
      was yielded. */
  datatype Reader = Reader(pc: Pc, first: nat, joined: nat, upto: nat, replay: seq<Note>, queue: Queue,
                              taken: seq<nat>, yielded: seq<Note>)

  datatype State = State(channel: Channel, max: int, reader: Reader)

  /** An event is the code of one task between two suspension points. */
  datatype Event =
    | Publish(event: Note)
    | Subscribe(replay: bool)   // register and copy the history
    | Yield                     // hand over the next event, or block when there is none
    | Wake                      // the wait returns because the flag is set
    | Close                     // the generator is closed

  function Init(size: nat, max: int): State {
    State(Channel([], [], size), max, Reader(Idle, 0, 0, 0, [], Queue([], 0, false), [], []))
  }

  predicate Live(r: Reader) { r.pc.Open? || r.pc.Blocked? }

  function PublishStep(s: State, event: Note): State {
    var c, r := s.channel, s.reader;
    State(Channel(c.pubs + [event], Ringed(c.ring, c.size, event), c.size), s.max,
          if Live(r) then r.(queue := Offered(r.queue, s.max, event), upto := r.upto + 1) else r)
  }

  function SubscribeStep(s: State, replay: bool): State {
    var n, ring := |s.channel.pubs|, if replay then s.channel.ring else [];
    s.(reader := Reader(Open, if |ring| <= n then n - |ring| else 0, n, n, ring, Queue([], 0, false), [], []))
  }

  function YieldStep(s: State): State {
    var r := s.reader;
    if r.replay != [] then
      s.(reader := r.(replay := r.replay[1..], yielded := r.yielded + [r.replay[0]],
                      taken := r.taken + [if |r.replay| <= r.joined then r.joined - |r.replay| else 0]))
    else if r.queue.items != [] then
      s.(reader := r.(queue := r.queue.(items := r.queue.items[1..]), yielded := r.yielded + [r.queue.items[0]],
                      taken := r.taken + [if |r.queue.items| <= r.upto then r.upto - |r.queue.items| else 0]))
    else s.(reader := r.(pc := Blocked, queue := r.queue.(signal := false)))
  }

  function Next(s: State, e: Event): State {
    var r := s.reader;
    match e
    case Publish(event) => PublishStep(s, event)
    case Subscribe(replay) => if r.pc.Idle? then SubscribeStep(s, replay) else s
    case Yield => if r.pc.Open? then YieldStep(s) else s
    case Wake => if r.pc.Blocked? && r.queue.signal then s.(reader := r.(pc := Open)) else s
    case Close => if Live(r) then s.(reader := r.(pc := Closed)) else s
  }

  function Run(s: State, events: seq<Event>): State {
    if events == [] then s else Next(Run(s, events[..|events| - 1]), events[|events| - 1])
  }

  // -------------------------------------------------------------- invariant

  /** The ring is the newest `size` publications. */
  predicate RingOk(c: Channel) {
    && |c.ring| == (if |c.pubs| < c.size then |c.pubs| else c.size)
    && forall i | 0 <= i < |c.ring| :: c.ring[i] == c.pubs[|c.pubs| - |c.ring| + i]
  }

  /** `part` is the stretch of `pubs` that ends before index `end`. */
  predicate EndsAt(part: seq<Note>, pubs: seq<Note>, end: int) {
    |part| <= end <= |pubs| && forall i | 0 <= i < |part| :: part[i] == pubs[end - |part| + i]
  }

  /** What is still to be handed over: the rest of the history copy, and the
      last publications offered. */
  predicate Buffered(pubs: seq<Note>, r: Reader) {
    && r.first <= r.joined <= r.upto <= |pubs|
    && |r.replay| <= r.joined - r.first && |r.queue.items| <= r.upto - r.joined
    && EndsAt(r.replay, pubs, r.joined) && EndsAt(r.queue.items, pubs, r.upto)
  }

  /** The index of the next publication to be handed over. */
  function Upcoming(r: Reader): int { if r.replay != [] then r.joined - |r.replay| else r.upto - |r.queue.items| }

  /** What was handed over: publications at increasing indices, below all that
      is still to come; with no gap in the history copy, and none anywhere while
      nothing was dropped. */
  predicate Taken(pubs: seq<Note>, r: Reader) {
    && |r.taken| == |r.yielded|
    && (forall i | 0 <= i < |r.taken| :: r.first <= r.taken[i] < |pubs| && r.yielded[i] == pubs[r.taken[i]])
    && (forall i, j | 0 <= i < j < |r.taken| :: r.taken[i] < r.taken[j])
    && (forall i | 0 <= i < |r.taken| :: r.taken[i] < Upcoming(r))
    && (forall i | 0 <= i < |r.taken| && (i < r.joined - r.first || r.queue.dropped == 0) :: r.taken[i] == r.first + i)
  }

  /** Nothing is counted twice or not at all. */
  predicate Accounted(r: Reader) {
    && |r.taken| + |r.replay| + |r.queue.items| + r.queue.dropped == r.upto - r.first
    && |r.taken| + |r.replay| >= r.joined - r.first
    && (r.replay != [] ==> |r.taken| + |r.replay| == r.joined - r.first)
  }

  predicate Inv(s: State) {
    var r, pubs := s.reader, s.channel.pubs;
    && RingOk(s.channel) && Buffered(pubs, r) && Taken(pubs, r) && Accounted(r)
    && (s.max > 0 ==> |r.queue.items| <= s.max)
    && (s.max <= 0 ==> r.queue.dropped == 0)
    && r.joined - r.first <= s.channel.size
    && (Live(r) ==> r.upto == |pubs|)
    && (r.pc.Blocked? ==> r.replay == [] && (r.queue.items != [] ==> r.queue.signal))
  }

  lemma RingKeeps(c: Channel, event: Note)
    requires RingOk(c)
    ensures RingOk(Channel(c.pubs + [event], Ringed(c.ring, c.size, event), c.size))
  {
  }

  lemma PublishBuffers(s: State, event: Note)
    requires Inv(s)
    ensures Buffered(s.channel.pubs + [event], PublishStep(s, event).reader)
  {
    hide RingOk, Ringed, Taken;
  }

  lemma PublishTakes(s: State, event: Note)
    requires Inv(s)
    ensures Taken(s.channel.pubs + [event], PublishStep(s, event).reader)
  {
    hide RingOk, Ringed, EndsAt;
  }

  lemma PublishKeeps(s: State, event: Note)
    requires Inv(s)
    ensures Inv(PublishStep(s, event))
  {
    RingKeeps(s.channel, event);
    PublishBuffers(s, event);
    PublishTakes(s, event);
    hide RingOk, Ringed, Taken, EndsAt;
  }

  /** Handing over publication `k`, the next one due. */
  lemma HandOver(pubs: seq<Note>, r: Reader, u: Reader, k: nat)
    requires Taken(pubs, r) && r.first <= k == Upcoming(r) < Upcoming(u) && k < |pubs|
    requires u.taken == r.taken + [k] && u.yielded == r.yielded + [pubs[k]]
    requires u.first == r.first && u.joined == r.joined && u.queue.dropped == r.queue.dropped
    requires |r.taken| < r.joined - r.first || r.queue.dropped == 0 ==> k == r.first + |r.taken|
    ensures Taken(pubs, u)
  {
    hide Upcoming;
  }

  lemma YieldTakes(s: State)
    requires Inv(s) && s.reader.pc.Open?
    ensures Taken(s.channel.pubs, YieldStep(s).reader)
  {
    var r, pubs, u := s.reader, s.channel.pubs, YieldStep(s).reader;
    if r.replay != [] {
      assert r.replay[0] == pubs[r.joined - |r.replay|];
      HandOver(pubs, r, u, r.joined - |r.replay|);
    } else if r.queue.items != [] {
      assert r.queue.items[0] == pubs[r.upto - |r.queue.items|];
      HandOver(pubs, r, u, r.upto - |r.queue.items|);
    }
    hide RingOk;
  }

  lemma YieldKeeps(s: State)
    requires Inv(s) && s.reader.pc.Open?
    ensures Inv(YieldStep(s))
  {
    YieldTakes(s);
    hide RingOk, Taken;
  }

  lemma SubscribeKeeps(s: State, replay: bool)
    requires Inv(s)
    ensures Inv(SubscribeStep(s, replay))
  {
  }

  lemma NextKeeps(s: State, e: Event)
    requires Inv(s)
    ensures Inv(Next(s, e))
  {
    match e {
      case Publish(event) => PublishKeeps(s, event);
      case Subscribe(replay) => SubscribeKeeps(s, replay);
      case Yield => if s.reader.pc.Open? { YieldKeeps(s); }
      case _ =>
    }
    hide RingOk, EndsAt, PublishStep, SubscribeStep, YieldStep;
  }

  lemma {:induction false} RunKeeps(size: nat, max: int, events: seq<Event>)
    ensures var s := Run(Init(size, max), events); Inv(s) && s.max == max && s.channel.size == size
    decreases |events|
  {
    if events != [] {
      RunKeeps(size, max, events[..|events| - 1]);
      NextKeeps(Run(Init(size, max), events[..|events| - 1]), events[|events| - 1]);
    }
  }

  // ---------------------------------------------------------------- theorems

  /** A subscriber is handed publications of its channel in order and at most
      once each: the whole history copy first, then what was published since
      except what its queue dropped; the queue is always the newest of those,
      and within its limit. */
  lemma SubscriberAccounts(size: nat, max: int, events: seq<Event>)
    ensures var s := Run(Init(size, max), events); var r, pubs := s.reader, s.channel.pubs;
            && r.first <= r.joined <= r.upto <= |pubs| && r.joined - r.first <= size
            && Taken(pubs, r)
            && EndsAt(r.queue.items, pubs, r.upto) && |r.queue.items| <= r.upto - r.joined
            && (max > 0 ==> |r.queue.items| <= max)
            && |r.yielded| + |r.replay| + |r.queue.items| + r.queue.dropped == r.upto - r.first
  {
    RunKeeps(size, max, events);
  }

  lemma ReplayIsWhole(pubs: seq<Note>, r: Reader)
    requires Buffered(pubs, r) && Taken(pubs, r) && Accounted(r)
    ensures pubs[r.first..r.joined] <= r.yielded + r.replay
    ensures r.queue.dropped == 0 ==> r.yielded + r.replay + r.queue.items == pubs[r.first..r.upto]
  {
    var got := r.yielded + r.replay;
    forall i | 0 <= i < r.joined - r.first ensures got[i] == pubs[r.first + i] { }
    assert pubs[r.first..r.joined] == got[..r.joined - r.first];
    if r.queue.dropped == 0 {
      var all := got + r.queue.items;
      forall i | 0 <= i < |all| ensures all[i] == pubs[r.first + i] { }
    }
  }

  /** The history copy comes whole, and while nothing was dropped what was
      handed over and what waits is one contiguous run of the publications. */
  lemma SubscriberSeesContiguousRun(size: nat, max: int, events: seq<Event>)
    ensures var s := Run(Init(size, max), events); var r, pubs := s.reader, s.channel.pubs;
            && r.first <= r.joined <= r.upto <= |pubs|
            && pubs[r.first..r.joined] <= r.yielded + r.replay
            && (max <= 0 || r.queue.dropped == 0 ==> r.yielded + r.replay + r.queue.items == pubs[r.first..r.upto])
  {
    RunKeeps(size, max, events);
    var s := Run(Init(size, max), events);
    ReplayIsWhole(s.channel.pubs, s.reader);
  }

  /** A reader asleep on an unset flag has been handed, or has had dropped,
      everything published since it joined. */
  lemma SleeperHasNothingQueued(size: nat, max: int, events: seq<Event>)
    ensures var s := Run(Init(size, max), events); var r := s.reader;
            r.pc.Blocked? && !r.queue.signal ==>
              && r.queue.items == [] && r.replay == []
              && |r.yielded| + r.queue.dropped == |s.channel.pubs| - r.first
  {
    RunKeeps(size, max, events);
  }

  // ------------------------------------------------------- what a step hands over

  /** An offer appends the event; only a full queue loses anything, its oldest
      event and no other, and that is counted. */
  lemma OfferLosesOnlyOldest(q: Queue, max: int, event: Note)
    ensures var r, full := Offered(q, max, event), max > 0 && |q.items| >= max;
            && r.items != [] && r.items[|r.items| - 1] == event && r.signal
            && (full ==> [q.items[0]] + r.items == q.items + [event] && r.dropped == q.dropped + 1)
            && (!full ==> r.items == q.items + [event] && r.dropped == q.dropped)
  {
  }

  /** A subscriber that asks for the history gets a copy of the newest `size`
      publications, or of all if there are fewer; one that does not gets none.
      Live events start with the next publication. */
  lemma SubscribeIsExact(size: nat, max: int, events: seq<Event>, replay: bool)
    requires Run(Init(size, max), events).reader.pc.Idle?
    ensures var s := Run(Init(size, max), events); var t := Next(s, Subscribe(replay));
            var n, r := |s.channel.pubs|, t.reader;
            && t.channel == s.channel && r.pc.Open? && r.joined == n && r.yielded == []
            && r.replay == (if !replay then [] else if n <= size then s.channel.pubs else s.channel.pubs[n - size..])
            && r.queue == Queue([], 0, false)
  {
    RunKeeps(size, max, events);
  }

  /** An open subscriber's next turn, exactly: the oldest event of the history
      copy, else the oldest queued, else it clears the flag and blocks. */
  lemma YieldIsExact(s: State)
    requires s.reader.pc.Open?
    ensures var r, t := s.reader, Next(s, Yield);
            var due := r.replay + r.queue.items;
            && t.channel == s.channel && t.reader.queue.dropped == r.queue.dropped
            && (due != [] ==> t.reader.pc.Open? && t.reader.yielded == r.yielded + [due[0]]
                              && [due[0]] + (t.reader.replay + t.reader.queue.items) == due)
            && (due == [] ==> t.reader.pc.Blocked? && !t.reader.queue.signal && t.reader.yielded == r.yielded)
  {
  }

  /** A publication wakes a blocked subscriber and is handed to it; it stays with
      everyone who is open, and a closed subscriber gets no more. */
  lemma PublicationArrives(size: nat, max: int, events: seq<Event>, event: Note)
    ensures var s := Run(Init(size, max), events); var t := Next(s, Publish(event));
            && t.channel.pubs == s.channel.pubs + [event]
            && (Live(s.reader) ==> t.reader.queue == Offered(s.reader.queue, max, event))
            && (!Live(s.reader) ==> t.reader == s.reader)
            && (s.reader.pc.Blocked? && s.reader.queue.items == [] ==>
                  var u := Next(Next(t, Wake), Yield);
                  u.reader.pc.Open? && u.reader.yielded == s.reader.yielded + [event] && u.reader.queue.items == [])
  {
    RunKeeps(size, max, events);
    hide Run, RingOk, Ringed, Taken, EndsAt;
  }

  /** From every reachable state an open subscriber that keeps asking is handed
      all that waits, in order, and then blocks. */
  lemma {:induction false} ReaderCatchesUp(s: State) returns (events: seq<Event>)
    requires s.reader.pc.Open?
    ensures var r, t := s.reader, Run(s, events);
            && t.reader.pc.Blocked? && t.channel == s.channel
            && t.reader.yielded == r.yielded + (r.replay + r.queue.items)
    decreases |s.reader.replay + s.reader.queue.items|
  {
    hide Next;
    var r, t := s.reader, Next(s, Yield);
    var due := r.replay + r.queue.items;
    YieldIsExact(s);
    if due == [] {
      events := [];
      assert Run(t, []) == t;
    } else {
      events := ReaderCatchesUp(t);
      assert r.yielded + [due[0]] + (t.reader.replay + t.reader.queue.items) == r.yielded + due;
    }
    RunCons(s, Yield, events);
    events := [Yield] + events;
  }

  /** A subscriber that closed is offered and handed nothing more, whatever is
      published. */
  lemma {:induction false} ClosedGetsNoMore(s: State, events: seq<Event>)
    requires Live(s.reader)
    ensures Run(Next(s, Close), events).reader == s.reader.(pc := Closed)
    decreases |events|
  {
    if events != [] { ClosedGetsNoMore(s, events[..|events| - 1]); }
  }

  lemma {:induction false} RunCons(s: State, e: Event, events: seq<Event>)
    ensures Run(s, [e] + events) == Run(Next(s, e), events)
    decreases |events|
  {
    hide Next;
    var all := [e] + events;
    if events == [] {
      assert all == [e] && all[..0] == [];
      assert Run(s, all) == Next(Run(s, []), e);
    } else {
      var n := |events| - 1;
      RunCons(s, e, events[..n]);
      assert all[..n + 1] == [e] + events[..n] && all[n + 1] == events[n];
    }
  }

  // ----------------------------------------------------- the mutable objects

  class Subscription {
    const maxsize: int
    var queue: seq<Note>
    var dropped: nat
    var signal: bool

    ghost function Contents(): Queue reads this { Queue(queue, dropped, signal) }

    constructor (maxsize: int)
      ensures Contents() == Queue([], 0, false) && this.maxsize == maxsize
    {
      this.maxsize, queue, dropped, signal := maxsize, [], 0, false;
    }

    method Offer(event: Note)
      modifies this
      ensures Contents() == Offered(old(Contents()), maxsize, event)
    {
      if maxsize > 0 && |queue| >= maxsize {
        queue, dropped := queue[1..], dropped + 1;
      }
      queue := queue + [event];
      signal := true;
    }

    /** One turn of `get`: the oldest queued event, or none and the flag cleared. */
    method Get() returns (event: Option<Note>)
      modifies this
      ensures old(queue) == [] ==> event.None? && Contents() == old(Contents()).(signal := false)
      ensures old(queue) != [] ==>
                event.Some? && [event.value] + queue == old(queue) && dropped == old(dropped) && signal == old(signal)
    {
      if queue == [] {
        signal := false;
        event := None;
      } else {
        event := Some(queue[0]);
        queue := queue[1..];
      }
    }
  }

  /** One bus with the channels named by `C`. */
  class Bus<C(==)> {
    const historySize: nat
    const subscriberQueue: int
    var history: map<C, seq<Note>>
    var subscribers: map<C, set<Subscription>>

    ghost predicate Valid() reads this { history.Keys == subscribers.Keys }

    constructor (channels: set<C>, historySize: nat, subscriberQueue: int)
      ensures Valid() && history == (map c | c in channels :: []) && subscribers.Keys == channels
      ensures this.historySize == historySize && this.subscriberQueue == subscriberQueue
    {
      this.historySize, this.subscriberQueue := historySize, subscriberQueue;
      history := map c | c in channels :: [];
      subscribers := map c | c in channels :: {};
    }

    /** Every subscriber of the channel is offered the event once; nobody else is touched. */
    method Publish(channel: C, event: Note)
      requires Valid() && channel in history
      modifies this`history, subscribers[channel]
      ensures Valid() && subscribers == old(subscribers)
      ensures history == old(history)[channel := Ringed(old(history[channel]), historySize, event)]
      ensures forall s | s in subscribers[channel] :: s.Contents() == Offered(old(s.Contents()), s.maxsize, event)
    {
      history := history[channel := Ringed(history[channel], historySize, event)];
      var todo := subscribers[channel];
      while todo != {}
        invariant todo <= subscribers[channel] && subscribers == old(subscribers)
        invariant history == old(history)[channel := Ringed(old(history[channel]), historySize, event)]
        invariant forall s | s in todo :: s.Contents() == old(s.Contents())
        invariant forall s | s in subscribers[channel] - todo ::
                    s.Contents() == Offered(old(s.Contents()), s.maxsize, event)
        decreases |todo|
      {
        var s :| s in todo;
        s.Offer(event);
        todo := todo - {s};
      }
    }

    /** Register a fresh queue and copy the history in the same step, so nothing
        falls between the two. */
    method Subscribe(channel: C, replay: bool) returns (sub: Subscription, copy: seq<Note>)
      requires Valid() && channel in history
      modifies this`subscribers
      ensures Valid() && history == old(history)
      ensures fresh(sub) && sub.Contents() == Queue([], 0, false) && sub.maxsize == subscriberQueue
      ensures subscribers == old(subscribers)[channel := old(subscribers)[channel] + {sub}]
      ensures copy == if replay then history[channel] else []
    {
      sub := new Subscription(subscriberQueue);
      subscribers := subscribers[channel := subscribers[channel] + {sub}];
      copy := if replay then history[channel] else [];
    }

    method Unsubscribe(channel: C, sub: Subscription)
      requires Valid() && channel in subscribers
      modifies this`subscribers
      ensures Valid() && subscribers == old(subscribers)[channel := old(subscribers)[channel] - {sub}]
    {
      subscribers := subscribers[channel := subscribers[channel] - {sub}];
    }
  }
}
