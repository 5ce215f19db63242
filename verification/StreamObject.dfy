/** `QueueGenerationStream` as the object it is (engine/inference/stream.py): one
    method per atomic block of the producer thread, the loop and the consumer,
    each updating the fields in place as the protocol's step does. */
module StreamObject {
  import opened Basics
  import opened TokenStream

  /** What `__anext__` ends with: a chunk, the end of the stream, or the generator's failure. */
  datatype Taken = Gave(chunk: Chunk) | Stops | Fails

  class QueueGenerationStream {
    const maxsize: nat
    // the primitives shared with the thread
    var capacity: nat
    var cancel: bool
    var callbacks: seq<Callback>
    var queue: seq<Item>
    var loopGone: bool
    // the thread
    var at: ProducerAt
    var backpressureWaits: nat
    // the consumer side
    var getting: bool
    var index: nat
    var parts: seq<string>
    var result: Option<GenResult>
    var exhausted: bool
    var closing: CloseAt
    var onDoneFired: bool
    // history
    ghost var made: Made
    ghost var seen: Seen

    ghost function WireNow(): Wire reads this { Wire(maxsize, capacity, cancel, callbacks, queue, loopGone) }

    ghost function OutNow(): Consumer reads this {
      Consumer(getting, index, parts, result, exhausted, closing, onDoneFired)
    }

    ghost predicate Valid() reads this { Inv(Now()) }

    ghost function Now(): State reads this { State(WireNow(), at, backpressureWaits, OutNow(), made, seen) }

    constructor (maxsize: nat)
      ensures Valid() && Now() == Init(maxsize)
    {
      this.maxsize, capacity, cancel, callbacks, queue, loopGone := maxsize, maxsize, false, [], [], false;
      at, backpressureWaits := Create, 0;
      getting, index, parts, result, exhausted, closing, onDoneFired := false, 0, [], None, false, NotClosed, false;
      made, seen := Made([], [], [], false, 0), Seen([], [], false, false, 0);
      new;
      InitInv(maxsize);
    }

    /** `_offer`. */
    method Offer(item: Item)
      modifies `cancel, `callbacks, `made
      ensures Now() == OfferItem(old(Now()), item)
    {
      if loopGone {
        cancel := true;
        if item.Token? { made := made.(lost := made.lost + [item.text]); }
      } else {
        callbacks := callbacks + [Put(item)];
      }
    }

    /** A cancel branch: `gen.close()`, which may raise. */
    method StopProducing(reply: Reply)
      modifies `at, `made
      ensures Now() == StopForCancel(old(Now()), reply)
    {
      made := made.(byCancel := true);
      at := if reply.Raised? then OfferTerminal(Error, true) else OfferTerminal(Cancelled, false);
    }

    /** `next(gen)`: a token is kept for `_offer`; otherwise the permit goes back. */
    method PullToken(reply: Reply)
      modifies `at, `capacity, `made
      ensures Now() == PullStep(old(Now()), reply)
    {
      if cancel { made := made.(latePulls := made.latePulls + 1); }
      match reply
      case Yielded(text) =>
        made := made.(produced := made.produced + [text]);
        at := OfferToken(text);
      case Finished(f) =>
        capacity := capacity + 1;
        at := OfferTerminal(f, false);
      case Raised =>
        capacity := capacity + 1;
        at := OfferTerminal(Error, true);
    }

    /** From the top of the loop to a reserved slot. */
    method ReserveSlot(reply: Reply)
      requires at.Create? || at.Top? || at.Reserve? || at.Blocked?
      modifies `at, `backpressureWaits, `capacity, `made
      ensures Now() == ProducerStep(old(Now()), reply)
    {
      hide StopForCancel;
      match at
      case Create => at := if reply.Raised? then OfferTerminal(Error, true) else Top;
      case Top => if cancel { StopProducing(reply); } else { at := Reserve; }
      case Reserve =>
        if capacity > 0 {
          capacity, at := capacity - 1, Recheck;
        } else {
          backpressureWaits, at := backpressureWaits + 1, Blocked;
        }
      case Blocked => if capacity > 0 { capacity, at := capacity - 1, Recheck; }
    }

    /** With the slot in hand: look at the flag again, then ask for a token. */
    method UseSlot(reply: Reply)
      requires at.Recheck? || at.Pull?
      modifies `at, `capacity, `made
      ensures Now() == ProducerStep(old(Now()), reply)
    {
      hide StopForCancel, PullStep;
      if at.Pull? {
        PullToken(reply);
      } else if cancel {
        capacity := capacity + 1;
        StopProducing(reply);
      } else {
        at := Pull;
      }
    }

    /** Hand over a token or the terminal, then announce the end. */
    method HandOver(reply: Reply)
      requires at.OfferToken? || at.OfferTerminal? || at.Announce? || at.Ended?
      modifies `at, `cancel, `callbacks, `made
      ensures Now() == ProducerStep(old(Now()), reply)
    {
      hide OfferItem;
      match at
      case OfferToken(text) => Offer(Token(text)); at := Top;
      case OfferTerminal(f, failed) =>
        Offer(Terminal(f, failed));
        made, at := made.(offered := made.offered + [Terminal(f, failed)]), Announce;
      case Announce =>
        if !loopGone { callbacks := callbacks + [FireDone]; }
        at := Ended;
      case Ended =>
    }

    /** The thread's next block in `_run`. */
    method RunBlock(reply: Reply)
      requires Valid()
      modifies `at, `backpressureWaits, `capacity, `cancel, `callbacks, `made
      ensures Valid() && TokensInFlight(Now()) <= maxsize && seen.doneCalls <= 1
      ensures Now() == Next(old(Now()), Producer(reply))
    {
      hide ProducerStep, Inv, TokensInFlight;
      NextKeeps(Now(), Producer(reply));
      Bounds(Next(Now(), Producer(reply)));
      if at.Create? || at.Top? || at.Reserve? || at.Blocked? {
        ReserveSlot(reply);
      } else if at.Recheck? || at.Pull? {
        UseSlot(reply);
      } else {
        HandOver(reply);
      }
    }

    /** `_fire_on_done`; `fired` tells that `on_done` is called now. */
    method FireDoneOnce() returns (fired: bool)
      modifies `onDoneFired, `seen
      ensures Now() == FireOnDone(old(Now())) && fired == !old(onDoneFired) && onDoneFired
      ensures seen.chunks == old(seen.chunks)
    {
      fired := !onDoneFired;
      if fired {
        onDoneFired := true;
        seen := seen.(doneCalls := seen.doneCalls + 1);
      }
    }

    /** The loop runs its oldest callback. */
    method RunCallback()
      requires Valid()
      modifies `callbacks, `queue, `onDoneFired, `seen
      ensures Valid() && TokensInFlight(Now()) <= maxsize && seen.doneCalls <= 1
      ensures Now() == Next(old(Now()), LoopCallback)
    {
      hide Inv, TokensInFlight;
      NextKeeps(Now(), LoopCallback);
      Bounds(Next(Now(), LoopCallback));
      if loopGone || callbacks == [] { return; }
      var callback := callbacks[0];
      callbacks := callbacks[1..];
      match callback
      case FireDone => var _ := FireDoneOnce();
      case Put(item) =>
        if maxsize > 0 && |queue| >= maxsize {
          seen := seen.(refused := seen.refused + [item]);
        } else {
          queue := queue + [item];
        }
    }

    /** `_finish`. */
    method Conclude(finish: Finish)
      modifies `result, `exhausted, `onDoneFired, `seen
      ensures var s := old(Now());
              Now() == FireOnDone(s.(seen := s.seen.(terminalTaken := true),
                                     out := s.out.(exhausted := true, result := Record(s, finish))))
      ensures exhausted && onDoneFired && seen.chunks == old(seen.chunks) && result.Some?
    {
      hide FireOnDone, Join;
      seen := seen.(terminalTaken := true);
      if result.None? { result := Some(GenResult(Join(parts), finish, index)); }
      exhausted := true;
      var _ := FireDoneOnce();
    }

    /** A token is handed out: its permit returns, and it is counted and kept. */
    method Deliver(text: string) returns (chunk: Chunk)
      modifies `capacity, `index, `parts, `seen
      ensures capacity == old(capacity) + 1 && index == old(index) + 1 && parts == old(parts) + [text]
      ensures chunk == Chunk(text, old(index)) && seen == old(seen).(chunks := old(seen).chunks + [chunk])
    {
      capacity := capacity + 1;
      chunk := Chunk(text, index);
      seen := seen.(chunks := seen.chunks + [chunk]);
      index, parts := index + 1, parts + [text];
    }

    /** `__anext__` once its item is there: the next chunk, numbered in order, or
        the end that the terminal reports. */
    method TakeNext() returns (r: Taken)
      requires Valid() && !loopGone && getting && queue != []
      modifies `queue, `getting, `capacity, `index, `parts, `result, `exhausted, `onDoneFired, `seen
      ensures Valid() && TokensInFlight(Now()) <= maxsize && seen.doneCalls <= 1
      ensures Now() == Next(old(Now()), NextTake)
      ensures r.Gave? ==> seen.chunks == old(seen.chunks) + [r.chunk]
                          && old(queue)[0] == Token(r.chunk.text) && r.chunk.index == old(index)
      ensures !r.Gave? ==> exhausted && onDoneFired && seen.chunks == old(seen.chunks) && result.Some?
      ensures !r.Gave? ==> made.offered == [old(queue)[0]] && old(queue)[0].Terminal?
                           && (r.Fails? <==> made.offered[0].failed)
    {
      hide Join, FireOnDone, Record, Next, Inv, TokensInFlight, Pipe;
      NextKeeps(Now(), NextTake);
      Bounds(Next(Now(), NextTake));
      NextTakes(Now());
      TerminalWasOffered(Now());
      var item := queue[0];
      queue, getting := queue[1..], false;
      if item.Terminal? {
        Conclude(item.finish);
        r := if item.failed then Fails else Stops;
      } else {
        var chunk := Deliver(item.text);
        r := Gave(chunk);
      }
    }

    /** `__anext__` up to its wait: false at the end of the stream. */
    method BeginNext() returns (waits: bool)
      requires Valid() && !loopGone
      modifies `getting
      ensures Valid() && TokensInFlight(Now()) <= maxsize && seen.doneCalls <= 1
      ensures Now() == Next(old(Now()), NextBegin) && waits == !exhausted
    {
      hide Inv, TokensInFlight;
      NextKeeps(Now(), NextBegin);
      Bounds(Next(Now(), NextBegin));
      waits := !exhausted;
      if waits { getting := true; }
    }

    /** `aclose` up to the semaphore: only the first call goes on. */
    method BeginClose() returns (first: bool)
      requires Valid() && !loopGone
      modifies `closing, `cancel
      ensures Valid() && TokensInFlight(Now()) <= maxsize && seen.doneCalls <= 1
      ensures Now() == Next(old(Now()), CloseBegin) && first == (old(closing) == NotClosed)
      ensures first ==> cancel
    {
      hide Inv, TokensInFlight;
      NextKeeps(Now(), CloseBegin);
      Bounds(Next(Now(), CloseBegin));
      first := closing == NotClosed;
      if first { closing, cancel := FlagSet, true; }
    }

    /** `aclose` lets a blocked producer through. */
    method ReleaseOnClose()
      requires Valid() && !loopGone && closing == FlagSet
      modifies `closing, `capacity
      ensures Valid() && TokensInFlight(Now()) <= maxsize && seen.doneCalls <= 1
      ensures Now() == Next(old(Now()), CloseRelease)
    {
      hide Inv, TokensInFlight;
      NextKeeps(Now(), CloseRelease);
      Bounds(Next(Now(), CloseRelease));
      capacity, closing := capacity + 1, Joining;
    }

    /** The rest of `aclose`, after the join returned or gave up. */
    method EndClose()
      requires Valid() && !loopGone && closing == Joining
      modifies `closing, `result, `exhausted, `onDoneFired, `seen
      ensures Valid() && TokensInFlight(Now()) <= maxsize && seen.doneCalls <= 1
      ensures Now() == Next(old(Now()), CloseReturn)
      ensures result.Some? && exhausted && onDoneFired
    {
      hide Join, FireOnDone, Inv, TokensInFlight, Next;
      NextKeeps(Now(), CloseReturn);
      Bounds(Next(Now(), CloseReturn));
      NextEndsClose(Now());
      seen := seen.(resultByClose := seen.resultByClose || result.None?);
      if result.None? { result := Some(GenResult(Join(parts), Cancelled, index)); }
      exhausted, closing := true, Returned;
      var _ := FireDoneOnce();
    }
  }
  /** What the invariant promises a user of the object. */
  lemma Bounds(s: State)
    requires Inv(s)
    ensures TokensInFlight(s) <= s.wire.max && s.seen.doneCalls <= 1
  {
  }

  /** A terminal in the queue is the one that was offered. */
  lemma TerminalWasOffered(s: State)
    requires Inv(s) && s.wire.queue != []
    ensures s.wire.queue[0].Terminal? ==> s.made.offered == [s.wire.queue[0]]
  {
    hide Accounts, Delivery, Calls;
    var pipe := Pipe(s);
    assert pipe[0] == s.wire.queue[0];
    if pipe[0].Terminal? {
      TextsLength(pipe);
      TextsLength(pipe[1..]);
      assert |pipe| == |Texts(pipe)| + 1;
      assert pipe == [pipe[0]] + pipe[1..];
    }
  }

  lemma NextEndsClose(s: State)
    requires !s.wire.loopGone && s.out.closeAt == Joining
    ensures Next(s, CloseReturn) == FinishClose(s)
  {
  }

  lemma NextTakes(s: State)
    requires !s.wire.loopGone && s.out.pending && s.wire.queue != []
    ensures Next(s, NextTake) == TakeItem(s)
  {
  }
}
