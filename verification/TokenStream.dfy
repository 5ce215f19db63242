/** The bridge from a blocking token producer to the event loop
    (engine/inference/stream.py).

    The producer thread, the loop's callback queue and the consumer are one
    state machine. An event is one atomic block of one of them: the code
    between two operations on the shared semaphore, cancel flag, callback queue
    or token queue. `Run` over an arbitrary sequence of events is an arbitrary
    interleaving; an event that is not enabled changes nothing. */
module TokenStream {

  import opened Basics

  datatype Finish = Stop | Length | Cancelled | Error

  datatype Item = Token(text: string) | Terminal(finish: Finish, failed: bool)

  /** What `call_soon_threadsafe` scheduled on the loop. */
  datatype Callback = Put(item: Item) | FireDone

  datatype Chunk = Chunk(text: string, index: nat)

  datatype GenResult = GenResult(text: string, finish: Finish, completionTokens: nat)

  /** Where the producer thread stands in `_run`. */
  datatype ProducerAt =
    | Create                                        // about to call the producer
    | Top                                           // first cancel check of the loop
    | Reserve                                       // non-blocking acquire
    | Blocked                                       // blocking acquire
    | Recheck                                       // holds a permit, second cancel check
    | Pull                                          // holds a permit, next(gen)
    | OfferToken(text: string)                      // holds a permit
    | OfferTerminal(finish: Finish, failed: bool)
    | Announce                                      // schedule _fire_on_done
    | Ended

  /** Where a call of `aclose` stands. */
  datatype CloseAt = NotClosed | FlagSet | Joining | Returned | Abandoned

  /** What the generator did when the producer thread called into it. */
  datatype Reply = Yielded(text: string) | Finished(finish: Finish) | Raised

  /** The primitives the stream shares with its thread. */
  datatype Wire = Wire(max: nat, permits: nat, cancel: bool, callbacks: seq<Callback>, queue: seq<Item>, loopGone: bool)

  /** The fields the consumer side updates. */
  datatype Consumer = Consumer(pending: bool, index: nat, parts: seq<string>, result: Option<GenResult>,
                               exhausted: bool, closeAt: CloseAt, doneFired: bool)

  /** History of the producer side; no step reads it. */
  datatype Made = Made(
    produced: seq<string>,       // every token the generator yielded
    lost: seq<string>,           // tokens offered after the loop was gone
    offered: seq<Item>,          // terminal items offered
    byCancel: bool,              // the terminal came from a cancel branch
    latePulls: nat)              // next(gen) calls made while cancel was set

  /** History of the loop side; no step reads it. */
  datatype Seen = Seen(
    refused: seq<Item>,          // items put_nowait refused with QueueFull
    chunks: seq<Chunk>,          // what __anext__ returned
    terminalTaken: bool,         // __anext__ consumed the terminal
    resultByClose: bool,         // the result was recorded by aclose
    doneCalls: nat)              // calls of on_done

  datatype State = State(wire: Wire, at: ProducerAt, waits: nat, out: Consumer, made: Made, seen: Seen)

  datatype Event =
    | Producer(reply: Reply)     // the producer thread's next atomic block
    | LoopCallback               // the loop runs its oldest callback
    | NextBegin | NextTake | NextAbandon
    | CloseBegin | CloseRelease | CloseReturn | CloseAbandon
    | LoopCloses

  function Init(max: nat): State {
    State(Wire(max, max, false, [], [], false), Create, 0, Consumer(false, 0, [], None, false, NotClosed, false),
          Made([], [], [], false, 0), Seen([], [], false, false, 0))
  }

  function Join(parts: seq<string>): string {
    if parts == [] then "" else Join(parts[..|parts| - 1]) + parts[|parts| - 1]
  }

  function FireOnDone(s: State): State {
    if s.out.doneFired then s
    else s.(out := s.out.(doneFired := true), seen := s.seen.(doneCalls := s.seen.doneCalls + 1))
  }

  /** `_offer`: schedule `put_nowait`, or note that the loop is gone. */
  function OfferItem(s: State, item: Item): State {
    if s.wire.loopGone then
      s.(wire := s.wire.(cancel := true),
         made := if item.Token? then s.made.(lost := s.made.lost + [item.text]) else s.made)
    else
      s.(wire := s.wire.(callbacks := s.wire.callbacks + [Put(item)]))
  }

  /** A cancel branch of `_run`: `gen.close()` may itself raise. */
  function StopForCancel(s: State, reply: Reply): State {
    s.(made := s.made.(byCancel := true),
       at := if reply.Raised? then OfferTerminal(Error, true) else OfferTerminal(Cancelled, false))
  }

  function TakePermit(s: State): State
    requires s.wire.permits > 0
  {
    s.(wire := s.wire.(permits := s.wire.permits - 1), at := Recheck)
  }

  function GivePermit(s: State): State { s.(wire := s.wire.(permits := s.wire.permits + 1)) }

  /** `next(gen)`, with a permit in hand. */
  function PullStep(s: State, reply: Reply): State {
    var t := s.(made := s.made.(latePulls := if s.wire.cancel then s.made.latePulls + 1 else s.made.latePulls));
    match reply
    case Yielded(text) => t.(made := t.made.(produced := t.made.produced + [text]), at := OfferToken(text))
    case Finished(f) => GivePermit(t).(at := OfferTerminal(f, false))
    case Raised => GivePermit(t).(at := OfferTerminal(Error, true))
  }

  /** One atomic block of the producer thread. */
  function ProducerStep(s: State, reply: Reply): State {
    match s.at
    case Create => s.(at := if reply.Raised? then OfferTerminal(Error, true) else Top)
    case Top => if s.wire.cancel then StopForCancel(s, reply) else s.(at := Reserve)
    case Reserve => if s.wire.permits > 0 then TakePermit(s) else s.(waits := s.waits + 1, at := Blocked)
    case Blocked => if s.wire.permits > 0 then TakePermit(s) else s
    case Recheck => if s.wire.cancel then StopForCancel(GivePermit(s), reply) else s.(at := Pull)
    case Pull => PullStep(s, reply)
    case OfferToken(text) => OfferItem(s, Token(text)).(at := Top)
    case OfferTerminal(f, failed) =>
      var t := OfferItem(s, Terminal(f, failed));
      t.(at := Announce, made := t.made.(offered := t.made.offered + [Terminal(f, failed)]))
    case Announce =>
      if s.wire.loopGone then s.(at := Ended)
      else s.(at := Ended, wire := s.wire.(callbacks := s.wire.callbacks + [FireDone]))
    case Ended => s
  }

  function RunCallback(s: State): State {
    if s.wire.loopGone || s.wire.callbacks == [] then s
    else
      var t := s.(wire := s.wire.(callbacks := s.wire.callbacks[1..]));
      match s.wire.callbacks[0]
      case FireDone => FireOnDone(t)
      case Put(item) =>
        if s.wire.max > 0 && |s.wire.queue| >= s.wire.max then
          t.(seen := t.seen.(refused := t.seen.refused + [item]))
        else
          t.(wire := t.wire.(queue := t.wire.queue + [item]))
  }

  /** The part of `__anext__` after `queue.get()` returned. */
  function TakeItem(s: State): State
    requires s.wire.queue != []
  {
    var t := s.(wire := s.wire.(queue := s.wire.queue[1..]), out := s.out.(pending := false));
    match s.wire.queue[0]
    case Token(text) =>
      GivePermit(t).(out := t.out.(index := t.out.index + 1, parts := t.out.parts + [text]),
                     seen := t.seen.(chunks := t.seen.chunks + [Chunk(text, t.out.index)]))
    case Terminal(f, failed) =>
      FireOnDone(t.(seen := t.seen.(terminalTaken := true),
                    out := t.out.(exhausted := true, result := Record(t, f))))
  }

  /** The result is recorded once. */
  function Record(s: State, finish: Finish): Option<GenResult> {
    if s.out.result.None? then Some(GenResult(Join(s.out.parts), finish, s.out.index)) else s.out.result
  }

  function FinishClose(s: State): State {
    FireOnDone(s.(seen := s.seen.(resultByClose := s.seen.resultByClose || s.out.result.None?),
                  out := s.out.(closeAt := Returned, exhausted := true, result := Record(s, Cancelled))))
  }

  function Next(s: State, e: Event): State {
    match e
    case Producer(reply) => ProducerStep(s, reply)
    case LoopCallback => RunCallback(s)
    case NextBegin => if s.wire.loopGone || s.out.exhausted then s else s.(out := s.out.(pending := true))
    case NextTake => if !s.wire.loopGone && s.out.pending && s.wire.queue != [] then TakeItem(s) else s
    case NextAbandon => s.(out := s.out.(pending := false))
    case CloseBegin =>
      if s.wire.loopGone || s.out.closeAt != NotClosed then s
      else s.(out := s.out.(closeAt := FlagSet), wire := s.wire.(cancel := true))
    case CloseRelease =>
      if !s.wire.loopGone && s.out.closeAt == FlagSet then GivePermit(s).(out := s.out.(closeAt := Joining)) else s
    case CloseReturn => if !s.wire.loopGone && s.out.closeAt == Joining then FinishClose(s) else s
    case CloseAbandon => if s.out.closeAt == Joining then s.(out := s.out.(closeAt := Abandoned)) else s
    case LoopCloses => s.(wire := s.wire.(loopGone := true))
  }

  function Run(s: State, events: seq<Event>): State
    decreases |events|
  {
    if events == [] then s else Next(Run(s, events[..|events| - 1]), events[|events| - 1])
  }

  // ------------------------------------------------------------ the pipeline

  /** The items of scheduled `put_nowait` calls, oldest first. */
  function Items(cs: seq<Callback>): seq<Item> {
    if cs == [] then []
    else (if cs[0].Put? then [cs[0].item] else []) + Items(cs[1..])
  }

  function Texts(items: seq<Item>): seq<string> {
    if items == [] then []
    else (if items[0].Token? then [items[0].text] else []) + Texts(items[1..])
  }

  /** Everything queued, then everything in transit to the queue. */
  function Pipe(s: State): seq<Item> { s.wire.queue + Items(s.wire.callbacks) }

  function TokensInFlight(s: State): nat { |Texts(Pipe(s))| }

  lemma {:induction false} ItemsAppend(cs: seq<Callback>, c: Callback)
    ensures Items(cs + [c]) == Items(cs) + (if c.Put? then [c.item] else [])
    decreases |cs|
  {
    if cs == [] {
      assert [c][1..] == [] && cs + [c] == [c];
    } else {
      var all, rest := cs + [c], cs[1..];
      assert all[1..] == rest + [c] && all[0] == cs[0];
      ItemsAppend(rest, c);
      assert Items(all) == (if cs[0].Put? then [cs[0].item] else []) + Items(rest + [c]);
    }
  }

  lemma {:induction false} TextsAppend(items: seq<Item>, item: Item)
    ensures Texts(items + [item]) == Texts(items) + (if item.Token? then [item.text] else [])
    decreases |items|
  {
    if items == [] {
      assert [item][1..] == [];
    } else {
      var all, rest := items + [item], items[1..];
      assert all[1..] == rest + [item] && all[0] == items[0];
      TextsAppend(rest, item);
      assert Texts(all) == (if items[0].Token? then [items[0].text] else []) + Texts(rest + [item]);
    }
  }

  /** One text per token, so a pipeline with as many texts as items has no
      terminal in it. */
  lemma {:induction false} TextsLength(items: seq<Item>)
    ensures |Texts(items)| <= |items|
    ensures |Texts(items)| == |items| && items != [] ==> items[0].Token? && items[|items| - 1].Token?
    decreases |items|
  {
    if items != [] {
      TextsLength(items[1..]);
      assert |items| > 1 ==> items[1..][|items| - 2] == items[|items| - 1];
    }
  }

  // -------------------------------------------------------------- invariant

  predicate HoldsPermit(at: ProducerAt) { at.Recheck? || at.Pull? || at.OfferToken? }

  predicate Released(s: State) { !s.out.closeAt.NotClosed? && !s.out.closeAt.FlagSet? }

  function Hand(at: ProducerAt): seq<string> { if at.OfferToken? then [at.text] else [] }

  /** Every permit is free, held by the producer, or stands for one of the
      `tokens` not yet consumed; `aclose` adds one. */
  predicate Accounts(s: State, tokens: nat) {
    && s.wire.permits + (if HoldsPermit(s.at) then 1 else 0) + tokens + |s.made.lost|
         == s.wire.max + (if Released(s) then 1 else 0)
    && tokens + |s.made.lost| + (if s.at.Pull? || s.at.OfferToken? then 1 else 0) <= s.wire.max
    && (s.wire.max > 0 ==> |s.wire.queue| <= s.wire.max)
    && (s.out.closeAt != NotClosed ==> s.wire.cancel)
    && (s.made.lost != [] ==>
          s.wire.loopGone && s.wire.cancel && (s.at.Top? || s.at.OfferTerminal? || s.at.Announce? || s.at.Ended?))
  }

  /** The terminal is offered once, after every token, and unless a cancel
      branch offered it there is a queue slot for it. */
  predicate Terminals(s: State, pipe: seq<Item>, tokens: nat) {
    && |s.made.offered| == (if s.at.Announce? || s.at.Ended? then 1 else 0)
    && (if |pipe| > tokens then
          && |pipe| == tokens + 1 && s.made.offered == [pipe[tokens]] && s.seen.refused == [] && !s.seen.terminalTaken
        else |pipe| == tokens)
    && (s.made.offered == [] ==> s.seen.refused == [] && !s.seen.terminalTaken)
    && (s.made.offered != [] ==> s.made.offered[0].Terminal?)
    && (s.seen.terminalTaken ==> pipe == [] && s.seen.refused == [] && s.made.lost == [])
    && (s.seen.refused != [] ==> s.made.byCancel && s.seen.refused == s.made.offered)
    && ((s.at.OfferTerminal? || s.made.offered != []) && !s.made.byCancel && s.wire.max > 0 ==> tokens < s.wire.max)
    && (s.made.byCancel ==> s.wire.cancel && (s.at.OfferTerminal? || s.made.offered != []))
    && (s.at.Create? ==> pipe == [])
    && (s.made.offered != [] && !s.wire.loopGone ==> |pipe| > tokens || s.seen.terminalTaken || s.seen.refused != [])
  }

  predicate Indexed(chunks: seq<Chunk>, parts: seq<string>) {
    |chunks| == |parts| && forall i | 0 <= i < |chunks| :: chunks[i] == Chunk(parts[i], i)
  }

  /** A recorded result describes a prefix of what was delivered: all that was
      produced when the terminal was consumed, else what `aclose` had seen. */
  predicate Recorded(s: State) {
    match s.out.result
    case None => !s.seen.resultByClose && !s.seen.terminalTaken && s.out.closeAt != Returned
    case Some(r) =>
      && r.completionTokens <= |s.out.parts| && r.text == Join(s.out.parts[..r.completionTokens])
      && (if s.seen.resultByClose then r.finish == Cancelled && s.out.closeAt == Returned
          else s.seen.terminalTaken && r.completionTokens == |s.out.parts| && |s.made.offered| == 1
               && s.made.offered[0].Terminal? && r.finish == s.made.offered[0].finish)
  }

  /** What was delivered, then what is in flight, is what was produced. */
  predicate Delivery(s: State, texts: seq<string>) {
    && s.made.produced == s.out.parts + (texts + (Hand(s.at) + s.made.lost))
    && s.out.index == |s.out.parts|
    && Indexed(s.seen.chunks, s.out.parts)
    && Recorded(s)
  }

  predicate Calls(s: State) {
    && s.seen.doneCalls == (if s.out.doneFired then 1 else 0)
    && (s.at.Ended? && !s.wire.loopGone ==> s.out.doneFired || FireDone in s.wire.callbacks)
    && s.made.latePulls <= 1
    && (s.made.latePulls == 1 ==>
          s.wire.cancel && (s.at.Top? || s.at.OfferToken? || s.at.OfferTerminal? || s.at.Announce? || s.at.Ended?))
  }

  predicate Good(s: State, pipe: seq<Item>, texts: seq<string>) {
    Accounts(s, |texts|) && Terminals(s, pipe, |texts|) && Delivery(s, texts) && Calls(s)
  }

  predicate Inv(s: State) { Good(s, Pipe(s), Texts(Pipe(s))) }

  lemma InitInv(max: nat)
    ensures Inv(Init(max))
  {
  }

  // -------------------------------------------------- each step keeps it

  /** The producer's blocks that offer nothing leave the pipeline alone. */
  lemma LoopHeadKeeps(s: State, reply: Reply, pipe: seq<Item>, texts: seq<string>)
    requires Good(s, pipe, texts) && (s.at.Create? || s.at.Top? || s.at.Reserve? || s.at.Blocked?)
    ensures Good(ProducerStep(s, reply), pipe, texts)
  {
  }

  /** Past `Recheck` the permit is one of the original `max`: the extra one is
      released only after the flag is set. */
  lemma HoldingKeeps(s: State, reply: Reply, pipe: seq<Item>, texts: seq<string>)
    requires Good(s, pipe, texts) && (s.at.Recheck? || s.at.Pull?)
    ensures Good(ProducerStep(s, reply), pipe, texts)
  {
    if s.at.Pull? && reply.Yielded? {
      assert s.out.parts + (texts + ([] + [])) + [reply.text] == s.out.parts + (texts + ([reply.text] + []));
    }
  }

  lemma AnnounceKeeps(s: State, reply: Reply, pipe: seq<Item>, texts: seq<string>)
    requires Good(s, pipe, texts) && s.at.Announce?
    ensures Good(ProducerStep(s, reply), pipe, texts)
  {
    assert (s.wire.callbacks + [FireDone])[|s.wire.callbacks|] == FireDone;
  }

  lemma QuietPipe(s: State, reply: Reply)
    requires !s.at.OfferToken? && !s.at.OfferTerminal?
    ensures Pipe(ProducerStep(s, reply)) == Pipe(s)
  {
    if s.at.Announce? { ItemsAppend(s.wire.callbacks, FireDone); }
    assert !s.at.Announce? ==> ProducerStep(s, reply).wire.callbacks == s.wire.callbacks;
  }

  lemma OfferTokenKeeps(s: State, reply: Reply, pipe: seq<Item>, texts: seq<string>)
    requires Good(s, pipe, texts) && s.at.OfferToken?
    ensures s.wire.loopGone ==> Good(ProducerStep(s, reply), pipe, texts)
    ensures !s.wire.loopGone ==> Good(ProducerStep(s, reply), pipe + [Token(s.at.text)], texts + [s.at.text])
  {
    if s.wire.loopGone {
      assert [s.at.text] + s.made.lost == [] + (s.made.lost + [s.at.text]);
    } else {
      assert texts + ([s.at.text] + []) == (texts + [s.at.text]) + ([] + []);
    }
  }

  lemma OfferTerminalKeeps(s: State, reply: Reply, pipe: seq<Item>, texts: seq<string>)
    requires Good(s, pipe, texts) && s.at.OfferTerminal?
    ensures s.wire.loopGone ==> Good(ProducerStep(s, reply), pipe, texts)
    ensures !s.wire.loopGone ==> Good(ProducerStep(s, reply), pipe + [Terminal(s.at.finish, s.at.failed)], texts)
  {
  }

  /** Offering an item appends it to the pipeline. */
  lemma OfferPipe(s: State, t: State, item: Item)
    requires t.wire.queue == s.wire.queue && t.wire.callbacks == s.wire.callbacks + [Put(item)]
    ensures Pipe(t) == Pipe(s) + [item]
    ensures Texts(Pipe(t)) == Texts(Pipe(s)) + (if item.Token? then [item.text] else [])
  {
    ItemsAppend(s.wire.callbacks, Put(item));
    TextsAppend(Pipe(s), item);
    assert s.wire.queue + (Items(s.wire.callbacks) + [item]) == Pipe(s) + [item];
  }

  lemma OfferGoneQuiet(s: State, reply: Reply)
    requires s.wire.loopGone && (s.at.OfferToken? || s.at.OfferTerminal?)
    ensures Pipe(ProducerStep(s, reply)) == Pipe(s)
  {
  }

  lemma OfferKeeps(s: State, reply: Reply)
    requires Inv(s) && (s.at.OfferToken? || s.at.OfferTerminal?)
    ensures Inv(ProducerStep(s, reply))
  {
    hide Accounts, Terminals, Delivery, Calls, Pipe, Texts;
    var t := ProducerStep(s, reply);
    if s.wire.loopGone { OfferGoneQuiet(s, reply); }
    if s.at.OfferToken? {
      OfferTokenKeeps(s, reply, Pipe(s), Texts(Pipe(s)));
      if !s.wire.loopGone { OfferPipe(s, t, Token(s.at.text)); }
    } else {
      OfferTerminalKeeps(s, reply, Pipe(s), Texts(Pipe(s)));
      assert Texts(Pipe(s)) + [] == Texts(Pipe(s));
      if !s.wire.loopGone { OfferPipe(s, t, Terminal(s.at.finish, s.at.failed)); }
    }
  }

  lemma ProducerKeeps(s: State, reply: Reply)
    requires Inv(s)
    ensures Inv(ProducerStep(s, reply))
  {
    match s.at {
      case OfferToken(_) => OfferKeeps(s, reply);
      case OfferTerminal(_, _) => OfferKeeps(s, reply);
      case Announce => AnnounceKeeps(s, reply, Pipe(s), Texts(Pipe(s))); QuietPipe(s, reply);
      case Ended =>
      case Recheck => HoldingKeeps(s, reply, Pipe(s), Texts(Pipe(s))); QuietPipe(s, reply);
      case Pull => HoldingKeeps(s, reply, Pipe(s), Texts(Pipe(s))); QuietPipe(s, reply);
      case _ => LoopHeadKeeps(s, reply, Pipe(s), Texts(Pipe(s))); QuietPipe(s, reply);
    }
  }

  /** Landing an item only moves the border between transit and queue. */
  lemma LandKeeps(s: State, pipe: seq<Item>, texts: seq<string>)
    requires Good(s, pipe, texts) && !s.wire.loopGone && s.wire.callbacks != []
    requires s.wire.callbacks[0].Put? ==> !(s.wire.max > 0 && |s.wire.queue| >= s.wire.max)
    ensures Good(RunCallback(s), pipe, texts)
  {
    assert FireDone in s.wire.callbacks ==> s.wire.callbacks[0].FireDone? || FireDone in s.wire.callbacks[1..];
  }

  /** What running a callback does to the pipeline: nothing, unless the queue is full. */
  lemma CallbackPipe(s: State)
    requires !s.wire.loopGone && s.wire.callbacks != []
    ensures var c, t := s.wire.callbacks[0], RunCallback(s);
            if c.Put? && s.wire.max > 0 && |s.wire.queue| >= s.wire.max then
              && Pipe(s) == s.wire.queue + [c.item] + Items(s.wire.callbacks[1..])
              && Pipe(t) == s.wire.queue + Items(s.wire.callbacks[1..])
            else Pipe(t) == Pipe(s)
  {
  }

  lemma RefuseKeeps(s: State)
    requires Inv(s) && !s.wire.loopGone && s.wire.callbacks != [] && s.wire.callbacks[0].Put?
    requires s.wire.max > 0 && |s.wire.queue| >= s.wire.max
    ensures Inv(RunCallback(s))
  {
    CallbackPipe(s);
    RefusedIsTerminal(s, s.wire.callbacks[0].item, Items(s.wire.callbacks[1..]));
    assert Pipe(RunCallback(s)) == s.wire.queue;
    assert FireDone in s.wire.callbacks ==> FireDone in s.wire.callbacks[1..];
  }

  lemma CallbackKeeps(s: State)
    requires Inv(s)
    ensures Inv(RunCallback(s))
  {
    hide Pipe, Texts, Good;
    if s.wire.loopGone || s.wire.callbacks == [] {
    } else if s.wire.callbacks[0].Put? && s.wire.max > 0 && |s.wire.queue| >= s.wire.max {
      RefuseKeeps(s);
    } else {
      LandKeeps(s, Pipe(s), Texts(Pipe(s)));
      CallbackPipe(s);
    }
  }

  /** Only a terminal offered by a cancel branch can meet a full queue. */
  lemma RefusedIsTerminal(s: State, item: Item, rest: seq<Item>)
    requires Inv(s) && Pipe(s) == s.wire.queue + [item] + rest
    requires 0 < s.wire.max <= |s.wire.queue|
    ensures s.made.byCancel && s.made.offered == [item] && s.seen.refused == [] && rest == []
    ensures Texts(s.wire.queue) == Texts(Pipe(s)) && |Texts(s.wire.queue)| == |s.wire.queue|
  {
    var p := Pipe(s);
    TextsLength(p);
    assert |p| == |Texts(p)| + 1;
    assert p == s.wire.queue + [item];
    TextsAppend(s.wire.queue, item);
  }

  lemma TakePipe(s: State, t: State)
    requires s.wire.queue != [] && t.wire.queue == s.wire.queue[1..] && t.wire.callbacks == s.wire.callbacks
    ensures Pipe(s) == [s.wire.queue[0]] + Pipe(t)
    ensures Texts(Pipe(s)) == (if s.wire.queue[0].Token? then [s.wire.queue[0].text] else []) + Texts(Pipe(t))
    ensures |Texts(Pipe(t))| <= |Pipe(t)|
    ensures |Texts(Pipe(t))| == |Pipe(t)| && Pipe(t) != [] ==> Pipe(t)[|Pipe(t)| - 1].Token?
  {
    assert Pipe(s) == [s.wire.queue[0]] + Pipe(t);
    assert Pipe(s)[1..] == Pipe(t);
    TextsLength(Pipe(t));
  }

  lemma TakeKeeps(s: State)
    requires Inv(s) && !s.wire.loopGone && s.out.pending && s.wire.queue != []
    ensures Inv(TakeItem(s))
  {
    var t := TakeItem(s);
    TakePipe(s, t);
    if s.wire.queue[0].Token? {
      TakeTokenKeeps(s, s.wire.queue[0].text, Pipe(s), Pipe(t), Texts(Pipe(t)));
    } else {
      TakeTerminalKeeps(s, Pipe(s), Pipe(t), Texts(Pipe(t)));
    }
  }

  lemma TakeTokenKeeps(s: State, text: string, pipe: seq<Item>, rest: seq<Item>, texts: seq<string>)
    requires s.wire.queue != [] && s.wire.queue[0] == Token(text)
    requires pipe == [Token(text)] + rest && Good(s, pipe, [text] + texts)
    ensures Good(TakeItem(s), rest, texts)
  {
    var t := TakeItem(s);
    var r := Hand(s.at) + s.made.lost;
    assert s.out.parts + (([text] + texts) + r) == t.out.parts + (texts + r);
    if s.out.result.Some? {
      assert t.out.parts[..s.out.result.value.completionTokens] == s.out.parts[..s.out.result.value.completionTokens];
    }
  }

  lemma TakeTerminalKeeps(s: State, pipe: seq<Item>, rest: seq<Item>, texts: seq<string>)
    requires s.wire.queue != [] && s.wire.queue[0].Terminal? && !s.wire.loopGone
    requires pipe == [s.wire.queue[0]] + rest && Good(s, pipe, texts)
    requires |texts| <= |rest| && (|texts| == |rest| && rest != [] ==> rest[|rest| - 1].Token?)
    ensures Good(TakeItem(s), rest, texts)
  {
    assert rest == [] && texts == [] && s.made.lost == [];
    assert s.out.parts[..|s.out.parts|] == s.out.parts;
  }

  /** The start of `__anext__` and of `aclose`, and the end of the loop. */
  lemma OpeningKeeps(s: State, e: Event, pipe: seq<Item>, texts: seq<string>)
    requires Good(s, pipe, texts)
    requires e.NextBegin? || e.NextAbandon? || e.LoopCloses? || e.CloseBegin?
    ensures Good(Next(s, e), pipe, texts)
  {
    hide Indexed, Join;
  }

  /** The rest of `aclose`. */
  lemma ClosingKeeps(s: State, e: Event, pipe: seq<Item>, texts: seq<string>)
    requires Good(s, pipe, texts)
    requires e.CloseRelease? || e.CloseReturn? || e.CloseAbandon?
    ensures Good(Next(s, e), pipe, texts)
  {
    hide Indexed, Join;
    assert s.out.parts[..|s.out.parts|] == s.out.parts;
  }

  lemma NextKeeps(s: State, e: Event)
    requires Inv(s)
    ensures Inv(Next(s, e))
  {
    match e {
      case Producer(reply) => ProducerKeeps(s, reply);
      case LoopCallback => CallbackKeeps(s);
      case NextTake => if !s.wire.loopGone && s.out.pending && s.wire.queue != [] { TakeKeeps(s); }
      case CloseRelease => ClosingKeeps(s, e, Pipe(s), Texts(Pipe(s)));
      case CloseReturn => ClosingKeeps(s, e, Pipe(s), Texts(Pipe(s)));
      case CloseAbandon => ClosingKeeps(s, e, Pipe(s), Texts(Pipe(s)));
      case _ => OpeningKeeps(s, e, Pipe(s), Texts(Pipe(s)));
    }
  }

  lemma MaxFixed(s: State, e: Event)
    ensures Next(s, e).wire.max == s.wire.max
  {
  }

  lemma {:induction false} RunKeeps(s: State, events: seq<Event>)
    requires Inv(s)
    ensures Inv(Run(s, events)) && Run(s, events).wire.max == s.wire.max
    decreases |events|
  {
    if events != [] {
      RunKeeps(s, events[..|events| - 1]);
      MaxFixed(Run(s, events[..|events| - 1]), events[|events| - 1]);
      NextKeeps(Run(s, events[..|events| - 1]), events[|events| - 1]);
    }
  }

  // ------------------------------------------------------------ main results

  /** In every interleaving: the buffer stays within `max` although `aclose`
      adds a permit; only a terminal offered because of a cancellation can be
      refused by a full queue; at most one terminal is offered; after the flag
      is set the generator is resumed at most once; `on_done` runs at most once. */
  lemma StreamIsBounded(max: nat, events: seq<Event>)
    ensures var s := Run(Init(max), events);
            && TokensInFlight(s) <= max
            && |s.made.offered| <= 1
            && (s.seen.refused != [] ==> s.made.byCancel && s.seen.refused == s.made.offered)
            && s.made.latePulls <= 1
            && s.seen.doneCalls <= 1
  {
    InitInv(max);
    RunKeeps(Init(max), events);
  }

  /** The chunks handed out are the produced tokens in order, numbered from
      zero; a recorded result counts and joins a prefix of them, and one that
      came with the terminal counts all of them and carries its reason. */
  predicate InOrder(s: State) {
    && |s.seen.chunks| <= |s.made.produced|
    && Indexed(s.seen.chunks, s.made.produced[..|s.seen.chunks|])
    && (s.seen.terminalTaken ==> |s.seen.chunks| == |s.made.produced|)
    && (s.out.result.Some? ==>
          var r := s.out.result.value;
          && r.completionTokens <= |s.seen.chunks|
          && r.text == Join(s.made.produced[..r.completionTokens])
          && (!s.seen.resultByClose ==> s.seen.terminalTaken && r.completionTokens == |s.made.produced|
                                        && |s.made.offered| == 1 && s.made.offered[0].Terminal?
                                        && r.finish == s.made.offered[0].finish))
  }

  lemma GoodInOrder(s: State, pipe: seq<Item>, texts: seq<string>)
    requires Good(s, pipe, texts) && |texts| <= |pipe|
    ensures InOrder(s)
  {
    assert s.made.produced[..|s.out.parts|] == s.out.parts;
    if s.out.result.Some? {
      var k := s.out.result.value.completionTokens;
      assert s.made.produced[..k] == s.out.parts[..k];
    }
    if s.seen.terminalTaken {
      assert texts == [] && Hand(s.at) == [] && s.made.lost == [];
    }
  }

  lemma StreamDeliversInOrder(max: nat, events: seq<Event>)
    ensures InOrder(Run(Init(max), events))
  {
    InitInv(max);
    RunKeeps(Init(max), events);
    var s := Run(Init(max), events);
    TextsLength(Pipe(s));
    GoodInOrder(s, Pipe(s), Texts(Pipe(s)));
  }

  /** Once the worker has ended and the loop has run its callbacks, the backend
      has been released, whether or not anyone consumed the stream. */
  lemma StreamReleasesBackend(max: nat, events: seq<Event>)
    ensures var s := Run(Init(max), events);
            s.at.Ended? && !s.wire.loopGone && s.wire.callbacks == [] ==> s.seen.doneCalls == 1
  {
    InitInv(max);
    RunKeeps(Init(max), events);
  }

  /** Blocks the producer still has to run once `aclose` has released its permit. */
  function Rank(at: ProducerAt): nat {
    match at
    case Ended => 0
    case Announce => 1
    case OfferTerminal(_, _) => 2
    case Top => 3
    case Recheck => 3
    case Pull => 5
    case _ => 4
  }

  function ProducerBlocks(events: seq<Event>): nat {
    if events == [] then 0
    else ProducerBlocks(events[..|events| - 1]) + (if events[|events| - 1].Producer? then 1 else 0)
  }

  /** A closed stream's producer is never stuck on capacity and every block it
      runs brings it closer to its end; no other event moves it away. */
  lemma CloseMakesProgress(s: State, e: Event)
    requires Inv(s) && Released(s)
    ensures Released(Next(s, e))
    ensures s.at.Blocked? ==> s.wire.permits > 0
    ensures if e.Producer? && !s.at.Ended? then Rank(Next(s, e).at) < Rank(s.at)
            else Next(s, e).at == s.at
  {
    hide Inv, Record;
    ClosedIsCancelled(s);
  }

  lemma ClosedIsCancelled(s: State)
    requires Inv(s) && Released(s)
    ensures s.wire.cancel && (s.at.Reserve? || s.at.Blocked? ==> s.wire.permits > 0)
  {
    hide Terminals, Delivery, Calls, Texts, Pipe;
  }

  /** After `aclose`, under any interleaving, five blocks of the producer are
      enough for it to end, with exactly one terminal offered. */
  lemma {:induction false} CloseEndsProducer(s: State, events: seq<Event>)
    requires Inv(s) && Released(s)
    ensures var t := Run(s, events);
            && Released(t)
            && (ProducerBlocks(events) >= 5 ==> t.at.Ended? && |t.made.offered| == 1)
            && (Rank(t.at) == 0 || Rank(t.at) + ProducerBlocks(events) <= 5)
    decreases |events|
  {
    hide Inv, Next, Released;
    RunKeeps(s, events);
    if Run(s, events).at.Ended? { EndedHasOffered(Run(s, events)); }
    if events != [] {
      var front := events[..|events| - 1];
      CloseEndsProducer(s, front);
      RunKeeps(s, front);
      CloseMakesProgress(Run(s, front), events[|events| - 1]);
    }
  }

  lemma EndedHasOffered(s: State)
    requires Inv(s) && s.at.Ended?
    ensures |s.made.offered| == 1
  {
    hide Accounts, Delivery, Calls, Texts, Pipe;
  }

  lemma RunSnoc(s: State, events: seq<Event>, e: Event)
    ensures Run(s, events + [e]) == Next(Run(s, events), e)
  {
    assert (events + [e])[..|events|] == events;
  }

  lemma RunNone(s: State)
    ensures Run(s, []) == s
  {
  }

  /** A run that leaves one token in a queue of one. */
  lemma FillQueue() returns (es: seq<Event>)
    ensures var s := Run(Init(1), es);
            && s.wire == Wire(1, 0, false, [], [Token("a")], false) && s.at == Top
            && s.out.closeAt == NotClosed && s.seen.refused == []
  {
    hide Run;
    var p, y := Producer(Finished(Stop)), Producer(Yielded("a"));
    es := [] + [p];
    RunNone(Init(1));
    RunSnoc(Init(1), [], p);
    RunSnoc(Init(1), es, p); es := es + [p];
    RunSnoc(Init(1), es, p); es := es + [p];
    RunSnoc(Init(1), es, p); es := es + [p];
    RunSnoc(Init(1), es, y); es := es + [y];
    RunSnoc(Init(1), es, p); es := es + [p];
    RunSnoc(Init(1), es, LoopCallback); es := es + [LoopCallback];
  }

  /** The exception in `StreamIsBounded` is real: a producer that meets the
      cancel flag at the top of its loop offers a terminal that a full queue
      refuses. */
  lemma CancelledTerminalCanBeRefused()
    ensures exists events: seq<Event> :: Run(Init(1), events).seen.refused == [Terminal(Cancelled, false)]
  {
    var es := FillQueue();
    var p := Producer(Finished(Stop));
    RunSnoc(Init(1), es, CloseBegin); es := es + [CloseBegin];
    RunSnoc(Init(1), es, p); es := es + [p];
    RunSnoc(Init(1), es, p); es := es + [p];
    RunSnoc(Init(1), es, LoopCallback); es := es + [LoopCallback];
    assert Run(Init(1), es).seen.refused == [Terminal(Cancelled, false)];
  }

  /** Room for a terminal in transit: the loop is gone, the queue is unbounded,
      or fewer tokens than its size are in flight. */
  predicate Room(s: State) { s.wire.loopGone || s.wire.max == 0 || TokensInFlight(s) < s.wire.max }

  /** Once the terminal is offered the pipeline only drains. */
  lemma PipeOnlyDrains(s: State, e: Event)
    requires Inv(s) && s.made.offered != [] && s.seen.refused == []
    ensures Next(s, e).made.offered == s.made.offered && Next(s, e).wire.max == s.wire.max
    ensures s.wire.loopGone ==> Next(s, e).wire.loopGone
    ensures Next(s, e).seen.refused == [] ==> TokensInFlight(Next(s, e)) <= TokensInFlight(s)
    ensures Room(s) ==> Next(s, e).seen.refused == []
  {
    hide Inv, Record, Texts, Items;
    OfferedAtEnd(s);
    match e {
      case Producer(reply) => QuietPipe(s, reply);
      case LoopCallback => CallbackDrains(s);
      case NextTake => if !s.wire.loopGone && s.out.pending && s.wire.queue != [] { TakePipe(s, TakeItem(s)); }
      case _ => assert Pipe(Next(s, e)) == Pipe(s);
    }
  }

  lemma CallbackDrains(s: State)
    requires Inv(s) && s.made.offered != [] && s.seen.refused == []
    ensures RunCallback(s).seen.refused == [] ==> Pipe(RunCallback(s)) == Pipe(s)
    ensures Room(s) ==> RunCallback(s).seen.refused == []
  {
    hide Pipe, Texts, Inv;
    if !s.wire.loopGone && s.wire.callbacks != [] {
      CallbackPipe(s);
      if s.wire.callbacks[0].Put? && s.wire.max > 0 && |s.wire.queue| >= s.wire.max {
        FullQueueHasNoRoom(s, s.wire.callbacks[0].item, Items(s.wire.callbacks[1..]));
      }
    }
  }

  lemma FullQueueHasNoRoom(s: State, item: Item, rest: seq<Item>)
    requires Inv(s) && Pipe(s) == s.wire.queue + [item] + rest && 0 < s.wire.max <= |s.wire.queue| && !s.wire.loopGone
    ensures !Room(s)
  {
    hide Inv;
    RefusedIsTerminal(s, item, rest);
  }

  lemma {:induction false} RoomLasts(s: State, events: seq<Event>)
    requires Inv(s) && s.made.offered != [] && s.seen.refused == [] && Room(s)
    ensures var t := Run(s, events); Inv(t) && t.made.offered != [] && t.seen.refused == [] && Room(t)
    decreases |events|
  {
    hide Inv, Next;
    if events != [] {
      var t, e := Run(s, events[..|events| - 1]), events[|events| - 1];
      RoomLasts(s, events[..|events| - 1]);
      PipeOnlyDrains(t, e);
      NextKeeps(t, e);
    }
  }

  lemma {:induction false} RunCons(s: State, e: Event, events: seq<Event>)
    ensures Run(s, [e] + events) == Run(Next(s, e), events)
    decreases |events|
  {
    hide Next;
    var all := [e] + events;
    if events == [] {
      assert all == [e] && all[..0] == [];
      assert Run(s, all) == Next(Run(s, []), e);
    } else {
      var n := |events| - 1;
      RunCons(s, e, events[..n]);
      assert all[..n + 1] == [e] + events[..n] && all[n + 1] == events[n];
    }
  }

  /** With the queue's worth of tokens in flight ahead of it, the terminal is
      refused if the consumer takes nothing while it lands. */
  lemma {:induction false} FullPipeRefuses(s: State) returns (events: seq<Event>)
    requires Inv(s) && !s.wire.loopGone && s.wire.max > 0 && s.made.offered != [] && s.seen.refused == []
    requires TokensInFlight(s) == s.wire.max && |Pipe(s)| == s.wire.max + 1
    ensures Run(s, events).seen.refused != []
    decreases |s.wire.callbacks|
  {
    assert s.wire.callbacks == [] ==> Pipe(s) == s.wire.queue;
    var t := Next(s, LoopCallback);
    CallbackDrains(s);
    NextKeeps(s, LoopCallback);
    if t.seen.refused != [] {
      events := [];
    } else {
      events := FullPipeRefuses(t);
    }
    RunCons(s, LoopCallback, events);
    events := [LoopCallback] + events;
  }

  /** When exactly a terminal can be refused: at the moment it is offered, it is
      safe against everything that may follow if and only if the loop is gone,
      the queue is unbounded, or fewer tokens than its size are in flight. */
  lemma TerminalIsSafeIffRoom(max: nat, before: seq<Event>, reply: Reply)
    requires Run(Init(max), before).at.OfferTerminal?
    ensures var s := Next(Run(Init(max), before), Producer(reply));
            (forall events :: Run(s, events).seen.refused == []) <==>
              s.wire.loopGone || s.wire.max == 0 || TokensInFlight(s) < s.wire.max
  {
    InitInv(max);
    RunKeeps(Init(max), before);
    var p := Run(Init(max), before);
    var s := Next(p, Producer(reply));
    JustOffered(p, reply);
    hide Inv, Run, Next;
    if Room(s) {
      forall events ensures Run(s, events).seen.refused == [] { RoomLasts(s, events); }
    } else {
      var events := FullPipeRefuses(s);
      assert Run(s, events).seen.refused != [];
    }
  }

  lemma JustOffered(p: State, reply: Reply)
    requires Inv(p) && p.at.OfferTerminal?
    ensures var s := Next(p, Producer(reply));
            && Inv(s) && s.made.offered != [] && s.seen.refused == []
            && (!s.wire.loopGone ==> TokensInFlight(s) <= s.wire.max && |Pipe(s)| == TokensInFlight(s) + 1)
  {
    var s := Next(p, Producer(reply));
    NextKeeps(p, Producer(reply));
    if !p.wire.loopGone { OfferPipe(p, s, Terminal(p.at.finish, p.at.failed)); }
  }

  // --------------------------------------------------------- how a stream ends

  /** A call of the producer thread into its generator. */
  datatype Call = Creates | Pulls | Closes

  datatype Called = Called(call: Call, reply: Reply)

  /** The call the producer's next block makes: it creates the generator first,
      resumes it with a permit in hand, and closes it where it sees the flag. */
  function CallOf(s: State, e: Event): Option<Called> {
    if !e.Producer? then None
    else if s.at.Create? then Some(Called(Creates, e.reply))
    else if s.at.Pull? then Some(Called(Pulls, e.reply))
    else if (s.at.Top? || s.at.Recheck?) && s.wire.cancel then Some(Called(Closes, e.reply))
    else None
  }

  /** The last call a run made into the generator. */
  function LastCall(s: State, events: seq<Event>): Option<Called> {
    if events == [] then None
    else
      var front, e := events[..|events| - 1], events[|events| - 1];
      var c := CallOf(Run(s, front), e);
      if c.Some? then c else LastCall(s, front)
  }

  /** After this call the generator yields nothing more. */
  predicate Final(c: Called) { c.call.Closes? || c.reply.Raised? || (c.call.Pulls? && c.reply.Finished?) }

  /** What the stream has to say about such an end: an error if the generator
      raised, cancelled if it was closed, and otherwise its own finish reason. */
  predicate Reports(item: Item, c: Called) {
    && item.Terminal? && (item.failed <==> c.reply.Raised?)
    && item.finish == (if c.reply.Raised? then Error
                       else if c.call.Closes? then Cancelled
                       else if c.reply.Finished? then c.reply.finish else Stop)
  }

  predicate Ending(at: ProducerAt) { at.OfferTerminal? || at.Announce? || at.Ended? }

  /** The producer is ending exactly when its generator is over, and the terminal
      it holds or has offered reports how. */
  predicate Told(s: State, last: Option<Called>) {
    && (Ending(s.at) <==> last.Some? && Final(last.value))
    && (s.at.OfferTerminal? ==> last.Some? && Reports(Terminal(s.at.finish, s.at.failed), last.value))
    && (s.made.offered != [] ==> last.Some? && Reports(s.made.offered[0], last.value))
  }

  lemma NextTells(s: State, e: Event, last: Option<Called>)
    requires Inv(s) && Told(s, last)
    ensures var c := CallOf(s, e); Told(Next(s, e), if c.Some? then c else last)
  {
    hide Inv, Record, ProducerStep;
    OfferedAtEnd(s);
    if e.Producer? { ProducerTells(s, e.reply, last); }
  }

  lemma ProducerTells(s: State, reply: Reply, last: Option<Called>)
    requires Inv(s) && Told(s, last)
    ensures var c := CallOf(s, Producer(reply)); Told(ProducerStep(s, reply), if c.Some? then c else last)
  {
    hide Inv;
    OfferedAtEnd(s);
  }

  lemma OfferedAtEnd(s: State)
    requires Inv(s)
    ensures |s.made.offered| == (if s.at.Announce? || s.at.Ended? then 1 else 0)
  {
    hide Accounts, Delivery, Calls, Texts, Pipe;
  }

  lemma {:induction false} RunTells(max: nat, events: seq<Event>)
    ensures Told(Run(Init(max), events), LastCall(Init(max), events))
    decreases |events|
  {
    hide Next, Inv;
    if events != [] {
      var front := events[..|events| - 1];
      RunTells(max, front);
      InitInv(max);
      RunKeeps(Init(max), front);
      NextTells(Run(Init(max), front), events[|events| - 1], LastCall(Init(max), front));
    }
  }

  /** In every interleaving the end of the stream is the end of its generator:
      a terminal is offered only after a call that ended it, says `error` and
      carries the failure exactly when that call raised, says `cancelled` when it
      was a close, and otherwise carries the generator's own finish reason; and
      so does the result, unless `aclose` recorded it as cancelled. */
  lemma EndIsReported(max: nat, events: seq<Event>)
    ensures var s, last := Run(Init(max), events), LastCall(Init(max), events);
            && (s.made.offered != [] ==>
                  last.Some? && Final(last.value) && Reports(s.made.offered[0], last.value))
            && (s.at.Ended? ==> |s.made.offered| == 1)
            && (s.out.result.Some? ==>
                  if s.seen.resultByClose then s.out.result.value.finish == Cancelled
                  else last.Some? && Final(last.value) && |s.made.offered| == 1
                       && Reports(Terminal(s.out.result.value.finish, s.made.offered[0].failed), last.value))
  {
    hide Run, Inv, LastCall, Init;
    RunTells(max, events);
    InitInv(max);
    RunKeeps(Init(max), events);
    var s := Run(Init(max), events);
    OfferedAtEnd(s);
    if s.out.result.Some? { ResultIsRecorded(s); }
  }

  lemma ResultIsRecorded(s: State)
    requires Inv(s) && s.out.result.Some?
    ensures if s.seen.resultByClose then s.out.result.value.finish == Cancelled
            else |s.made.offered| == 1 && s.made.offered[0].Terminal?
                 && s.out.result.value.finish == s.made.offered[0].finish
  {
    hide Accounts, Terminals, Calls, Texts, Pipe;
  }

  /** A close that is abandoned while it joins the thread records nothing and fires
      nothing, then or later; one that returns does both. */
  lemma AbandonedCloseRecordsNothing(s: State)
    requires s.out.closeAt == Joining && !s.wire.loopGone
    ensures var gone := Next(s, CloseAbandon);
            && gone.out == s.out.(closeAt := Abandoned) && gone.wire == s.wire && Next(gone, CloseReturn) == gone
            && Next(gone, CloseBegin) == gone
    ensures var done := Next(s, CloseReturn);
            && done.out.result.Some? && done.out.exhausted && done.out.doneFired
            && (s.out.result == None ==>
                  done.out.result == Some(GenResult(Join(s.out.parts), Cancelled, s.out.index)))
            && (s.out.result.Some? ==> done.out.result == s.out.result)
  {
    hide Join;
  }

  // ------------------------------------------------------------- no one hangs

  /** In every interleaving over a bounded queue: when the consumer has taken
      everything and nothing is in transit, the stream is over, or its terminal
      was refused after a cancellation, or the producer's next block moves on
      whatever its generator replies. Nobody waits for a blocked producer. */
  lemma ConsumerNeverHangs(max: nat, events: seq<Event>, reply: Reply)
    requires max > 0
    ensures var s := Run(Init(max), events);
            !s.wire.loopGone && s.wire.queue == [] && s.wire.callbacks == [] && !s.at.Ended? ==>
              Next(s, Producer(reply)).at != s.at
    ensures var s := Run(Init(max), events);
            !s.wire.loopGone && s.wire.queue == [] && s.wire.callbacks == [] && s.at.Ended? ==>
              s.seen.terminalTaken || (s.seen.refused != [] && s.made.byCancel)
  {
    InitInv(max);
    RunKeeps(Init(max), events);
    var s := Run(Init(max), events);
    hide Run;
    if !s.wire.loopGone && s.wire.queue == [] && s.wire.callbacks == [] { EmptyPipeMoves(s, reply); }
  }

  lemma EmptyPipeMoves(s: State, reply: Reply)
    requires Inv(s) && s.wire.max > 0 && !s.wire.loopGone && s.wire.queue == [] && s.wire.callbacks == []
    ensures !s.at.Ended? ==> ProducerStep(s, reply).at != s.at
    ensures s.at.Ended? ==> s.seen.terminalTaken || (s.seen.refused != [] && s.made.byCancel)
  {
    hide Delivery, Calls;
    assert Pipe(s) == [] && Texts(Pipe(s)) == [];
  }

  /** The backpressure counter counts exactly the times the producer came for a
      slot and found the buffer full. */
  lemma BackpressureIsExact(s: State, e: Event)
    requires Inv(s)
    ensures Next(s, e).waits
            == s.waits + (if e.Producer? && s.at.Reserve? && TokensInFlight(s) == s.wire.max && !Released(s)
                          then 1 else 0)
  {
    hide Terminals, Delivery, Calls, Record, Texts, Pipe;
  }

  // ------------------------------------------------------- an undisturbed run

  function Numbered(texts: seq<string>): (r: seq<Chunk>)
    ensures |r| == |texts| && forall i | 0 <= i < |r| :: r[i] == Chunk(texts[i], i)
  {
    seq(|texts|, i requires 0 <= i < |texts| => Chunk(texts[i], i))
  }

  /** Between two tokens, everything so far delivered. */
  function Delivered(max: nat, texts: seq<string>): State {
    State(Wire(max, max, false, [], [], false), Top, 0,
          Consumer(false, |texts|, texts, None, false, NotClosed, false),
          Made(texts, [], [], false, 0), Seen([], Numbered(texts), false, false, 0))
  }

  lemma {:induction false} RunAppend(s: State, a: seq<Event>, b: seq<Event>)
    ensures Run(s, a + b) == Run(Run(s, a), b)
    decreases |b|
  {
    hide Next;
    if b == [] {
      assert a + b == a;
    } else {
      RunAppend(s, a, b[..|b| - 1]);
      assert (a + b)[..|a + b| - 1] == a + b[..|b| - 1];
    }
  }

  /** One token goes all the way through. */
  lemma OneToken(max: nat, texts: seq<string>, text: string) returns (events: seq<Event>)
    requires max > 0
    ensures Run(Delivered(max, texts), events) == Delivered(max, texts + [text])
  {
    hide Run;
    var s, y := Delivered(max, texts), Producer(Yielded(text));
    events := [] + [y];
    RunNone(s);
    RunSnoc(s, [], y);
    RunSnoc(s, events, y); events := events + [y];
    RunSnoc(s, events, y); events := events + [y];
    RunSnoc(s, events, y); events := events + [y];
    RunSnoc(s, events, y); events := events + [y];
    RunSnoc(s, events, LoopCallback); events := events + [LoopCallback];
    RunSnoc(s, events, NextBegin); events := events + [NextBegin];
    RunSnoc(s, events, NextTake); events := events + [NextTake];
    assert Numbered(texts + [text]) == Numbered(texts) + [Chunk(text, |texts|)];
  }

  lemma FirstBlock(max: nat) returns (events: seq<Event>)
    ensures Run(Init(max), events) == Delivered(max, [])
  {
    var p := Producer(Yielded(""));
    events := [p];
    RunSnoc(Init(max), [], p);
    assert Numbered([]) == [];
  }

  lemma {:induction false} AllTokens(max: nat, texts: seq<string>) returns (events: seq<Event>)
    requires max > 0
    ensures Run(Init(max), events) == Delivered(max, texts)
    decreases |texts|
  {
    hide Run, Next, Init, Delivered, Numbered;
    if texts == [] {
      events := FirstBlock(max);
    } else {
      var n := |texts| - 1;
      events := AllTokens(max, texts[..n]);
      var more := OneToken(max, texts[..n], texts[n]);
      RunAppend(Init(max), events, more);
      events := events + more;
      assert texts[..n] + [texts[n]] == texts;
    }
  }

  /** Whatever the generator yields and however it ends, a consumer that keeps
      reading gets all of it: a run delivers every token in order and records
      their join, their count and the finish, or the failure, once. */
  lemma EverythingCanBeDelivered(max: nat, texts: seq<string>, last: Reply) returns (events: seq<Event>)
    requires max > 0 && !last.Yielded?
    ensures var s := Run(Init(max), events);
            && s.seen.chunks == Numbered(texts) && s.seen.terminalTaken && s.seen.doneCalls == 1 && s.at == Ended
            && s.out.result == Some(GenResult(Join(texts), if last.Raised? then Error else last.finish, |texts|))
            && s.made.offered == [if last.Raised? then Terminal(Error, true) else Terminal(last.finish, false)]
  {
    events := AllTokens(max, texts);
    var end := LastRound(max, texts, last);
    RunAppend(Init(max), events, end);
    events := events + end;
  }

  lemma LastRound(max: nat, texts: seq<string>, last: Reply) returns (events: seq<Event>)
    requires max > 0 && !last.Yielded?
    ensures var s := Run(Delivered(max, texts), events);
            && s.seen.chunks == Numbered(texts) && s.seen.terminalTaken && s.seen.doneCalls == 1 && s.at == Ended
            && s.out.result == Some(GenResult(Join(texts), if last.Raised? then Error else last.finish, |texts|))
            && s.made.offered == [if last.Raised? then Terminal(Error, true) else Terminal(last.finish, false)]
  {
    hide Numbered, Join, Run;
    var s, p := Delivered(max, texts), Producer(last);
    events := [] + [p];
    RunNone(s);
    RunSnoc(s, [], p);
    RunSnoc(s, events, p); events := events + [p];
    RunSnoc(s, events, p); events := events + [p];
    RunSnoc(s, events, p); events := events + [p];
    RunSnoc(s, events, p); events := events + [p];
    RunSnoc(s, events, p); events := events + [p];
    RunSnoc(s, events, LoopCallback); events := events + [LoopCallback];
    RunSnoc(s, events, NextBegin); events := events + [NextBegin];
    RunSnoc(s, events, NextTake); events := events + [NextTake];
  }
}
