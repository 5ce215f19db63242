/** The per-client event log, its in-process wakeup, and the resumable stream
    over them (engine/billing/client_events.py, engine/api/client_router.py;
    section 9.2 "Server-sent events" of the WHATWG HTML Standard). */
module ClientEvents {
  import opened Basics

  datatype Row = Row(client: string, eventId: string, payload: string, ts: real)

  /** What one server-sent frame carries: the row and the id a client resumes from. */
  datatype Frame = Frame(id: int, row: Row)

  type Table = map<int, Row>

  /** `next` is the autoincrement counter: never reused, even after deletes. */
  datatype Log = Log(rows: Table, next: int)

  /** Zero or less switches a limit off. */
  datatype Retention = Retention(maxAge: real, maxPerClient: int)

  // ---------------------------------------------------------------- queries

  predicate ValidLog(log: Log) { log.next >= 1 && forall k | k in log.rows :: 1 <= k < log.next }

  predicate Visible(rows: Table, client: string, k: int) { k in rows && rows[k].client == client }

  /** The client's rows with `lo` < id <= `hi`, by increasing id. */
  function Pick(rows: Table, client: string, lo: int, hi: int): seq<Frame>
    decreases hi - lo
  {
    if hi <= lo then []
    else Pick(rows, client, lo, hi - 1) + (if Visible(rows, client, hi) then [Frame(hi, rows[hi])] else [])
  }

  const BATCH := 200

  function Since(log: Log, client: string, cursor: int): seq<Frame> { Pick(log.rows, client, cursor, log.next - 1) }

  /** `list_since(client, cursor, limit=200)`. */
  function ListSince(log: Log, client: string, cursor: int): seq<Frame> {
    var all := Since(log, client, cursor);
    if |all| <= BATCH then all else all[..BATCH]
  }

  /** A client that resumes from where it stopped sees what it would have seen
      without stopping. */
  lemma {:induction false} PickSplits(rows: Table, client: string, lo: int, mid: int, hi: int)
    requires lo <= mid <= hi
    ensures Pick(rows, client, lo, mid) + Pick(rows, client, mid, hi) == Pick(rows, client, lo, hi)
    decreases hi - mid
  {
    if mid < hi { PickSplits(rows, client, lo, mid, hi - 1); }
  }

  lemma {:induction false} PickFinds(rows: Table, client: string, lo: int, hi: int, k: int)
    requires lo < k <= hi && Visible(rows, client, k)
    ensures Frame(k, rows[k]) in Pick(rows, client, lo, hi)
    decreases hi - lo
  {
    if k < hi { PickFinds(rows, client, lo, hi - 1, k); }
  }

  lemma {:induction false} PickIsSelection(rows: Table, client: string, lo: int, hi: int)
    ensures forall f | f in Pick(rows, client, lo, hi) ::
              lo < f.id <= hi && Visible(rows, client, f.id) && f.row == rows[f.id]
    decreases hi - lo
  {
    if lo < hi { PickIsSelection(rows, client, lo, hi - 1); }
  }

  predicate Increasing(frames: seq<Frame>) { forall i, j | 0 <= i < j < |frames| :: frames[i].id < frames[j].id }

  lemma {:induction false} PickIncreases(rows: Table, client: string, lo: int, hi: int)
    ensures Increasing(Pick(rows, client, lo, hi))
    decreases hi - lo
  {
    if lo < hi {
      PickIncreases(rows, client, lo, hi - 1);
      PickIsSelection(rows, client, lo, hi - 1);
      var front := Pick(rows, client, lo, hi - 1);
      assert forall i | 0 <= i < |front| :: front[i] in front;
    }
  }

  /** Cutting the answer after its i-th frame is cutting the table at that frame's id. */
  lemma {:induction false} PickCuts(rows: Table, client: string, lo: int, hi: int, i: nat)
    requires i < |Pick(rows, client, lo, hi)|
    ensures var all := Pick(rows, client, lo, hi);
            && lo < all[i].id <= hi
            && Pick(rows, client, lo, all[i].id) == all[..i + 1]
            && Pick(rows, client, all[i].id, hi) == all[i + 1..]
    decreases hi - lo
  {
    var front := Pick(rows, client, lo, hi - 1);
    if i < |front| {
      PickCuts(rows, client, lo, hi - 1, i);
    } else {
      assert Pick(rows, client, lo, hi)[i].id == hi;
    }
  }

  predicate Agree(a: Table, b: Table, client: string, k: int) {
    (Visible(a, client, k) <==> Visible(b, client, k)) && (Visible(a, client, k) ==> a[k] == b[k])
  }

  lemma {:induction false} PickAgrees(a: Table, b: Table, client: string, lo: int, hi: int)
    requires forall k | lo < k <= hi :: Agree(a, b, client, k)
    ensures Pick(a, client, lo, hi) == Pick(b, client, lo, hi)
    decreases hi - lo
  {
    if lo < hi {
      PickAgrees(a, b, client, lo, hi - 1);
      assert Agree(a, b, client, hi);
    }
  }

  // ----------------------------------------------------------- append, prune

  predicate Recorded(rows: Table, client: string, eventId: string) {
    exists k | k in rows :: rows[k].client == client && rows[k].eventId == eventId
  }

  predicate Expired(row: Row, client: string, cutoff: real) { row.client == client && row.ts < cutoff }

  function DropOld(rows: Table, client: string, cutoff: real): Table {
    map k | k in rows && !Expired(rows[k], client, cutoff) :: rows[k]
  }

  /** The client's newest `n` rows. */
  function Newest(rows: Table, client: string, hi: int, n: nat): seq<Frame> {
    var all := Pick(rows, client, 0, hi);
    if |all| <= n then all else all[|all| - n..]
  }

  function KeepNewest(rows: Table, client: string, hi: int, n: nat): Table {
    var kept := set f | f in Newest(rows, client, hi, n) :: f.id;
    map k | k in rows && (rows[k].client != client || k in kept) :: rows[k]
  }

  function Prune(log: Log, client: string, now: real, keep: Retention): Log {
    var young := if keep.maxAge > 0.0 then DropOld(log.rows, client, now - keep.maxAge) else log.rows;
    log.(rows := if keep.maxPerClient > 0 then KeepNewest(young, client, log.next - 1, keep.maxPerClient) else young)
  }

  function Inserted(log: Log, row: Row): Log { Log(log.rows[log.next := row], log.next + 1) }

  /** `append`: the new id, or None when the event was already recorded. */
  function Appended(log: Log, row: Row, keep: Retention): (Log, Option<int>) {
    if Recorded(log.rows, row.client, row.eventId) then (log, None)
    else (Prune(Inserted(log, row), row.client, row.ts, keep), Some(log.next))
  }

  /** The newest rows are those above some id. */
  lemma NewestIsSuffix(rows: Table, client: string, hi: int, n: nat) returns (cut: int)
    requires hi >= 0
    ensures 0 <= cut <= hi && Newest(rows, client, hi, n) == Pick(rows, client, cut, hi)
  {
    hide Pick;
    var all := Pick(rows, client, 0, hi);
    if |all| <= n { return 0; }
    PickCuts(rows, client, 0, hi, |all| - n - 1);
    cut := all[|all| - n - 1].id;
  }

  lemma KeptAboveCut(rows: Table, client: string, hi: int, n: nat, cut: int, k: int)
    requires Newest(rows, client, hi, n) == Pick(rows, client, cut, hi) && 0 < k <= hi
    ensures Agree(KeepNewest(rows, client, hi, n), if k <= cut then map[] else rows, client, k)
  {
    PickIsSelection(rows, client, cut, hi);
    if cut < k && Visible(rows, client, k) { PickFinds(rows, client, cut, hi, k); }
  }

  /** Trimming to the newest `n` leaves the client exactly those, in order. */
  lemma KeepNewestIsExact(rows: Table, client: string, hi: int, n: nat)
    requires hi >= 0
    ensures Pick(KeepNewest(rows, client, hi, n), client, 0, hi) == Newest(rows, client, hi, n)
  {
    hide *;
    var after := KeepNewest(rows, client, hi, n);
    var cut := NewestIsSuffix(rows, client, hi, n);
    PickSplits(after, client, 0, cut, hi);
    forall k | 0 < k <= cut ensures Agree(after, map[], client, k) { KeptAboveCut(rows, client, hi, n, cut, k); }
    PickAgrees(after, map[], client, 0, cut);
    EmptyPick(client, 0, cut);
    forall k | cut < k <= hi ensures Agree(after, rows, client, k) { KeptAboveCut(rows, client, hi, n, cut, k); }
    PickAgrees(after, rows, client, cut, hi);
  }

  lemma {:induction false} EmptyPick(client: string, lo: int, hi: int)
    ensures Pick(map[], client, lo, hi) == []
    decreases hi - lo
  {
    if lo < hi { EmptyPick(client, lo, hi - 1); }
  }

  /** The newest row is among the newest. */
  lemma NewestHasLast(rows: Table, client: string, hi: int, n: nat)
    requires n > 0 && hi > 0 && Visible(rows, client, hi)
    ensures Frame(hi, rows[hi]) in Newest(rows, client, hi, n)
  {
    var all := Pick(rows, client, 0, hi);
    assert all[|all| - 1] == Frame(hi, rows[hi]);
    var newest := Newest(rows, client, hi, n);
    assert newest[|newest| - 1] == Frame(hi, rows[hi]);
  }

  /** `after` lost only rows of `client`. */
  ghost predicate Trimmed(after: Table, before: Table, client: string) {
    && (forall k | k in after :: k in before && after[k] == before[k])
    && (forall k | k in before && before[k].client != client :: k in after)
  }

  lemma DropOldTrims(log: Log, client: string, now: real, maxAge: real)
    requires maxAge > 0.0
    ensures var young := DropOld(log.rows, client, now - maxAge);
            && Trimmed(young, log.rows, client)
            && (forall k | Visible(young, client, k) :: young[k].ts >= now - maxAge)
            && (forall k | k in log.rows && log.rows[k].ts >= now :: k in young)
  {
  }

  lemma KeepNewestTrims(rows: Table, client: string, hi: int, n: nat)
    requires n > 0 && hi > 0 && Visible(rows, client, hi)
    ensures var after := KeepNewest(rows, client, hi, n);
            && Trimmed(after, rows, client) && hi in after
            && |Pick(after, client, 0, hi)| <= n
  {
    KeepNewestIsExact(rows, client, hi, n);
    NewestHasLast(rows, client, hi, n);
    hide Pick;
  }

  /** Retention meets both limits, never takes the row just appended, and
      leaves other clients alone. */
  lemma AppendIsRetained(log: Log, row: Row, keep: Retention)
    requires ValidLog(log) && !Recorded(log.rows, row.client, row.eventId)
    ensures var (after, id) := Appended(log, row, keep);
            && ValidLog(after) && id == Some(log.next) && after.next == log.next + 1
            && log.next in after.rows && Trimmed(after.rows, log.rows[log.next := row], row.client)
            && (keep.maxPerClient > 0 ==> |Since(after, row.client, 0)| <= keep.maxPerClient)
            && (keep.maxAge > 0.0 ==>
                  forall k | Visible(after.rows, row.client, k) :: after.rows[k].ts >= row.ts - keep.maxAge)
  {
    var full := Inserted(log, row);
    var young := if keep.maxAge > 0.0 then DropOld(full.rows, row.client, row.ts - keep.maxAge) else full.rows;
    var after := Appended(log, row, keep).0;
    var trimmed := KeepNewest(young, row.client, log.next, if keep.maxPerClient > 0 then keep.maxPerClient else 0);
    assert after == full.(rows := if keep.maxPerClient > 0 then trimmed else young);
    if keep.maxAge > 0.0 { DropOldTrims(full, row.client, row.ts, keep.maxAge); }
    hide KeepNewest, DropOld, Pick, Prune, Appended, Recorded;
    assert Trimmed(young, full.rows, row.client) && log.next in young;
    if keep.maxPerClient > 0 { KeepNewestTrims(young, row.client, log.next, keep.maxPerClient); }
  }

  /** Recording the same event again changes nothing, whatever the retention. */
  lemma AppendIsIdempotent(log: Log, row: Row, again: Row, keep: Retention)
    requires ValidLog(log) && again.client == row.client && again.eventId == row.eventId
    ensures var after := Appended(log, row, keep).0; Appended(after, again, keep) == (after, None)
  {
    if !Recorded(log.rows, row.client, row.eventId) {
      AppendIsRetained(log, row, keep);
      var after := Appended(log, row, keep).0;
      assert log.next in after.rows;
    }
  }

  /** An event is refused exactly when the same client already recorded one of
      that id; any other gets the next id, whatever other clients recorded. */
  lemma AppendIsExact(log: Log, row: Row, keep: Retention)
    ensures var (after, id) := Appended(log, row, keep);
            if exists k | k in log.rows :: log.rows[k].client == row.client && log.rows[k].eventId == row.eventId
            then id == None && after == log
            else id == Some(log.next) && after.next == log.next + 1
  {
  }

  /** The client's rows above `k` that the age limit leaves. */
  ghost function Newer(full: Table, client: string, now: real, maxAge: real, k: int): set<int> {
    set j | j in full && k < j && full[j].client == client && (maxAge <= 0.0 || full[j].ts >= now - maxAge)
  }

  function Ids(rows: Table, client: string, lo: int, hi: int): set<int> {
    set j | lo < j <= hi && Visible(rows, client, j)
  }

  lemma {:induction false} PickCounts(rows: Table, client: string, lo: int, hi: int)
    ensures |Pick(rows, client, lo, hi)| == |Ids(rows, client, lo, hi)|
    decreases hi - lo
  {
    if lo < hi {
      PickCounts(rows, client, lo, hi - 1);
      assert Ids(rows, client, lo, hi)
             == Ids(rows, client, lo, hi - 1) + (if Visible(rows, client, hi) then {hi} else {});
    } else {
      assert Ids(rows, client, lo, hi) == {};
    }
  }

  /** Trimming keeps a row of the client exactly when fewer than `n` of its rows are newer. */
  lemma KeptIffFewNewer(rows: Table, client: string, hi: int, n: nat, k: int)
    requires 0 < k <= hi && Visible(rows, client, k)
    ensures k in KeepNewest(rows, client, hi, n) <==> |Pick(rows, client, k, hi)| < n
  {
    var all, newer := Pick(rows, client, 0, hi), Pick(rows, client, k, hi);
    PickSplits(rows, client, 0, k, hi);
    var upto := Pick(rows, client, 0, k);
    assert upto[|upto| - 1] == Frame(k, rows[k]) && all == upto + newer;
    PickIncreases(rows, client, 0, hi);
    hide Pick;
    var i, newest := |upto| - 1, Newest(rows, client, hi, n);
    assert all[i].id == k;
    if |newer| < n {
      assert newest[i - (|all| - |newest|)] == all[i];
      assert Frame(k, rows[k]) in newest;
    } else {
      forall f | f in newest ensures f.id != k {
        var j :| 0 <= j < |newest| && newest[j] == f;
        assert f == all[|all| - |newest| + j] && i < |all| - |newest| + j;
      }
    }
  }

  /** Retention, exactly: after an append another client's rows are all there; a
      row of the client is there if and only if the age limit leaves it and
      fewer rows of the client than its count limit, that the age limit leaves
      too, are newer. Zero or less is no limit. */
  lemma RetentionIsExact(log: Log, row: Row, keep: Retention, k: int)
    requires ValidLog(log) && !Recorded(log.rows, row.client, row.eventId)
    ensures var after, full := Appended(log, row, keep).0.rows, log.rows[log.next := row];
            && (k in after <==>
                  k in full
                  && (full[k].client == row.client ==>
                        && (keep.maxAge <= 0.0 || full[k].ts >= row.ts - keep.maxAge)
                        && (keep.maxPerClient <= 0 ||
                            |Newer(full, row.client, row.ts, keep.maxAge, k)| < keep.maxPerClient)))
            && (k in after ==> after[k] == full[k])
  {
    hide Pick, KeepNewest, Recorded, Appended;
    var full, hi := log.rows[log.next := row], log.next;
    var young := Young(full, row.client, row.ts, keep.maxAge);
    PrunedIsTrimmed(log, row, keep);
    YoungIsExact(full, row.client, row.ts, keep.maxAge);
    if keep.maxPerClient > 0 {
      OthersAreKept(young, row.client, hi, keep.maxPerClient, k);
      if Visible(young, row.client, k) {
        assert Newer(full, row.client, row.ts, keep.maxAge, k) == Ids(young, row.client, k, hi);
        PickCounts(young, row.client, k, hi);
        KeptIffFewNewer(young, row.client, hi, keep.maxPerClient, k);
      }
    }
  }

  function Young(full: Table, client: string, now: real, maxAge: real): Table {
    if maxAge > 0.0 then DropOld(full, client, now - maxAge) else full
  }

  lemma YoungIsExact(full: Table, client: string, now: real, maxAge: real)
    ensures var young := Young(full, client, now, maxAge);
            forall j :: && (j in young <==>
                              j in full && (full[j].client == client ==> maxAge <= 0.0 || full[j].ts >= now - maxAge))
                        && (j in young ==> young[j] == full[j])
  {
  }

  lemma PrunedIsTrimmed(log: Log, row: Row, keep: Retention)
    requires !Recorded(log.rows, row.client, row.eventId)
    ensures var young := Young(log.rows[log.next := row], row.client, row.ts, keep.maxAge);
            Appended(log, row, keep).0.rows
            == if keep.maxPerClient > 0 then KeepNewest(young, row.client, log.next, keep.maxPerClient) else young
  {
    hide KeepNewest;
  }

  lemma OthersAreKept(rows: Table, client: string, hi: int, n: nat, k: int)
    ensures k in rows && rows[k].client != client ==> k in KeepNewest(rows, client, hi, n)
    ensures k in KeepNewest(rows, client, hi, n) ==> k in rows && KeepNewest(rows, client, hi, n)[k] == rows[k]
  {
    hide Newest;
  }

  // ------------------------------------------------------------- the stream

  /** `history` is every row that was in the table when the stream opened or
      was appended since; `lost` are the ids deleted before the stream read
      them. `gen` counts the notifications of the stream's client and `pending`
      its appends whose notification is still to come. */
  datatype World = World(log: Log, history: Table, lost: set<int>, gen: nat, pending: nat)

  datatype Pc = Top | Captured | Emitting | Waiting | Ended

  /** `batch` are the frames read and not yet sent; `found` how many rows the
      last read could have returned without its limit. The captured wakeup is
      the one that notification number `waiter` + 1 sets. */
  datatype Stream = Stream(client: string, start: int, pc: Pc, cursor: int, batch: seq<Frame>, waiter: nat,
                           found: nat, emitted: seq<Frame>)

  datatype State = State(world: World, stream: Stream)

  datatype Event =
    | Emit(row: Row)     // `append` by any producer
    | Notify             // the `notify` that follows it
    | Capture            // waiter = notifier.event(client_id)
    | Read               // log.list_since(...)
    | Send               // yield one frame, advance the cursor
    | Connected          // not disconnected: start to wait
    | Disconnect
    | Wake               // the captured wakeup is set
    | Heartbeat          // the wait timed out

  function Open(log: Log, client: string, start: int, gen: nat, pending: nat): State {
    State(World(log, log.rows, {}, gen, pending), Stream(client, start, Top, start, [], 0, 0, []))
  }

  /** The last id the stream has read. */
  function Frontier(s: Stream): int { if s.batch == [] then s.cursor else s.batch[|s.batch| - 1].id }

  /** The rows of the stream's client that an append deletes before they were read. */
  function Missed(before: Table, after: Table, client: string, frontier: int): set<int> {
    set k | k in before && before[k].client == client && k > frontier && k !in after
  }

  function EmitStep(s: State, row: Row, keep: Retention): State {
    var w := s.world;
    var (log, id) := Appended(w.log, row, keep);
    if id.None? then s
    else
      s.(world := World(log, w.history[w.log.next := row],
                        w.lost + Missed(Inserted(w.log, row).rows, log.rows, s.stream.client, Frontier(s.stream)),
                        w.gen, if row.client == s.stream.client then w.pending + 1 else w.pending))
  }

  function ReadStep(s: State): State {
    var t := s.stream;
    s.(stream := t.(pc := Emitting, batch := ListSince(s.world.log, t.client, t.cursor),
                    found := |Since(s.world.log, t.client, t.cursor)|))
  }

  function SendStep(s: State): State
    requires s.stream.batch != []
  {
    var t := s.stream;
    s.(stream := t.(cursor := t.batch[0].id, batch := t.batch[1..], emitted := t.emitted + [t.batch[0]]))
  }

  function Next(s: State, e: Event, keep: Retention): State {
    var w, t := s.world, s.stream;
    match e
    case Emit(row) => EmitStep(s, row, keep)
    case Notify => if w.pending > 0 then s.(world := w.(pending := w.pending - 1, gen := w.gen + 1)) else s
    case Capture => if t.pc.Top? then s.(stream := t.(pc := Captured, waiter := w.gen)) else s
    case Read => if t.pc.Captured? then ReadStep(s) else s
    case Send => if t.pc.Emitting? && t.batch != [] then SendStep(s) else s
    case Connected => if t.pc.Emitting? && t.batch == [] then s.(stream := t.(pc := Waiting)) else s
    case Disconnect => s.(stream := t.(pc := Ended))
    case Wake => if t.pc.Waiting? && w.gen > t.waiter then s.(stream := t.(pc := Top)) else s
    case Heartbeat => if t.pc.Waiting? then s.(stream := t.(pc := Top)) else s
  }

  function Run(s: State, events: seq<Event>, keep: Retention): State {
    if events == [] then s else Next(Run(s, events[..|events| - 1], keep), events[|events| - 1], keep)
  }

  // -------------------------------------------------------------- invariant

  ghost predicate WorldOk(w: World) {
    && ValidLog(w.log)
    && (forall k | k in w.log.rows :: k in w.history && w.history[k] == w.log.rows[k])
    && (forall k | k in w.history || k in w.lost :: k < w.log.next)
  }

  /** What was sent and what is about to be are the rows up to the frontier. */
  predicate Delivered(s: State) {
    var t, kept, f := s.stream, s.world.history - s.world.lost, Frontier(s.stream);
    && t.start <= t.cursor <= f && (f == t.start || f < s.world.log.next)
    && t.emitted == Pick(kept, t.client, t.start, t.cursor)
    && t.batch == Pick(kept, t.client, t.cursor, f)
    && (t.batch != [] ==> t.pc.Emitting? || t.pc.Ended?)
  }

  /** Beyond the frontier the table holds everything that was not deleted unread. */
  ghost predicate Complete(s: State) {
    forall k | k > Frontier(s.stream) :: Agree(s.world.log.rows, s.world.history - s.world.lost, s.stream.client, k)
  }

  ghost predicate Unread(s: State) {
    exists k :: k > Frontier(s.stream) && Visible(s.world.log.rows, s.stream.client, k)
  }

  /** An unread row that the last read did not leave behind has a notification coming. */
  ghost predicate Signalled(s: State) {
    var t, w := s.stream, s.world;
    && t.waiter <= w.gen
    && ((t.pc.Emitting? || t.pc.Waiting?) && t.found <= BATCH && w.gen == t.waiter && Unread(s) ==> w.pending > 0)
  }

  ghost predicate Inv(s: State) { WorldOk(s.world) && Delivered(s) && Complete(s) && Signalled(s) }

  lemma EmitKeepsWorld(s: State, row: Row, keep: Retention)
    requires Inv(s)
    ensures WorldOk(EmitStep(s, row, keep).world) && Complete(EmitStep(s, row, keep))
  {
    if !Recorded(s.world.log.rows, row.client, row.eventId) {
      AppendIsRetained(s.world.log, row, keep);
      var t, u := s.stream, EmitStep(s, row, keep);
      var full := Inserted(s.world.log, row).rows;
      assert Trimmed(u.world.log.rows, full, row.client);
      assert u.world.lost == s.world.lost + Missed(full, u.world.log.rows, t.client, Frontier(t));
      assert u.world.history == s.world.history[s.world.log.next := row];
      assert u.stream == t;
      hide Appended, EmitStep, Recorded, Pick, Since;
      forall k | k > Frontier(t) ensures Agree(u.world.log.rows, u.world.history - u.world.lost, t.client, k) {
        assert Agree(s.world.log.rows, s.world.history - s.world.lost, t.client, k);
      }
    }
  }

  lemma EmitKeepsDelivered(s: State, row: Row, keep: Retention)
    requires Inv(s)
    ensures Delivered(EmitStep(s, row, keep)) && Signalled(EmitStep(s, row, keep))
  {
    if !Recorded(s.world.log.rows, row.client, row.eventId) {
      AppendIsRetained(s.world.log, row, keep);
      var t, u, f := s.stream, EmitStep(s, row, keep), Frontier(s.stream);
      var full := Inserted(s.world.log, row).rows;
      var a, b := s.world.history - s.world.lost, u.world.history - u.world.lost;
      assert Trimmed(u.world.log.rows, full, row.client);
      assert u.world.lost == s.world.lost + Missed(full, u.world.log.rows, t.client, f);
      assert u.world.history == s.world.history[s.world.log.next := row];
      assert u.stream == t && u.world.log.next == s.world.log.next + 1 && u.world.gen == s.world.gen;
      assert u.world.pending == if row.client == t.client then s.world.pending + 1 else s.world.pending;
      hide Appended, EmitStep, Recorded, Pick, Since;
      forall k | t.start < k <= f ensures Agree(a, b, t.client, k) { }
      PickAgrees(a, b, t.client, t.start, t.cursor);
      PickAgrees(a, b, t.client, t.cursor, f);
      if Unread(u) && row.client != t.client {
        var k :| k > f && Visible(u.world.log.rows, t.client, k);
        assert Visible(s.world.log.rows, t.client, k);
      }
    }
  }

  /** A read takes the unread rows in order, and leaves some behind exactly
      when there are more than one batch. */
  lemma ReadTakesPrefix(log: Log, client: string, cursor: int)
    ensures var batch, all := ListSince(log, client, cursor), Since(log, client, cursor);
            var f := if batch == [] then cursor else batch[|batch| - 1].id;
            && cursor <= f && (batch != [] ==> f < log.next)
            && batch == Pick(log.rows, client, cursor, f)
            && all == batch + Since(log, client, f)
            && (Since(log, client, f) == [] <==> |all| <= BATCH)
  {
    var batch, all := ListSince(log, client, cursor), Since(log, client, cursor);
    if batch != [] {
      PickCuts(log.rows, client, cursor, log.next - 1, |batch| - 1);
      assert batch[|batch| - 1] == all[|batch| - 1];
    }
  }

  lemma ReadKeeps(s: State)
    requires Inv(s) && s.stream.pc.Captured?
    ensures Inv(ReadStep(s))
  {
    var t, u := s.stream, ReadStep(s);
    var f, kept := Frontier(u.stream), s.world.history - s.world.lost;
    ReadTakesPrefix(s.world.log, t.client, t.cursor);
    PickAgrees(s.world.log.rows, kept, t.client, t.cursor, f);
    if u.stream.found <= BATCH {
      forall k | k > f && Visible(s.world.log.rows, t.client, k) ensures false {
        PickFinds(s.world.log.rows, t.client, f, s.world.log.next - 1, k);
      }
    }
  }

  lemma SendKeeps(s: State)
    requires Inv(s) && s.stream.batch != []
    ensures Inv(SendStep(s))
  {
    var t, f, kept := s.stream, Frontier(s.stream), s.world.history - s.world.lost;
    var id := t.batch[0].id;
    PickCuts(kept, t.client, t.cursor, f, 0);
    PickSplits(kept, t.client, t.start, t.cursor, id);
    assert Frontier(SendStep(s).stream) == f;
    assert t.batch[..1] == [t.batch[0]];
  }

  lemma NextKeeps(s: State, e: Event, keep: Retention)
    requires Inv(s)
    ensures Inv(Next(s, e, keep))
  {
    match e {
      case Emit(row) => EmitKeepsWorld(s, row, keep); EmitKeepsDelivered(s, row, keep);
      case Read => if s.stream.pc.Captured? { ReadKeeps(s); }
      case Send => if s.stream.pc.Emitting? && s.stream.batch != [] { SendKeeps(s); }
      case _ =>
    }
  }

  lemma {:induction false} RunKeeps(s: State, events: seq<Event>, keep: Retention)
    requires Inv(s)
    ensures Inv(Run(s, events, keep))
    decreases |events|
  {
    if events != [] {
      RunKeeps(s, events[..|events| - 1], keep);
      NextKeeps(Run(s, events[..|events| - 1], keep), events[|events| - 1], keep);
    }
  }

  lemma {:induction false} RunKeepsOpening(s: State, events: seq<Event>, keep: Retention)
    ensures Run(s, events, keep).stream.start == s.stream.start
    ensures Run(s, events, keep).stream.client == s.stream.client
    ensures keep.maxAge <= 0.0 && keep.maxPerClient <= 0 && s.world.lost == {}
            && s.world.history == s.world.log.rows ==>
              var w := Run(s, events, keep).world; w.lost == {} && w.history == w.log.rows
    decreases |events|
  {
    if events != [] { RunKeepsOpening(s, events[..|events| - 1], keep); }
  }

  // ---------------------------------------------------------------- theorems

  /** In every run a stream has sent exactly the rows of its client above the
      starting cursor and up to its current one, in id order and once each,
      except those deleted before it read them. */
  lemma StreamIsExact(log: Log, client: string, start: int, gen: nat, pending: nat, events: seq<Event>, keep: Retention)
    requires ValidLog(log)
    ensures var s := Run(Open(log, client, start, gen, pending), events, keep);
            && s.stream.emitted == Pick(s.world.history - s.world.lost, client, start, s.stream.cursor)
            && Increasing(s.stream.emitted)
            && (forall f | f in s.stream.emitted :: f.id > start && f.row.client == client && f.id !in s.world.lost)
  {
    OpenIsOk(log, client, start, gen, pending);
    var s0 := Open(log, client, start, gen, pending);
    RunKeeps(s0, events, keep);
    RunKeepsOpening(s0, events, keep);
    var s := Run(s0, events, keep);
    PickIncreases(s.world.history - s.world.lost, client, start, s.stream.cursor);
    PickIsSelection(s.world.history - s.world.lost, client, start, s.stream.cursor);
  }

  lemma OpenIsOk(log: Log, client: string, start: int, gen: nat, pending: nat)
    requires ValidLog(log)
    ensures Inv(Open(log, client, start, gen, pending))
  {
    var s := Open(log, client, start, gen, pending);
    assert s.world.history - s.world.lost == log.rows;
  }

  /** With retention off nothing is ever missed. */
  lemma StreamWithoutRetentionIsWhole(log: Log, client: string, start: int, gen: nat, pending: nat,
                                      events: seq<Event>, keep: Retention)
    requires ValidLog(log) && keep.maxAge <= 0.0 && keep.maxPerClient <= 0
    ensures var s := Run(Open(log, client, start, gen, pending), events, keep);
            s.stream.emitted == Pick(s.world.log.rows, client, start, s.stream.cursor)
  {
    StreamIsExact(log, client, start, gen, pending, events, keep);
    RunKeepsOpening(Open(log, client, start, gen, pending), events, keep);
    var w := Run(Open(log, client, start, gen, pending), events, keep).world;
    assert w.history - w.lost == w.log.rows;
  }

  /** A stream that waits on a wakeup nobody has set, after a read that fitted
      in one batch, has nothing unread unless a notification is on its way. */
  lemma NoWakeupIsLost(log: Log, client: string, start: int, gen: nat, pending: nat, events: seq<Event>,
                       keep: Retention)
    requires ValidLog(log)
    ensures var s := Run(Open(log, client, start, gen, pending), events, keep);
            s.stream.pc.Waiting? && s.stream.found <= BATCH && s.world.gen <= s.stream.waiter
                && s.world.pending == 0 ==>
              Since(s.world.log, client, s.stream.cursor) == []
  {
    hide Inv, Since;
    OpenIsOk(log, client, start, gen, pending);
    var s0 := Open(log, client, start, gen, pending);
    RunKeeps(s0, events, keep);
    RunKeepsOpening(s0, events, keep);
    hide Run;
    var s := Run(s0, events, keep);
    if s.stream.pc.Waiting? && s.stream.found <= BATCH && s.world.gen <= s.stream.waiter && s.world.pending == 0 {
      SleeperHasReadAll(s);
    }
  }

  lemma SleeperHasReadAll(s: State)
    requires Inv(s) && s.stream.pc.Waiting? && s.stream.found <= BATCH && s.world.gen <= s.stream.waiter
             && s.world.pending == 0
    ensures Since(s.world.log, s.stream.client, s.stream.cursor) == []
  {
    hide Pick;
    var rows, last := s.world.log.rows, s.world.log.next - 1;
    assert Frontier(s.stream) == s.stream.cursor && !Unread(s);
    forall k | s.stream.cursor < k <= last ensures Agree(rows, map[], s.stream.client, k) { }
    PickAgrees(rows, map[], s.stream.client, s.stream.cursor, last);
    EmptyPick(s.stream.client, s.stream.cursor, last);
  }

  function Sends(n: nat): seq<Event> { seq(n, _ => Send) }

  /** One pass of the loop, undisturbed. */
  function Pass(s: State): seq<Event> {
    [Capture, Read] + Sends(|ListSince(s.world.log, s.stream.client, s.stream.cursor)|) + [Connected]
  }

  lemma {:induction false} SendsDrain(s: State, before: seq<Event>, n: nat, keep: Retention)
    requires var t := Run(s, before, keep).stream; t.pc.Emitting? && n <= |t.batch|
    ensures var r, u := Run(s, before, keep), Run(s, before + Sends(n), keep);
            && u.world == r.world
            && u.stream == r.stream.(batch := r.stream.batch[n..], emitted := r.stream.emitted + r.stream.batch[..n],
                                     cursor := if n == 0 then r.stream.cursor else r.stream.batch[n - 1].id)
  {
    hide Next, Run, Pick;
    if n == 0 {
      assert before + Sends(0) == before;
    } else {
      SendsDrain(s, before, n - 1, keep);
      assert before + Sends(n) == before + Sends(n - 1) + [Send];
      RunSnoc(s, before + Sends(n - 1), Send, keep);
      SendIsStep(Run(s, before + Sends(n - 1), keep), keep);
      var r := Run(s, before, keep).stream;
      assert r.batch[n - 1..][1..] == r.batch[n..];
      assert r.emitted + r.batch[..n - 1] + [r.batch[n - 1]] == r.emitted + r.batch[..n];
    }
  }

  lemma RunSnoc(s: State, events: seq<Event>, e: Event, keep: Retention)
    ensures Run(s, events + [e], keep) == Next(Run(s, events, keep), e, keep)
  {
    hide Next;
    assert (events + [e])[..|events|] == events;
  }

  lemma SendIsStep(s: State, keep: Retention)
    requires s.stream.pc.Emitting? && s.stream.batch != []
    ensures Next(s, Send, keep) == SendStep(s)
  {
    hide EmitStep, ReadStep, SendStep;
  }

  /** An undisturbed pass sends one batch and waits; it leaves rows undelivered,
      with no wakeup set and none coming, exactly when there were more than 200.
      They stay until the next notification or heartbeat. */
  lemma PassStallsIffOverBatch(s: State, keep: Retention)
    requires s.stream.pc.Top? && s.stream.batch == []
    ensures var u, all := Run(s, Pass(s), keep), Since(s.world.log, s.stream.client, s.stream.cursor);
            && u.world == s.world && u.stream.pc.Waiting? && u.stream.waiter == u.world.gen
            && u.stream.emitted == s.stream.emitted + ListSince(s.world.log, s.stream.client, s.stream.cursor)
            && all == ListSince(s.world.log, s.stream.client, s.stream.cursor)
                      + Since(u.world.log, u.stream.client, u.stream.cursor)
            && (Since(u.world.log, u.stream.client, u.stream.cursor) != [] <==> |all| > BATCH)
  {
    var start := [Capture, Read];
    assert start[..1] == [Capture] && start[..1][..0] == [];
    assert Run(s, start[..1], keep) == Next(s, Capture, keep);
    var r := Run(s, start, keep);
    assert r == ReadStep(Next(s, Capture, keep));
    var n := |r.stream.batch|;
    SendsDrain(s, start, n, keep);
    ReadTakesPrefix(s.world.log, s.stream.client, s.stream.cursor);
    assert Pass(s)[..|Pass(s)| - 1] == start + Sends(n);
  }

  // ---------------------------------------------------------- a log that stalls

  const OFF := Retention(0.0, 0)

  function Ticks(n: nat): (t: string)
    ensures |t| == n
  {
    if n == 0 then "" else Ticks(n - 1) + "x"
  }

  function NthRow(client: string, n: nat): Row { Row(client, Ticks(n), "", 0.0) }

  /** The log after `n` different events of one client. */
  function Grown(client: string, n: nat): Log {
    if n == 0 then Log(map[], 1) else Appended(Grown(client, n - 1), NthRow(client, n), OFF).0
  }

  lemma {:induction false} GrownHoldsAll(client: string, n: nat)
    ensures var log := Grown(client, n);
            && ValidLog(log) && log.next == n + 1
            && forall k | 1 <= k <= n :: k in log.rows && log.rows[k] == NthRow(client, k)
  {
    if n > 0 {
      GrownHoldsAll(client, n - 1);
      var log := Grown(client, n - 1);
      forall k | k in log.rows ensures log.rows[k].eventId != Ticks(n) {
        assert 1 <= k <= n - 1 && log.rows[k] == NthRow(client, k);
      }
      assert !Recorded(log.rows, client, Ticks(n));
    }
  }

  lemma {:induction false} AllVisible(rows: Table, client: string, lo: int, hi: int)
    requires lo <= hi && forall k | lo < k <= hi :: Visible(rows, client, k)
    ensures |Pick(rows, client, lo, hi)| == hi - lo
    decreases hi - lo
  {
    if lo < hi { AllVisible(rows, client, lo, hi - 1); }
  }

  /** The stall is real: a stream opened on any log of more than 200 appended
      events ends its first pass asleep, with rows undelivered, no wakeup set and
      none coming. */
  lemma LongLogStalls(client: string, n: nat)
    requires n > BATCH
    ensures var s := Open(Grown(client, n), client, 0, 0, 0); var u := Run(s, Pass(s), OFF);
            && u.stream.pc.Waiting? && u.world.gen == u.stream.waiter && u.world.pending == 0
            && |u.stream.emitted| == BATCH && Since(u.world.log, client, u.stream.cursor) != []
  {
    hide Grown, Run, Pick, Pass;
    var s := Open(Grown(client, n), client, 0, 0, 0);
    GrownHoldsAll(client, n);
    AllVisible(s.world.log.rows, client, 0, n);
    PassStallsIffOverBatch(s, OFF);
    PassKeepsClient(s);
  }

  lemma PassKeepsClient(s: State)
    ensures Run(s, Pass(s), OFF).stream.client == s.stream.client
  {
    hide Run, Pass;
    RunKeepsOpening(s, Pass(s), OFF);
  }

  // ------------------------------------------------------------ what arrives

  lemma {:induction false} RunAppend(s: State, a: seq<Event>, b: seq<Event>, keep: Retention)
    ensures Run(s, a + b, keep) == Run(Run(s, a, keep), b, keep)
    decreases |b|
  {
    hide Next;
    if b == [] {
      assert a + b == a;
    } else {
      RunAppend(s, a, b[..|b| - 1], keep);
      assert (a + b)[..|a + b| - 1] == a + b[..|b| - 1];
    }
  }

  /** A stream that stays connected catches up, whatever it has to read: pass by
      pass it sends every unread row, in order, and then sleeps with none left. */
  lemma {:induction false} StreamCatchesUp(s: State, keep: Retention) returns (events: seq<Event>)
    requires s.stream.pc.Top? && s.stream.batch == []
    ensures var u := Run(s, events, keep);
            && u.world == s.world && u.stream.pc.Waiting?
            && u.stream.emitted == s.stream.emitted + Since(s.world.log, s.stream.client, s.stream.cursor)
            && Since(u.world.log, u.stream.client, u.stream.cursor) == []
    decreases |Since(s.world.log, s.stream.client, s.stream.cursor)|
  {
    hide Run, Next, Since, Pass;
    var all, u := Since(s.world.log, s.stream.client, s.stream.cursor), Run(s, Pass(s), keep);
    PassStallsIffOverBatch(s, keep);
    PassEndsEmpty(s, keep);
    events := Pass(s);
    if |all| > BATCH {
      var t := Next(u, Heartbeat, keep);
      HeartbeatResumes(u, keep);
      var more := StreamCatchesUp(t, keep);
      RunSnoc(s, events, Heartbeat, keep);
      RunAppend(s, events + [Heartbeat], more, keep);
      events := events + [Heartbeat] + more;
    }
  }

  lemma PassEndsEmpty(s: State, keep: Retention)
    requires s.stream.pc.Top? && s.stream.batch == []
    ensures var u := Run(s, Pass(s), keep); u.stream.batch == [] && u.stream.client == s.stream.client
  {
    var start := [Capture, Read];
    assert start[..1] == [Capture] && start[..1][..0] == [];
    assert Run(s, start[..1], keep) == Next(s, Capture, keep);
    var r := Run(s, start, keep);
    assert r == ReadStep(Next(s, Capture, keep));
    var n := |r.stream.batch|;
    SendsDrain(s, start, n, keep);
    assert Pass(s)[..|Pass(s)| - 1] == start + Sends(n);
  }

  /** A wait ends with a heartbeat at any time, with its wakeup exactly when a
      notification of the client came after the capture. */
  lemma HeartbeatResumes(s: State, keep: Retention)
    requires s.stream.pc.Waiting?
    ensures Next(s, Heartbeat, keep) == s.(stream := s.stream.(pc := Top))
    ensures Next(s, Wake, keep) == if s.world.gen > s.stream.waiter then s.(stream := s.stream.(pc := Top)) else s
  {
  }

  /** A stream whose client is gone sends nothing more. */
  lemma {:induction false} DisconnectedSendsNoMore(s: State, events: seq<Event>, keep: Retention)
    ensures Run(Next(s, Disconnect, keep), events, keep).stream == s.stream.(pc := Ended)
    decreases |events|
  {
    hide Appended;
    if events != [] { DisconnectedSendsNoMore(s, events[..|events| - 1], keep); }
  }

  /** From append to client: an event recorded while the stream sleeps with
      nothing unread is notified, wakes the stream and is the one frame its next
      pass sends, unless the client asked to resume above it. */
  lemma AppendReachesSleeper(s: State, row: Row, keep: Retention)
    requires Inv(s) && s.stream.pc.Waiting? && s.stream.found <= BATCH && s.world.gen == s.stream.waiter
    requires s.world.pending == 0 && row.client == s.stream.client
    requires !Recorded(s.world.log.rows, row.client, row.eventId)
    ensures var woken := Next(Next(Next(s, Emit(row), keep), Notify, keep), Wake, keep);
            var id := s.world.log.next;
            && woken.stream == s.stream.(pc := Top)
            && Run(woken, Pass(woken), keep).stream.emitted
                 == s.stream.emitted + (if s.stream.cursor < id then [Frame(id, row)] else [])
  {
    var woken := Next(Next(Next(s, Emit(row), keep), Notify, keep), Wake, keep);
    var log := Appended(s.world.log, row, keep).0;
    assert woken == State(woken.world, s.stream.(pc := Top)) && woken.world.log == log;
    assert s.stream.batch == [];
    OnlyNewIsUnread(s, row, keep);
    hide Run, Next, Appended, Inv, Pick, Pass;
    PassStallsIffOverBatch(woken, keep);
  }

  lemma OnlyNewIsUnread(s: State, row: Row, keep: Retention)
    requires Inv(s) && s.stream.pc.Waiting? && s.stream.found <= BATCH && s.world.gen == s.stream.waiter
    requires s.world.pending == 0 && row.client == s.stream.client
    requires !Recorded(s.world.log.rows, row.client, row.eventId)
    ensures var log, id := Appended(s.world.log, row, keep).0, s.world.log.next;
            Since(log, row.client, s.stream.cursor) == if s.stream.cursor < id then [Frame(id, row)] else []
  {
    AppendIsRetained(s.world.log, row, keep);
    var log, id := Appended(s.world.log, row, keep).0, s.world.log.next;
    assert log.next == id + 1 && Visible(log.rows, row.client, id) && log.rows[id] == row;
    assert Trimmed(log.rows, s.world.log.rows[id := row], row.client);
    hide Appended, Recorded;
    assert Frontier(s.stream) == s.stream.cursor && !Unread(s);
    forall k | s.stream.cursor < k <= id - 1 ensures Agree(log.rows, map[], row.client, k) {
      assert !Visible(s.world.log.rows, row.client, k);
    }
    PickAgrees(log.rows, map[], row.client, s.stream.cursor, id - 1);
    EmptyPick(row.client, s.stream.cursor, id - 1);
  }

  // ----------------------------------------------------- the mutable objects

  /** The table behind `ClientEventLog`. */
  class ClientEventLog {
    var rows: Table
    var next: int
    const keep: Retention

    ghost predicate Valid() reads this { ValidLog(Log(rows, next)) }

    constructor (keep: Retention)
      ensures Valid() && rows == map[] && next == 1 && this.keep == keep
    {
      rows, next, this.keep := map[], 1, keep;
    }

    method Append(row: Row) returns (id: Option<int>)
      requires Valid()
      modifies this
      ensures Valid()
      ensures (Log(rows, next), id) == Appended(Log(old(rows), old(next)), row, keep)
      ensures id.Some? ==> id.value == old(next) && id.value in rows && rows[id.value] == row
    {
      if Recorded(rows, row.client, row.eventId) { return None; }
      AppendIsRetained(Log(rows, next), row, keep);
      id := Some(next);
      rows, next := rows[next := row], next + 1;
      if keep.maxAge > 0.0 { rows := DropOld(rows, row.client, row.ts - keep.maxAge); }
      if keep.maxPerClient > 0 { rows := KeepNewest(rows, row.client, next - 1, keep.maxPerClient); }
    }

    /** The inner loop of the stream: send what one read returns, following its ids. */
    method Drain(client: string, cursor: int) returns (sent: seq<Frame>, after: int)
      requires Valid()
      ensures sent == Pick(rows, client, cursor, after) && |sent| <= BATCH
      ensures cursor <= after && (|sent| < BATCH ==> forall k | k > after :: !Visible(rows, client, k))
    {
      var batch := ListSince(Log(rows, next), client, cursor);
      ReadTakesPrefix(Log(rows, next), client, cursor);
      sent, after := [], cursor;
      for i := 0 to |batch|
        invariant sent == batch[..i]
        invariant after == if i == 0 then cursor else batch[i - 1].id
      {
        sent, after := sent + [batch[i]], batch[i].id;
      }
      forall k | |sent| < BATCH && k > after ensures !Visible(rows, client, k) {
        if Visible(rows, client, k) { PickFinds(rows, client, after, next - 1, k); }
      }
    }
  }

  class Wakeup {
    var isSet: bool
    constructor () ensures !isSet { isSet := false; }
  }

  /** One current wakeup per client, unset; `Notify` sets it and puts a fresh one in its place. */
  class ClientEventNotifier {
    var events: map<string, Wakeup>

    ghost predicate Valid() reads this, events.Values {
      && (forall c | c in events :: !events[c].isSet)
      && (forall c, d | c in events && d in events && events[c] == events[d] :: c == d)
    }

    constructor () ensures Valid() && events == map[] { events := map[]; }

    method Event(client: string) returns (e: Wakeup)
      requires Valid()
      modifies this
      ensures Valid() && client in events && e == events[client]
      ensures client in old(events) ==> events == old(events)
      ensures client !in old(events) ==> fresh(e) && events == old(events)[client := e]
    {
      if client !in events {
        var w := new Wakeup();
        events := events[client := w];
      }
      e := events[client];
    }

    method Notify(client: string)
      requires Valid()
      modifies this, events.Values
      ensures Valid() && client in events && fresh(events[client])
      ensures client in old(events) ==> old(events)[client].isSet
      ensures forall c | c in old(events) && c != client ::
                c in events && events[c] == old(events)[c] && !events[c].isSet
      ensures events.Keys == old(events).Keys + {client}
    {
      if client in events { events[client].isSet := true; }
      var w := new Wakeup();
      events := events[client := w];
    }
  }
}
