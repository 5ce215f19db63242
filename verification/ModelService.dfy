/** In-memory ownership of model files (engine/models/service.py). Paths are
    named by their resolved key. The service runs on one event loop; an event is
    the code between two awaits. */
module ModelService {
  type Id = nat

  type Key = string

  datatype Status = Downloading | Verifying | Ready | Cancelled | Error

  /** Where a download writes before it is promoted. */
  function Part(key: Key): Key { key + ".part" }

  lemma PartIsInjective(a: Key, b: Key)
    requires Part(a) == Part(b)
    ensures a == b
  {
    assert |a| == |b|;
    assert a == Part(a)[..|a|] && b == Part(b)[..|b|];
  }

  /** `managed`: downloaded, or imported from inside the model directory; only
      such files are removed with their row. */
  datatype Row = Row(key: Key, status: Status, managed: bool)

  /** A download's task: created, waiting for its worker thread, or ended
      without having run (cancelled before its first step). */
  datatype Task = Created | Working | Dead

  /** The dictionaries of owned downloads: `_tasks`, `_cancels`, `_download_paths`. */
  datatype Owned = Owned(tasks: map<Id, Task>, cancels: set<Id>, paths: map<Id, Key>)

  /** Loads hold their model id, imports their path: `_operations`, `_import_paths`. */
  datatype Held = Held(operations: set<Id>, imports: set<Key>)

  /** The registry rows, the files that exist, and the running worker threads. */
  datatype Outside = Outside(rows: map<Id, Row>, files: set<Key>, workers: set<Id>)

  datatype State = State(owned: Owned, held: Held, out: Outside)

  /** What a delete could not remove; it stops there. */
  datatype Fault = NoFault | FileStuck | PartStuck | RowStuck

  datatype Event =
    | StartDownload(id: Id, key: Key)
    | TaskRuns(id: Id) | TaskDies(id: Id)
    | Write(id: Id) | Promote(id: Id)         // the worker thread, on the `.part` file
    | TaskEnds(id: Id, status: Status)
    | ImportBegins(key: Key) | ImportEnds(key: Key, id: Id, ok: bool, managed: bool)
    | LoadBegins(id: Id) | LoadEnds(id: Id)
    | Delete(id: Id, fault: Fault)            // the file is removed, then its `.part`, then the row
    | Sweep                                   // shutdown releases tasks that never ran
    | Reconcile

  function Init(rows: map<Id, Row>, files: set<Key>): State {
    State(Owned(map[], {}, map[]), Held({}, {}), Outside(rows, files, {}))
  }

  predicate KnownPath(rows: map<Id, Row>, key: Key) { exists id :: id in rows && rows[id].key == key }

  /** `is_busy`. */
  predicate Busy(s: State, id: Id)
    requires id in s.out.rows
  {
    id in s.owned.tasks || id in s.held.operations || s.out.rows[id].key in s.held.imports
  }

  /** `_release`. */
  function Released(o: Owned, id: Id): Owned { Owned(o.tasks - {id}, o.cancels - {id}, o.paths - {id}) }

  function ReleasedAll(o: Owned, ids: set<Id>): Owned { Owned(o.tasks - ids, o.cancels - ids, o.paths - ids) }

  function DeadIds(tasks: map<Id, Task>): set<Id> { set id | id in tasks && tasks[id].Dead? }

  predicate CanStart(s: State, id: Id, key: Key) {
    id !in s.out.rows && key !in s.held.imports && key !in s.out.files && !KnownPath(s.out.rows, key)
  }

  predicate CanImport(s: State, key: Key) { key !in s.held.imports && key !in s.owned.paths.Values }

  predicate Unfinished(row: Row) { row.status.Downloading? || row.status.Verifying? }

  function Reconciled(rows: map<Id, Row>, tasks: map<Id, Task>): map<Id, Row> {
    map id | id in rows ::
      if Unfinished(rows[id]) && id !in tasks then rows[id].(status := Error) else rows[id]
  }

  /** The rows recovery has to change. */
  function Interrupted(rows: map<Id, Row>, tasks: map<Id, Task>): set<Id> {
    set id | id in rows && Unfinished(rows[id]) && id !in tasks
  }

  /** The worker thread of download `id` is running. */
  predicate Works(s: State, id: Id) { id in s.owned.tasks && s.owned.tasks[id].Working? && id in s.owned.paths }

  /** `delete_files`: the model's file and its `.part`, if the engine manages them. */
  function Cleared(files: set<Key>, row: Row, fault: Fault): set<Key> {
    if !row.managed || fault.FileStuck? then files
    else if fault.PartStuck? then files - {row.key}
    else files - {row.key, Part(row.key)}
  }

  /** The row goes last, so only when nothing before it failed. */
  predicate RowGoes(row: Row, fault: Fault) { fault.NoFault? || (!row.managed && !fault.RowStuck?) }

  function Next(s: State, e: Event): State {
    match e
    case StartDownload(id, key) =>
      if CanStart(s, id, key) then
        s.(out := s.out.(rows := s.out.rows[id := Row(key, Downloading, true)]),
           owned := Owned(s.owned.tasks[id := Created], s.owned.cancels + {id}, s.owned.paths[id := key]))
      else s
    case TaskRuns(id) =>
      if id in s.owned.tasks && s.owned.tasks[id].Created? then
        s.(owned := s.owned.(tasks := s.owned.tasks[id := Working]), out := s.out.(workers := s.out.workers + {id}))
      else s
    case TaskDies(id) =>
      if id in s.owned.tasks && s.owned.tasks[id].Created? then
        s.(owned := s.owned.(tasks := s.owned.tasks[id := Dead]))
      else s
    case Write(id) => if Works(s, id) then s.(out := s.out.(files := s.out.files + {Part(s.owned.paths[id])})) else s
    case Promote(id) =>
      if Works(s, id) then
        s.(out := s.out.(files := s.out.files - {Part(s.owned.paths[id])} + {s.owned.paths[id]}))
      else s
    case TaskEnds(id, status) =>
      if Works(s, id) && id in s.out.rows then
        s.(out := Outside(s.out.rows[id := s.out.rows[id].(status := status)], s.out.files, s.out.workers - {id}),
           owned := Released(s.owned, id))
      else s
    case ImportBegins(key) =>
      if CanImport(s, key) then s.(held := s.held.(imports := s.held.imports + {key})) else s
    case ImportEnds(key, id, ok, managed) =>
      if key in s.held.imports then
        s.(held := s.held.(imports := s.held.imports - {key}),
           out := if ok && id !in s.out.rows then s.out.(rows := s.out.rows[id := Row(key, Ready, managed)]) else s.out)
      else s
    case LoadBegins(id) =>
      if id in s.out.rows && !Busy(s, id) then s.(held := s.held.(operations := s.held.operations + {id})) else s
    case LoadEnds(id) => s.(held := s.held.(operations := s.held.operations - {id}))
    case Delete(id, fault) =>
      if id in s.out.rows && !Busy(s, id) then
        s.(out := s.out.(rows := if RowGoes(s.out.rows[id], fault) then s.out.rows - {id} else s.out.rows,
                         files := Cleared(s.out.files, s.out.rows[id], fault)))
      else s
    case Sweep => s.(owned := ReleasedAll(s.owned, DeadIds(s.owned.tasks)))
    case Reconcile => s.(out := s.out.(rows := Reconciled(s.out.rows, s.owned.tasks)))
  }

  function Run(s: State, events: seq<Event>): State {
    if events == [] then s else Next(Run(s, events[..|events| - 1]), events[|events| - 1])
  }

  // -------------------------------------------------------------- invariant

  /** The three dictionaries have the same keys; a worker runs only for a
      download that is owned. */
  predicate SameKeys(o: Owned, workers: set<Id>) {
    && o.tasks.Keys == o.cancels == o.paths.Keys
    && (forall id | id in workers :: id in o.tasks && o.tasks[id].Working?)
  }

  /** A download's destination is its own: no import uses it, and no other
      registry row names it. */
  predicate Reserved(s: State) {
    && (forall id | id in s.owned.paths :: s.owned.paths[id] !in s.held.imports)
    && (forall id | id in s.owned.paths :: id in s.out.rows && s.out.rows[id].key == s.owned.paths[id])
    && (forall id, j | id in s.owned.paths && j in s.out.rows && s.out.rows[j].key == s.owned.paths[id] :: j == id)
  }

  /** A load holds an existing row that no download owns. */
  predicate Loads(s: State) {
    forall id | id in s.held.operations :: id in s.out.rows && id !in s.owned.tasks
  }

  predicate Inv(s: State) { SameKeys(s.owned, s.out.workers) && Reserved(s) && Loads(s) }

  lemma StartKeeps(s: State, id: Id, key: Key)
    requires Inv(s)
    ensures Inv(Next(s, StartDownload(id, key)))
  {
  }

  lemma TaskKeeps(s: State, e: Event)
    requires Inv(s) && (e.TaskRuns? || e.TaskDies? || e.Write? || e.Promote? || e.TaskEnds? || e.Sweep? || e.Reconcile?)
    ensures Inv(Next(s, e))
  {
  }

  lemma HoldKeeps(s: State, e: Event)
    requires Inv(s) && (e.ImportBegins? || e.ImportEnds? || e.LoadBegins? || e.LoadEnds? || e.Delete?)
    ensures Inv(Next(s, e))
  {
    if e.ImportBegins? && CanImport(s, e.key) {
      assert forall id | id in s.owned.paths :: s.owned.paths[id] in s.owned.paths.Values;
    }
  }

  lemma NextKeeps(s: State, e: Event)
    requires Inv(s)
    ensures Inv(Next(s, e))
  {
    if e.StartDownload? {
      StartKeeps(s, e.id, e.key);
    } else if e.TaskRuns? || e.TaskDies? || e.Write? || e.Promote? || e.TaskEnds? || e.Sweep? || e.Reconcile? {
      TaskKeeps(s, e);
    } else {
      HoldKeeps(s, e);
    }
  }

  lemma {:induction false} RunKeeps(s: State, events: seq<Event>)
    requires Inv(s)
    ensures Inv(Run(s, events))
    decreases |events|
  {
    hide Inv;
    if events != [] {
      RunKeeps(s, events[..|events| - 1]);
      NextKeeps(Run(s, events[..|events| - 1]), events[|events| - 1]);
    }
  }

  // ------------------------------------------------------------ main results

  /** In every reachable state the three dictionaries agree, live downloads have
      pairwise distinct destinations, and none of them is being imported. */
  lemma DestinationsAreExclusive(rows: map<Id, Row>, files: set<Key>, events: seq<Event>, a: Id, b: Id)
    ensures var s := Run(Init(rows, files), events);
            && s.owned.tasks.Keys == s.owned.cancels == s.owned.paths.Keys
            && (a in s.owned.paths ==> s.owned.paths[a] !in s.held.imports)
            && (a in s.owned.paths && b in s.owned.paths && a != b ==> s.owned.paths[a] != s.owned.paths[b])
  {
    RunKeeps(Init(rows, files), events);
  }

  /** A delete that is carried out is never of a model whose download or load is
      in progress, nor of one whose own path is being downloaded or imported. */
  lemma DeleteSparesOwnedModels(rows: map<Id, Row>, files: set<Key>, events: seq<Event>, id: Id, fault: Fault)
    ensures var s := Run(Init(rows, files), events);
            id in s.out.rows && Next(s, Delete(id, fault)) != s ==>
              && id !in s.owned.tasks && id !in s.held.operations
              && s.out.rows[id].key !in s.held.imports
              && s.out.rows[id].key !in s.owned.paths.Values
  {
    hide Run;
    RunKeeps(Init(rows, files), events);
    var s := Run(Init(rows, files), events);
    if id in s.out.rows && s.out.rows[id].key in s.owned.paths.Values {
      var j :| j in s.owned.paths && s.owned.paths[j] == s.out.rows[id].key;
      assert j == id;
    }
  }

  /** Deleting `id` removes the file `f`. */
  predicate Takes(s: State, id: Id, f: Key) { f in s.out.files && f !in Next(s, Delete(id, NoFault)).out.files }

  lemma TakesExactly(s: State, id: Id, f: Key)
    requires id in s.out.rows && !Busy(s, id)
    ensures Takes(s, id, f) <==>
              s.out.rows[id].managed && f in s.out.files && (f == s.out.rows[id].key || f == Part(s.out.rows[id].key))
  {
  }

  /** A live download's destination or its `.part` file. */
  predicate Downloads(s: State, j: Id, f: Key) {
    j in s.owned.paths && (f == s.owned.paths[j] || f == Part(s.owned.paths[j]))
  }

  /** Downloads are protected by their destination only: a delete takes a file of
      a live download exactly when the deleted row is managed and one of the two
      paths is the `.part` path of the other. */
  lemma DeleteTakesDownloadIffPart(s: State, id: Id)
    requires Inv(s) && id in s.out.rows && !Busy(s, id)
    ensures (exists j, f :: Downloads(s, j, f) && Takes(s, id, f)) <==>
              s.out.rows[id].managed && (exists j :: j in s.owned.paths && Overlaps(s, id, s.owned.paths[j]))
  {
    var key := s.out.rows[id].key;
    forall j, f | Downloads(s, j, f) && Takes(s, id, f) ensures Overlaps(s, id, s.owned.paths[j]) {
      TakesExactly(s, id, f);
      assert key != s.owned.paths[j];
      if f == Part(key) && f == Part(s.owned.paths[j]) { PartIsInjective(key, s.owned.paths[j]); }
    }
    forall j | j in s.owned.paths && s.out.rows[id].managed && Overlaps(s, id, s.owned.paths[j])
      ensures exists f :: Downloads(s, j, f) && Takes(s, id, f)
    {
      var f := if key == Part(s.owned.paths[j]) && key in s.out.files then key else Part(key);
      TakesExactly(s, id, f);
      assert Downloads(s, j, f);
    }
  }

  /** One of the two paths is the other's `.part`, and that file exists. */
  predicate Overlaps(s: State, id: Id, dest: Key)
    requires id in s.out.rows
  {
    var key := s.out.rows[id].key;
    (key == Part(dest) && key in s.out.files) || (dest == Part(key) && dest in s.out.files)
  }

  /** The same for imports. */
  lemma DeleteTakesImportIffPart(s: State, id: Id)
    requires id in s.out.rows && !Busy(s, id)
    ensures (exists f :: f in s.held.imports && Takes(s, id, f)) <==>
              s.out.rows[id].managed && Part(s.out.rows[id].key) in s.held.imports
                  && Part(s.out.rows[id].key) in s.out.files
  {
    var part := Part(s.out.rows[id].key);
    TakesExactly(s, id, part);
    forall f | f in s.held.imports && Takes(s, id, f) ensures f == part { TakesExactly(s, id, f); }
  }

  /** Wherever a delete stopped, a retry finishes it. */
  lemma DeleteConverges(s: State, id: Id, fault: Fault)
    ensures var t := Next(s, Delete(id, fault)); Next(t, Delete(id, NoFault)) == Next(s, Delete(id, NoFault))
  {
    if id in s.out.rows && !Busy(s, id) {
      var t, done := Next(s, Delete(id, fault)), Next(s, Delete(id, NoFault));
      if id in t.out.rows {
        assert Busy(t, id) == Busy(s, id);
        assert Next(t, Delete(id, NoFault)).out.files == done.out.files;
      }
    }
  }

  /** Loads are excluded by model id only: a delete takes away a file that
      another model is loading exactly when the deleted row is managed and its
      path, or its `.part` path, is the loading model's. */
  lemma DeleteTakesLoadedFileIffShared(s: State, id: Id)
    requires Inv(s) && id in s.out.rows && !Busy(s, id)
    ensures (exists j :: j in s.held.operations && Takes(s, id, s.out.rows[j].key)) <==>
              var key := s.out.rows[id].key;
              s.out.rows[id].managed
              && (exists j :: j in s.held.operations && s.out.rows[j].key in {key, Part(key)}
                    && s.out.rows[j].key in s.out.files)
  {
    forall j | j in s.held.operations
      ensures Takes(s, id, s.out.rows[j].key) <==>
                s.out.rows[id].managed && s.out.rows[j].key in {s.out.rows[id].key, Part(s.out.rows[id].key)}
                && s.out.rows[j].key in s.out.files
    {
      TakesExactly(s, id, s.out.rows[j].key);
    }
  }

  /** That state is reachable: one file imported twice. */
  lemma SharedPathIsReachable()
    ensures exists events: seq<Event> ::
              var s := Run(Init(map[], {"f"}), events);
              && 1 in s.held.operations && 1 in s.out.rows && 2 in s.out.rows && !Busy(s, 2) && s.out.rows[2].managed
              && s.out.rows[1].key == s.out.rows[2].key && s.out.rows[1].key in s.out.files
  {
    var s0 := Init(map[], {"f"});
    var es: seq<Event> := [];
    RunSnoc(s0, es, ImportBegins("f")); es := es + [ImportBegins("f")];
    RunSnoc(s0, es, ImportEnds("f", 1, true, true)); es := es + [ImportEnds("f", 1, true, true)];
    RunSnoc(s0, es, ImportBegins("f")); es := es + [ImportBegins("f")];
    RunSnoc(s0, es, ImportEnds("f", 2, true, true)); es := es + [ImportEnds("f", 2, true, true)];
    RunSnoc(s0, es, LoadBegins(1)); es := es + [LoadBegins(1)];
    var s := Run(s0, es);
    assert 1 in s.held.operations && 1 in s.out.rows && 2 in s.out.rows && !Busy(s, 2)
           && s.out.rows[1].key == s.out.rows[2].key && s.out.rows[1].key in s.out.files;
  }

  /** So is the other: a partial file imported while its download runs, whose
      delete then takes the live download's `.part`. */
  lemma PartImportIsReachable()
    ensures exists events: seq<Event> ::
              var s := Run(Init(map[], {}), events);
              && 2 in s.out.rows && !Busy(s, 2) && Downloads(s, 1, "m.part") && Takes(s, 2, "m.part")
  {
    var s0 := Init(map[], {});
    var es: seq<Event> := [];
    assert Part("m") == "m.part";
    RunSnoc(s0, es, StartDownload(1, "m")); es := es + [StartDownload(1, "m")];
    assert CanStart(s0, 1, "m");
    RunSnoc(s0, es, TaskRuns(1)); es := es + [TaskRuns(1)];
    RunSnoc(s0, es, Write(1)); es := es + [Write(1)];
    RunSnoc(s0, es, ImportBegins("m.part")); es := es + [ImportBegins("m.part")];
    RunSnoc(s0, es, ImportEnds("m.part", 2, true, true)); es := es + [ImportEnds("m.part", 2, true, true)];
    var s := Run(s0, es);
    assert s.owned.paths == map[1 := "m"] && s.out.rows[2] == Row("m.part", Ready, true) && !Busy(s, 2);
    TakesExactly(s, 2, "m.part");
    assert Downloads(s, 1, "m.part") && Takes(s, 2, "m.part");
  }

  /** And the third: the leftover `.part` of a model is imported, and deleting
      the model takes the file under that import. */
  lemma LeftoverImportIsReachable()
    ensures exists events: seq<Event> ::
              var s := Run(Init(map[1 := Row("m", Ready, true)], {"m", "m.part"}), events);
              1 in s.out.rows && !Busy(s, 1) && "m.part" in s.held.imports && Takes(s, 1, "m.part")
  {
    hide Next, Busy, Takes;
    var s0 := Init(map[1 := Row("m", Ready, true)], {"m", "m.part"});
    var es: seq<Event> := [];
    assert Part("m") == "m.part";
    LeftoverIsImported(s0, 1);
    RunSnoc(s0, es, ImportBegins("m.part"));
    assert Run(s0, es + [ImportBegins("m.part")]) == Next(s0, ImportBegins("m.part"));
  }

  /** With nothing in progress, the `.part` of a managed model can be imported
      and then taken by a delete of the model. */
  lemma LeftoverIsImported(s: State, id: Id)
    requires id in s.out.rows && s.out.rows[id].managed && Part(s.out.rows[id].key) in s.out.files
    requires s.owned == Owned(map[], {}, map[]) && s.held == Held({}, {})
    ensures var part := Part(s.out.rows[id].key);
            var t := Next(s, ImportBegins(part));
            id in t.out.rows && !Busy(t, id) && part in t.held.imports && Takes(t, id, part)
  {
    var part := Part(s.out.rows[id].key);
    var t := Next(s, ImportBegins(part));
    assert CanImport(s, part) && t.held.imports == {part} && t.out == s.out && |part| > |s.out.rows[id].key|;
    TakesExactly(t, id, part);
  }

  lemma RunSnoc(s: State, events: seq<Event>, e: Event)
    ensures Run(s, events + [e]) == Next(Run(s, events), e)
  {
    assert (events + [e])[..|events|] == events;
  }

  /** Startup recovery: exactly the rows that say DOWNLOADING or VERIFYING and
      that this process does not own become errors, with path and ownership as
      they were; nothing else changes, no file is touched, and doing it again
      changes nothing. */
  lemma ReconcileIsExact(s: State, id: Id)
    ensures var t := Next(s, Reconcile);
            && t.owned == s.owned && t.held == s.held
            && t.out.files == s.out.files && t.out.workers == s.out.workers
            && (id in t.out.rows <==> id in s.out.rows)
            && (id in s.out.rows ==>
                  t.out.rows[id] == if s.out.rows[id].status in {Downloading, Verifying} && id !in s.owned.tasks
                                    then s.out.rows[id].(status := Error) else s.out.rows[id])
            && Next(t, Reconcile) == t
  {
    var t := Next(s, Reconcile);
    assert Reconciled(t.out.rows, t.owned.tasks) == t.out.rows;
  }

  // ------------------------------------------------------------- whole lives

  /** The destination is nobody's: not imported, no file, no row. */
  predicate Unclaimed(s: State, key: Key) {
    key !in s.held.imports && key !in s.out.files && forall j | j in s.out.rows :: s.out.rows[j].key != key
  }

  /** A download is accepted exactly for a new row and an unclaimed destination,
      and is then owned; otherwise nothing changes. */
  lemma StartIsExact(s: State, id: Id, key: Key)
    requires Inv(s) && id !in s.out.rows
    ensures var t := Next(s, StartDownload(id, key));
            && (id in t.owned.tasks <==> Unclaimed(s, key))
            && (Unclaimed(s, key) ==>
                  && t.out == s.out.(rows := s.out.rows[id := Row(key, Downloading, true)]) && t.held == s.held
                  && t.owned.tasks == s.owned.tasks[id := Created] && t.owned.paths == s.owned.paths[id := key])
            && (!Unclaimed(s, key) ==> t == s)
  {
    assert Unclaimed(s, key) <==> CanStart(s, id, key);
  }

  /** What a download that ran leaves: its row with the status it ended in, the
      whole file in place of the `.part` if it was promoted and the `.part` if it
      was not, and nothing owned by it. */
  lemma DownloadLeavesItsResult(s: State, id: Id, key: Key, promoted: bool, status: Status)
    requires Inv(s) && id !in s.out.rows && Unclaimed(s, key)
    ensures var begun := Next(Next(Next(s, StartDownload(id, key)), TaskRuns(id)), Write(id));
            var ended := Next(if promoted then Next(begun, Promote(id)) else begun, TaskEnds(id, status));
            && begun.out.workers == s.out.workers + {id} && Part(key) in begun.out.files
            && ended.owned == s.owned && ended.held == s.held && ended.out.workers == s.out.workers
            && ended.out.rows == s.out.rows[id := Row(key, status, true)]
            && ended.out.files == if promoted then s.out.files - {Part(key)} + {key} else s.out.files + {Part(key)}
  {
    var begun := Begun(s, id, key);
    var wrote := if promoted then Next(begun, Promote(id)) else begun;
    assert |Part(key)| != |key|;
    assert id !in s.owned.tasks && id !in s.owned.cancels && id !in s.owned.paths && id !in s.out.workers;
    Ended(s, wrote, id, key, status);
  }

  lemma Begun(s: State, id: Id, key: Key) returns (t: State)
    requires Inv(s) && id !in s.out.rows && Unclaimed(s, key)
    ensures t == Next(Next(Next(s, StartDownload(id, key)), TaskRuns(id)), Write(id))
    ensures t.held == s.held && t.owned.tasks == s.owned.tasks[id := Working]
    ensures t.owned.cancels == s.owned.cancels + {id} && t.owned.paths == s.owned.paths[id := key]
    ensures t.out.rows == s.out.rows[id := Row(key, Downloading, true)]
    ensures t.out.files == s.out.files + {Part(key)} && t.out.workers == s.out.workers + {id}
  {
    StartIsExact(s, id, key);
    hide Inv, CanStart;
    t := Next(Next(Next(s, StartDownload(id, key)), TaskRuns(id)), Write(id));
  }

  lemma Ended(s: State, t: State, id: Id, key: Key, status: Status)
    requires id !in s.owned.tasks && id !in s.owned.cancels && id !in s.owned.paths && id !in s.out.workers
    requires t.owned.tasks == s.owned.tasks[id := Working] && t.owned.paths == s.owned.paths[id := key]
    requires t.owned.cancels == s.owned.cancels + {id} && t.out.workers == s.out.workers + {id}
    requires t.out.rows == s.out.rows[id := Row(key, Downloading, true)]
    ensures var u := Next(t, TaskEnds(id, status));
            && u.owned == s.owned && u.held == t.held && u.out.workers == s.out.workers && u.out.files == t.out.files
            && u.out.rows == s.out.rows[id := Row(key, status, true)]
  {
  }

  /** A task cancelled before it ran is released by the next sweep of shutdown,
      and a later startup turns its row into an error. */
  lemma UnrunDownloadIsReleased(s: State, id: Id, key: Key)
    requires Inv(s) && id !in s.out.rows && Unclaimed(s, key)
    ensures var died := Next(Next(s, StartDownload(id, key)), TaskDies(id));
            var swept := Next(died, Sweep);
            && id in died.owned.tasks && id !in swept.owned.tasks && id !in swept.owned.cancels
            && id !in swept.owned.paths && swept.out == died.out && swept.out.files == s.out.files
            && swept.out.rows == s.out.rows[id := Row(key, Downloading, true)]
            && (forall j | j in s.owned.tasks && !s.owned.tasks[j].Dead? ::
                  j in swept.owned.tasks && swept.owned.tasks[j] == s.owned.tasks[j])
            && Next(swept, Reconcile).out.rows[id] == Row(key, Error, true)
  {
    StartIsExact(s, id, key);
    hide Inv, CanStart;
    var died := Next(Next(s, StartDownload(id, key)), TaskDies(id));
    ReconcileIsExact(Next(died, Sweep), id);
  }

  /** An import holds its path while it runs, exactly when no import or download
      already does, and leaves a READY row and nothing held. */
  lemma ImportLeavesItsResult(s: State, id: Id, key: Key, ok: bool, managed: bool)
    requires id !in s.out.rows && key !in s.held.imports
    ensures var begun := Next(s, ImportBegins(key));
            var ended := Next(begun, ImportEnds(key, id, ok, managed));
            && (key in begun.held.imports <==> forall j | j in s.owned.paths :: s.owned.paths[j] != key)
            && begun.out == s.out && begun.owned == s.owned && begun.held.operations == s.held.operations
            && ended == if ok && key in begun.held.imports
                        then s.(out := s.out.(rows := s.out.rows[id := Row(key, Ready, managed)])) else s
  {
    var begun := Next(s, ImportBegins(key));
    assert key in s.owned.paths.Values <==> exists j :: j in s.owned.paths && s.owned.paths[j] == key;
    assert s.held.imports + {key} - {key} == s.held.imports;
  }

  /** A load holds its model while it runs, exactly when no download, load or
      import uses it, and leaves nothing behind; meanwhile deletes are refused. */
  lemma LoadLeavesNothing(s: State, id: Id, fault: Fault)
    requires id in s.out.rows && id !in s.held.operations
    ensures var begun := Next(s, LoadBegins(id));
            && (id in begun.held.operations <==> id !in s.owned.tasks && s.out.rows[id].key !in s.held.imports)
            && begun.out == s.out && begun.owned == s.owned && begun.held.imports == s.held.imports
            && Next(begun, LoadEnds(id)) == s
            && (id in begun.held.operations ==> Next(begun, Delete(id, fault)) == begun)
  {
    assert s.held.operations + {id} - {id} == s.held.operations;
  }

  /** A delete, exactly: refused while the model is downloaded, loaded or its
      file imported; otherwise a managed model's file and `.part` go and then the
      row, up to the first that could not be removed. */
  lemma DeleteIsExact(s: State, id: Id, fault: Fault)
    requires id in s.out.rows
    ensures var t, row := Next(s, Delete(id, fault)), s.out.rows[id];
            && t.owned == s.owned && t.held == s.held && t.out.workers == s.out.workers
            && if id in s.owned.tasks || id in s.held.operations || row.key in s.held.imports then t.out == s.out
               else
                 && (id in t.out.rows <==> fault == RowStuck || (row.managed && fault != NoFault))
                 && (forall j | j != id :: j in t.out.rows <==> j in s.out.rows)
                 && (forall j | j in t.out.rows :: j in s.out.rows && t.out.rows[j] == s.out.rows[j])
                 && (row.key in t.out.files <==> row.key in s.out.files && (!row.managed || fault == FileStuck))
                 && (Part(row.key) in t.out.files <==>
                       Part(row.key) in s.out.files && (!row.managed || fault == FileStuck || fault == PartStuck))
                 && (forall f | f != row.key && f != Part(row.key) :: f in t.out.files <==> f in s.out.files)
  {
    assert |Part(s.out.rows[id].key)| != |s.out.rows[id].key|;
  }

  /** The state after `n` rounds of the loop: `rounds[i]` happens during the i-th
      wait, then tasks that ended without running are released. */
  function AfterRounds(start: State, rounds: seq<seq<Event>>, n: nat): State
    requires n <= |rounds|
  {
    if n == 0 then start else Next(Run(AfterRounds(start, rounds, n - 1), rounds[n - 1]), Sweep)
  }

  /** The loop of `shutdown`: in each of its `n` rounds every download owned at
      its start is asked to stop, whenever it appeared. It returns only once no
      download is owned, and then no worker thread is left. */
  method Shutdown(start: State, rounds: seq<seq<Event>>) returns (s: State, returned: bool, asked: set<Id>, n: nat)
    requires Inv(start)
    ensures n <= |rounds| && s == AfterRounds(start, rounds, n) && Inv(s)
    ensures if returned then s.owned.tasks == map[] && s.out.workers == {} else n == |rounds|
    ensures forall i | 0 <= i < n ::
              var t := AfterRounds(start, rounds, i); t.owned.tasks != map[] && t.owned.cancels <= asked
  {
    hide Inv, Next, Run;
    s, asked, n := start, {}, 0;
    while s.owned.tasks != map[]
      invariant n <= |rounds| && s == AfterRounds(start, rounds, n) && Inv(s)
      invariant forall i | 0 <= i < n ::
                  var t := AfterRounds(start, rounds, i); t.owned.tasks != map[] && t.owned.cancels <= asked
      decreases |rounds| - n
    {
      if n == |rounds| { return s, false, asked, n; }
      asked := asked + s.owned.cancels;
      RunKeeps(s, rounds[n]);
      NextKeeps(Run(s, rounds[n]), Sweep);
      s, n := Next(Run(s, rounds[n]), Sweep), n + 1;
    }
    returned := true;
    NoTaskNoWorker(s);
  }

  lemma NoTaskNoWorker(s: State)
    requires Inv(s) && s.owned.tasks == map[]
    ensures s.out.workers == {}
  {
    assert forall id | id in s.out.workers :: id in s.owned.tasks;
  }

  // -------------------------------------------------------------- the object

  /** Recovery when it has been through the rows of `seen`. */
  function MarkedUpTo(rows: map<Id, Row>, tasks: map<Id, Task>, seen: set<Id>): map<Id, Row> {
    map id | id in rows ::
      if id in seen && Unfinished(rows[id]) && id !in tasks then rows[id].(status := Error) else rows[id]
  }

  lemma MarkStep(rows: map<Id, Row>, tasks: map<Id, Task>, seen: set<Id>, id: Id)
    requires id in rows && id !in seen
    ensures id in MarkedUpTo(rows, tasks, seen) && MarkedUpTo(rows, tasks, seen)[id] == rows[id]
    ensures var todo := Unfinished(rows[id]) && id !in tasks;
            && MarkedUpTo(rows, tasks, seen + {id})
                 == (if todo then MarkedUpTo(rows, tasks, seen)[id := rows[id].(status := Error)]
                     else MarkedUpTo(rows, tasks, seen))
            && |Interrupted(rows, tasks) * (seen + {id})|
                 == |Interrupted(rows, tasks) * seen| + (if todo then 1 else 0)
  {
    var all := Interrupted(rows, tasks);
    assert all * (seen + {id}) == if id in all then all * seen + {id} else all * seen;
  }

  lemma MarkEnds(s: State)
    ensures MarkedUpTo(s.out.rows, s.owned.tasks, {}) == s.out.rows
    ensures |Interrupted(s.out.rows, s.owned.tasks) * {}| == 0
    ensures Next(s, Reconcile) == s.(out := s.out.(rows := MarkedUpTo(s.out.rows, s.owned.tasks, s.out.rows.Keys)))
    ensures Interrupted(s.out.rows, s.owned.tasks) * s.out.rows.Keys == Interrupted(s.out.rows, s.owned.tasks)
  {
    assert MarkedUpTo(s.out.rows, s.owned.tasks, s.out.rows.Keys) == Reconciled(s.out.rows, s.owned.tasks);
  }

  function Set(ids: seq<Id>): set<Id> { set id | id in ids }

  lemma NothingListed(ids: seq<Id>)
    ensures Set(ids[..0]) == {} && ids[..|ids|] == ids
    ensures forall i | 0 <= i < |ids| :: ids[i] in Set(ids)
  {
  }

  lemma ListedOnce(ids: seq<Id>, k: nat)
    requires k < |ids| && forall i, j | 0 <= i < j < |ids| :: ids[i] != ids[j]
    ensures ids[k] !in Set(ids[..k]) && Set(ids[..k + 1]) == Set(ids[..k]) + {ids[k]}
  {
    assert ids[..k + 1] == ids[..k] + [ids[k]];
  }

  /** The service's dictionaries and sets, changed in place. `out` is what it
      acts on: registry, disk and threads. */
  class Service {
    var tasks: map<Id, Task>
    var cancels: set<Id>
    var paths: map<Id, Key>
    var operations: set<Id>
    var imports: set<Key>
    var out: Outside

    function View(): State
      reads this
    {
      State(Owned(tasks, cancels, paths), Held(operations, imports), out)
    }

    constructor (rows: map<Id, Row>, files: set<Key>)
      ensures View() == Init(rows, files)
    {
      tasks, cancels, paths, operations, imports := map[], {}, map[], {}, {};
      out := Outside(rows, files, {});
    }

    /** Refused while the destination is imported, exists, or has a row. */
    method Start(id: Id, key: Key, known: bool) returns (ok: bool)
      requires Inv(View()) && id !in out.rows && known == KnownPath(out.rows, key)
      modifies this
      ensures View() == Next(old(View()), StartDownload(id, key)) && Inv(View())
      ensures ok <==> CanStart(old(View()), id, key)
    {
      NextKeeps(View(), StartDownload(id, key));
      hide Inv;
      if key in imports { return false; }
      if key in out.files || known { return false; }
      out := out.(rows := out.rows[id := Row(key, Downloading, true)]);
      cancels := cancels + {id};
      paths := paths[id := key];
      tasks := tasks[id := Created];
      ok := true;
    }

    /** The end of `_run_download`: its worker has stopped. */
    method Finish(id: Id, status: Status)
      requires Inv(View()) && id in tasks && tasks[id].Working?
      modifies this
      ensures View() == Next(old(View()), TaskEnds(id, status)) && Inv(View())
      ensures id !in tasks && id !in cancels && id !in paths && id !in out.workers
    {
      NextKeeps(View(), TaskEnds(id, status));
      assert id in paths && id in out.rows;
      hide Inv;
      out := Outside(out.rows[id := out.rows[id].(status := status)], out.files, out.workers - {id});
      cancels := cancels - {id};
      tasks := tasks - {id};
      paths := paths - {id};
    }

    /** `reconcile_interrupted`: the loop over the listed rows; counts the rows it changed. */
    method ReconcileInterrupted(listed: seq<Id>) returns (changed: nat)
      requires Inv(View()) && Set(listed) == out.rows.Keys
      requires forall i, j | 0 <= i < j < |listed| :: listed[i] != listed[j]
      modifies this`out
      ensures View() == Next(old(View()), Reconcile) && Inv(View())
      ensures changed == |Interrupted(old(out.rows), tasks)|
    {
      hide Inv, Next, MarkedUpTo, Interrupted, Unfinished, Set;
      NextKeeps(View(), Reconcile);
      MarkEnds(View());
      NothingListed(listed);
      ghost var rows: map<Id, Row>, seen: set<Id> := out.rows, {};
      changed := 0;
      for k := 0 to |listed|
        invariant out == old(out).(rows := MarkedUpTo(rows, tasks, seen))
        invariant seen == Set(listed[..k])
        invariant changed == |Interrupted(rows, tasks) * seen|
      {
        var id := listed[k];
        ListedOnce(listed, k);
        MarkStep(rows, tasks, seen, id);
        if Unfinished(out.rows[id]) && id !in tasks {
          out := out.(rows := out.rows[id := out.rows[id].(status := Error)]);
          changed := changed + 1;
        }
        seen := seen + {id};
      }
    }

    /** Reserves the path before the first await. */
    method BeginImport(key: Key) returns (ok: bool)
      requires Inv(View())
      modifies this`imports
      ensures View() == Next(old(View()), ImportBegins(key)) && Inv(View())
      ensures ok <==> CanImport(old(View()), key)
    {
      NextKeeps(View(), ImportBegins(key));
      hide Inv;
      if key in imports || key in paths.Values { return false; }
      imports := imports + {key};
      ok := true;
    }

    /** Refuses, touching nothing, while the service owns work for the model. */
    method DeleteModel(id: Id, fault: Fault) returns (ok: bool)
      requires Inv(View()) && id in out.rows
      modifies this`out
      ensures View() == Next(old(View()), Delete(id, fault)) && Inv(View())
      ensures ok <==> id !in out.rows
      ensures Busy(old(View()), id) ==> out == old(out)
    {
      NextKeeps(View(), Delete(id, fault));
      hide Inv;
      if Busy(View(), id) { return false; }
      var row := out.rows[id];
      if row.managed {
        if fault.FileStuck? { return false; }
        out := out.(files := out.files - {row.key});
        if fault.PartStuck? { return false; }
        out := out.(files := out.files - {Part(row.key)});
      }
      if fault.RowStuck? { return false; }
      out := out.(rows := out.rows - {id});
      ok := true;
    }
  }
}
