/** The cancel/commit race of one download: `CancelEvent`
    (engine/models/downloader.py) between the worker thread and everyone who
    may ask it to stop, and the outcome the service records
    (engine/models/service.py). */
module Commit {
  import opened Basics

  /** The cooperative flag with its commit point. `request` and `commit` share
      a lock, so each is one step. */
  class CancelEvent {
    var isSet: bool
    var committed: bool

    /** An accepted cancel and a commit exclude each other. */
    predicate Valid()
      reads this
    {
      !(isSet && committed)
    }

    constructor ()
      ensures Valid() && !isSet && !committed
    {
      isSet, committed := false, false;
    }

    /** Accepted exactly when nothing was committed. */
    method Request() returns (accepted: bool)
      requires Valid()
      modifies this
      ensures Valid() && committed == old(committed)
      ensures accepted == isSet == !old(committed)
    {
      if committed { return false; }
      isSet := true;
      accepted := true;
    }

    /** Promotes exactly when no cancel was accepted; a `promote` that raises
        commits nothing. */
    method Commit(promoteRaises: bool) returns (promoted: bool, raised: bool)
      requires Valid()
      modifies this
      ensures Valid() && isSet == old(isSet) && committed == (old(committed) || promoted)
      ensures promoted == (!isSet && !promoteRaises) && raised == (!isSet && promoteRaises)
    {
      if isSet { return false, false; }
      if promoteRaises { return false, true; }
      committed := true;
      return true, false;
    }
  }

  // -------------------------------------------------------------- one download

  datatype Status = Downloading | Ready | Cancelled | Error

  /** Where the download stands: its worker, or what the worker ended with. */
  datatype At =
    | Fetching
    | Hashing                        // the body is complete
    | Verified(digest: string)       // about to reach the commit point
    | Promoted(digest: string)       // the worker returned; metadata still to read
    | SawCancel | Broke              // DownloadCancelled, or any other exception
    | Closed                         // outcome recorded, ownership released

  datatype Flags = Flags(isSet: bool, committed: bool, interrupted: bool)

  /** `recorded` is the digest stored with READY. */
  datatype Job = Job(flags: Flags, at: At, part: Bytes, dest: Option<Bytes>, status: Status, recorded: Option<string>,
                     expected: Option<string>)

  datatype Event =
    | Request                        // a cancel request, or shutdown
    | Interrupt                      // the task is cancelled; it sets the flag and keeps waiting
    | Write(bytes: Bytes)
    | BodyEnds
    | HashEnds
    | CheckCancel                    // a cancel check of the worker
    | Fail                           // any other failure of the worker
    | CommitPoint(renameFails: bool)
    | Finalize(probeFails: bool, storeFails: bool, errorStoreFails: bool)
    | Record(storeFails: bool)

  function Init(expected: Option<string>): Job {
    Job(Flags(false, false, false), Fetching, [], None, Downloading, None, expected)
  }

  function Ask(f: Flags): Flags { if f.committed then f else f.(isSet := true) }

  predicate Working(at: At) { at.Fetching? || at.Hashing? || at.Verified? }

  function Next(j: Job, e: Event, sha: Bytes -> string): Job {
    match e
    case Request => if j.at.Closed? then j else j.(flags := Ask(j.flags))
    case Interrupt => if j.at.Closed? then j else j.(flags := Ask(j.flags).(interrupted := true))
    case Write(bytes) => if j.at.Fetching? then j.(part := bytes) else j
    case BodyEnds => if j.at.Fetching? then j.(at := Hashing) else j
    case HashEnds =>
      if !j.at.Hashing? then j
      else if j.expected.Some? && j.expected.value != sha(j.part) then j.(at := Broke)
      else j.(at := Verified(sha(j.part)))
    case CheckCancel => if Working(j.at) && j.flags.isSet then j.(at := SawCancel) else j
    case Fail => if Working(j.at) then j.(at := Broke) else j
    case CommitPoint(renameFails) =>
      if !j.at.Verified? then j
      else if j.flags.isSet then j.(at := SawCancel)
      else if renameFails then j.(at := Broke)
      else j.(flags := j.flags.(committed := true), dest := Some(j.part), at := Promoted(j.at.digest))
    case Finalize(probeFails, storeFails, errorStoreFails) =>
      if !j.at.Promoted? then j
      else if !probeFails && !storeFails then j.(at := Closed, status := Ready, recorded := Some(j.at.digest))
      else j.(at := Closed, status := if errorStoreFails then j.status else Error)
    case Record(storeFails) =>
      if j.at.SawCancel? then j.(at := Closed, status := if storeFails then j.status else Cancelled)
      else if j.at.Broke? then j.(at := Closed, status := if storeFails then j.status else Error)
      else j
  }

  function Run(j: Job, events: seq<Event>, sha: Bytes -> string): Job {
    if events == [] then j else Next(Run(j, events[..|events| - 1], sha), events[|events| - 1], sha)
  }

  ghost predicate Inv(j: Job, sha: Bytes -> string) {
    && !(j.flags.isSet && j.flags.committed)
    && (j.flags.committed <==> j.dest.Some?)
    && (j.at.Verified? ==> j.at.digest == sha(j.part) && (j.expected.Some? ==> j.at.digest == j.expected.value))
    && (j.at.Promoted? ==> j.dest.Some? && j.at.digest == sha(j.dest.value)
                           && (j.expected.Some? ==> j.at.digest == j.expected.value))
    && (j.flags.committed ==> j.at.Promoted? || j.at.Closed?)
    && (j.at.SawCancel? ==> j.flags.isSet)
    && (!j.at.Closed? ==> j.status.Downloading?)
    && (j.status.Ready? ==> j.dest.Some? && j.recorded == Some(sha(j.dest.value))
                            && (j.expected.Some? ==> j.recorded == j.expected))
    && (j.status.Cancelled? ==> j.flags.isSet)
  }

  lemma NextKeeps(j: Job, e: Event, sha: Bytes -> string)
    requires Inv(j, sha)
    ensures Inv(Next(j, e, sha), sha) && Next(j, e, sha).expected == j.expected
  {
  }

  lemma {:induction false} RunKeeps(j: Job, events: seq<Event>, sha: Bytes -> string)
    requires Inv(j, sha)
    ensures Inv(Run(j, events, sha), sha) && Run(j, events, sha).expected == j.expected
    decreases |events|
  {
    if events != [] {
      RunKeeps(j, events[..|events| - 1], sha);
      NextKeeps(Run(j, events[..|events| - 1], sha), events[|events| - 1], sha);
    }
  }

  /** Under any interleaving of cancel requests, task cancellation and worker
      steps: an accepted cancel and a promoted file exclude each other, so an
      accepted cancel never ends in READY; CANCELLED is recorded only for a
      download that never promoted its file; READY means the promoted file has
      the recorded digest, the expected one if there was one. */
  lemma CancelAndCommitExclude(expected: Option<string>, events: seq<Event>, sha: Bytes -> string)
    ensures var j := Run(Init(expected), events, sha);
            && !(j.flags.isSet && j.dest.Some?)
            && (j.status.Cancelled? ==> j.flags.isSet && j.dest.None?)
            && (j.status.Ready? ==> !j.flags.isSet && j.dest.Some? && j.recorded == Some(sha(j.dest.value))
                                    && (expected.Some? ==> j.recorded == expected))
  {
    RunKeeps(Init(expected), events, sha);
  }

  /** Both decisions are final: an accepted request stays accepted, a promoted
      file stays promoted, whatever happens next. */
  lemma {:induction false} DecisionsAreFinal(j: Job, events: seq<Event>, sha: Bytes -> string)
    requires Inv(j, sha)
    ensures j.flags.isSet ==> Run(j, events, sha).flags.isSet && Run(j, events, sha).dest.None?
    ensures j.dest.Some? ==> Run(j, events, sha).dest == j.dest && !Run(j, events, sha).flags.isSet
    decreases |events|
  {
    RunKeeps(j, events, sha);
    if events != [] {
      DecisionsAreFinal(j, events[..|events| - 1], sha);
      RunKeeps(j, events[..|events| - 1], sha);
    }
  }

  /** The worker's way to its commit point while no request comes in: the whole
      file is written, hashed and found right. */
  function Fetched(expected: Option<string>, bytes: Bytes, sha: Bytes -> string): Job {
    Next(Next(Next(Init(expected), Write(bytes), sha), BodyEnds, sha), HashEnds, sha)
  }

  /** How a download that fetched its file ends, exactly, in terms of what met it
      on the way: CANCELLED if a request came before the commit point, ERROR if
      the digest is wrong or the rename, the metadata or the store failed, and
      READY, promoted and with its digest recorded, otherwise. A request after
      the commit point changes nothing. */
  lemma OutcomeIsExact(expected: Option<string>, bytes: Bytes, asked: bool, renameFails: bool, askedLate: bool,
                       probeFails: bool, storeFails: bool, sha: Bytes -> string)
    ensures var fetched := Fetched(expected, bytes, sha);
            var met := if asked then Next(fetched, Request, sha) else fetched;
            var committed := Next(met, CommitPoint(renameFails), sha);
            var late := if askedLate then Next(committed, Request, sha) else committed;
            var j := Next(Next(late, Finalize(probeFails, storeFails, false), sha), Record(false), sha);
            var right := expected == None || expected.value == sha(bytes);
            && j.at == Closed
            && j.status == (if !right then Error
                            else if asked then Cancelled
                            else if renameFails || probeFails || storeFails then Error
                            else Ready)
            && j.dest == (if right && !asked && !renameFails then Some(bytes) else None)
            && j.recorded == (if j.status == Ready then Some(sha(bytes)) else None)
  {
  }

  /** A request and a cancellation of the task are accepted alike, exactly before
      the commit; a worker that has not committed meets the flag at its next
      check, and the download ends as cancelled with what it had fetched. */
  lemma RequestStopsWorker(j: Job, e: Event, sha: Bytes -> string)
    requires Inv(j, sha) && !j.at.Closed? && (e == Request || e == Interrupt)
    ensures var asked := Next(j, e, sha);
            && (asked.flags.isSet <==> j.dest == None) && (e == Interrupt ==> asked.flags.interrupted)
            && asked == j.(flags := asked.flags)
            && (Working(j.at) ==>
                  var t := Next(Next(asked, CheckCancel, sha), Record(false), sha);
                  t.at == Closed && t.status == Cancelled && t.dest == None && t.part == j.part)
  {
  }

  /** A failure before the commit point is an error, and keeps what was fetched. */
  lemma FailureIsRecorded(j: Job, sha: Bytes -> string)
    requires Inv(j, sha) && Working(j.at)
    ensures var t := Next(Next(j, Fail, sha), Record(false), sha);
            t.at == Closed && t.status == Error && t.dest == None && t.part == j.part
  {
  }
}
