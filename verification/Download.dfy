/** Resumable, checksum-verified downloads (engine/models/downloader.py).

    The server serves one fixed `content`: a 206 response carries its suffix
    from the requested offset, a 200 response the whole of it (sections 14.2,
    15.3.7 and 15.5.17 of RFC 9110). Everything else is the environment's
    choice: what each cancel check sees, how much each read returns, and where
    reads, writes or the connection fail. `sha` is any digest function. */
module Download {
  import opened Basics

  /** The `.part` file and the destination. */
  datatype Files = Files(part: Option<Bytes>, dest: Option<Bytes>)

  /** One pass of the read loop: the two cancel checks around the read, what
      the read did, how many bytes of the chunk a failing write left behind,
      and the check after the write. */
  datatype Read = Data(n: nat) | Eof | Broken

  datatype Turn = Turn(before: bool, read: Read, after: bool, writeFails: Option<nat>, late: bool)

  /** What the request met: a rejected URL or transport failure, an HTTP error,
      or a response, with the declared length if there is one. */
  datatype Reply = Unreachable | HttpError(code: nat) | Response(partial: bool, length: Option<nat>)

  /** Everything outside one call of `download`. */
  datatype Env = Env(cancelled: bool, reply: Reply, cancelledThen: bool, turns: seq<Turn>,
                     cancelledAfter: bool, cancelledHashing: bool, cancelledAtCommit: bool, renameFails: bool)

  datatype Options = Options(expected: Option<string>, maxBytes: nat)

  datatype Outcome = Done(digest: string) | Cancelled | Mismatch | Failed

  datatype BodyEnd = Complete | Stopped | BodyFailed

  function Min(a: nat, b: nat): nat { if a <= b then a else b }

  /** The read loop: `part` grows by chunks taken from `rest`, the response body
      not yet read. A read that returns nothing ends the loop. */
  function Body(part: Bytes, rest: Bytes, turns: seq<Turn>, maxBytes: nat): (Bytes, BodyEnd)
    decreases |turns|
  {
    if turns == [] then (part, BodyFailed)
    else
      var t := turns[0];
      if t.before then (part, Stopped)
      else if t.read.Broken? then (part, BodyFailed)
      else if t.after then (part, Stopped)
      else
        var n := if t.read.Data? then Min(t.read.n, |rest|) else 0;
        if n == 0 then (part, Complete)
        else if t.writeFails.Some? then (part + rest[..Min(t.writeFails.value, n)], BodyFailed)
        else
          var grown := part + rest[..n];
          if maxBytes > 0 && |grown| > maxBytes then (grown, BodyFailed)
          else if t.late then (grown, Stopped)
          else Body(grown, rest[n..], turns[1..], maxBytes)
  }

  function Length(f: Option<Bytes>): nat { if f.Some? then |f.value| else 0 }

  /** After the body: checksum, comparison, and the commit point. */
  function Conclude(fs: Files, part: Bytes, opts: Options, env: Env, sha: Bytes -> string): (Files, Outcome) {
    var kept := fs.(part := Some(part));
    if env.cancelledAfter || env.cancelledHashing then (kept, Cancelled)
    else if opts.expected.Some? && opts.expected.value != sha(part) then (kept, Mismatch)
    else if env.cancelledAtCommit then (kept, Cancelled)
    else if env.renameFails then (kept, Failed)
    else (Files(None, Some(part)), Done(sha(part)))
  }

  /** `download`: the files it leaves, its outcome, and the requests it made. A
      416 answer to a resumed request restarts once from nothing. */
  function Attempt(fs: Files, content: Bytes, opts: Options, env: Env, retry: Env, sha: Bytes -> string)
    : (Files, Outcome, nat)
    decreases if Length(fs.part) > 0 then 1 else 0
  {
    var resume := Length(fs.part);
    if env.cancelled then (fs, Cancelled, 0)
    else if env.reply.Unreachable? then (fs, Failed, 1)
    else if env.reply.HttpError? then
      if resume > 0 && env.reply.code == 416 then
        var (files, outcome, n) := Attempt(fs.(part := None), content, opts, retry, retry, sha);
        (files, outcome, n + 1)
      else (fs, Failed, 1)
    else if env.cancelledThen then (fs, Cancelled, 1)
    else
      var appending := resume > 0 && env.reply.partial;
      var start := if appending then Min(resume, |content|) else 0;
      var base := if appending then fs.part.value else [];
      var total := if env.reply.length.Some? then env.reply.length.value + (if appending then resume else 0) else 0;
      if opts.maxBytes > 0 && total > opts.maxBytes then
        (if resume > 0 && !env.reply.partial then fs.(part := None) else fs, Failed, 1)
      else
        var (part, end) := Body(base, content[start..], env.turns, opts.maxBytes);
        if end.Complete? then
          var (files, outcome) := Conclude(fs, part, opts, env, sha);
          (files, outcome, 1)
        else (fs.(part := Some(part)), if end.Stopped? then Cancelled else Failed, 1)
  }

  // ----------------------------------------------------------- main results

  predicate PartIsPrefix(fs: Files, content: Bytes) { fs.part.Some? ==> fs.part.value <= content }

  lemma {:induction false} BodyStaysPrefix(part: Bytes, rest: Bytes, turns: seq<Turn>, maxBytes: nat, content: Bytes)
    requires part + rest == content
    ensures Body(part, rest, turns, maxBytes).0 <= content
    decreases |turns|
  {
    if turns != [] && turns[0].read.Data? {
      var n := Min(turns[0].read.n, |rest|);
      assert part + rest[..n] + rest[n..] == content;
      BodyStaysPrefix(part + rest[..n], rest[n..], turns[1..], maxBytes, content);
    }
  }

  /** One attempt, however it ends, leaves a `.part` that is a prefix of the
      content; makes at most two requests, one unless it was resuming; promotes
      only what it hashed and only if the digest is the expected one; and
      otherwise leaves the destination alone. */
  lemma AttemptIsSafe(fs: Files, content: Bytes, opts: Options, env: Env, retry: Env, sha: Bytes -> string)
    requires PartIsPrefix(fs, content)
    ensures var (files, outcome, n) := Attempt(fs, content, opts, env, retry, sha);
            && PartIsPrefix(files, content)
            && n <= (if Length(fs.part) > 0 then 2 else 1)
            && (if outcome.Done? then
                  && files.part.None? && files.dest.Some? && files.dest.value <= content
                  && outcome.digest == sha(files.dest.value)
                  && (opts.expected.Some? ==> outcome.digest == opts.expected.value)
                else files.dest == fs.dest)
    decreases if Length(fs.part) > 0 then 1 else 0
  {
    var resume := Length(fs.part);
    if !env.cancelled && env.reply.HttpError? {
      if resume > 0 && env.reply.code == 416 { AttemptIsSafe(fs.(part := None), content, opts, retry, retry, sha); }
    } else if !env.cancelled && env.reply.Response? && !env.cancelledThen {
      if resume > 0 && env.reply.partial {
        var p := fs.part.value;
        assert p + content[resume..] == content by {
          assert content[..resume] == p;
        }
        BodyStaysPrefix(p, content[resume..], env.turns, opts.maxBytes, content);
      } else {
        assert content[0..] == content && [] + content == content;
        BodyStaysPrefix([], content, env.turns, opts.maxBytes, content);
      }
    }
  }

  /** Through any sequence of cancelled, failed and resumed attempts. */
  function Attempts(fs: Files, content: Bytes, opts: Options, envs: seq<(Env, Env)>, sha: Bytes -> string): Files {
    if envs == [] then fs
    else
      var last := envs[|envs| - 1];
      Attempt(Attempts(fs, content, opts, envs[..|envs| - 1], sha), content, opts, last.0, last.1, sha).0
  }

  lemma {:induction false} PartIsAlwaysPrefix(content: Bytes, opts: Options, envs: seq<(Env, Env)>,
                                              sha: Bytes -> string)
    ensures PartIsPrefix(Attempts(Files(None, None), content, opts, envs, sha), content)
    decreases |envs|
  {
    if envs != [] {
      var last := envs[|envs| - 1];
      PartIsAlwaysPrefix(content, opts, envs[..|envs| - 1], sha);
      AttemptIsSafe(Attempts(Files(None, None), content, opts, envs[..|envs| - 1], sha), content, opts, last.0,
          last.1, sha);
    }
  }

  /** With the content's own digest expected and no collision, what is promoted
      is the content. */
  lemma VerifiedIsWhole(fs: Files, content: Bytes, opts: Options, env: Env, retry: Env, sha: Bytes -> string)
    requires PartIsPrefix(fs, content) && opts.expected == Some(sha(content))
    requires forall a: Bytes :: sha(a) == sha(content) ==> a == content
    requires Attempt(fs, content, opts, env, retry, sha).1.Done?
    ensures Attempt(fs, content, opts, env, retry, sha).0.dest == Some(content)
  {
    AttemptIsSafe(fs, content, opts, env, retry, sha);
  }

  /** A response that ends early is accepted unless the digest rules it out: the
      read loop cannot tell the end of the connection from the end of the file.
      Any prefix of the content can be promoted this way. */
  lemma UnverifiedCanBeTruncated(content: Bytes, opts: Options, p: Bytes, sha: Bytes -> string)
    returns (fs: Files, env: Env)
    requires p <= content && (opts.expected.Some? ==> opts.expected.value == sha(p))
    ensures PartIsPrefix(fs, content)
    ensures Attempt(fs, content, opts, env, env, sha) == (Files(None, Some(p)), Done(sha(p)), 1)
  {
    var turns := [Turn(false, Eof, false, None, false)];
    fs := Files(if p == [] then None else Some(p), None);
    env := Env(false, Response(p != [], None), false, turns, false, false, false, false);
    assert Body(p, content[|p|..], turns, opts.maxBytes) == (p, Complete);
    assert p == [] ==> content[|p|..] == content[0..];
  }

  lemma ProperOrWhole(p: Bytes, content: Bytes)
    requires p <= content
    ensures p < content || p == content
  {
    assert p == content[..|p|];
    if |p| == |content| { assert content[..|p|] == content; }
  }

  /** Whatever it starts from and however server and connection behave, a
      download that succeeds has promoted the whole content. */
  ghost predicate AlwaysWhole(content: Bytes, opts: Options, sha: Bytes -> string) {
    forall fs, env, retry :: Whole(fs, content, opts, env, retry, sha)
  }

  predicate Whole(fs: Files, content: Bytes, opts: Options, env: Env, retry: Env, sha: Bytes -> string) {
    var r := Attempt(fs, content, opts, env, retry, sha);
    PartIsPrefix(fs, content) && r.1.Done? ==> r.0.dest == Some(content)
  }

  predicate Excluded(opts: Options, p: Bytes, sha: Bytes -> string) {
    opts.expected.Some? && sha(p) != opts.expected.value
  }

  /** That is so exactly when a digest is expected that no proper prefix of the
      content has. */
  lemma DoneIsWholeIffDigestPins(content: Bytes, opts: Options, sha: Bytes -> string)
    ensures AlwaysWhole(content, opts, sha) <==>
              forall p: Bytes | p < content :: Excluded(opts, p, sha)
  {
    if forall p: Bytes | p < content :: Excluded(opts, p, sha) {
      forall fs, env, retry ensures Whole(fs, content, opts, env, retry, sha) {
        PinnedIsWhole(fs, content, opts, env, retry, sha);
      }
    } else {
      var p: Bytes :| p < content && !Excluded(opts, p, sha);
      var fs, env := UnverifiedCanBeTruncated(content, opts, p, sha);
      assert !Whole(fs, content, opts, env, env, sha);
    }
  }

  lemma PinnedIsWhole(fs: Files, content: Bytes, opts: Options, env: Env, retry: Env, sha: Bytes -> string)
    requires forall p: Bytes | p < content :: Excluded(opts, p, sha)
    ensures Whole(fs, content, opts, env, retry, sha)
  {
    hide Attempt;
    var r := Attempt(fs, content, opts, env, retry, sha);
    if PartIsPrefix(fs, content) && r.1.Done? {
      AttemptIsSafe(fs, content, opts, env, retry, sha);
      var p := r.0.dest.value;
      ProperOrWhole(p, content);
      assert p < content ==> Excluded(opts, p, sha);
    }
  }

  // --------------------------------------------------- what the loop computes

  /** The bytes of a body of `size` that the first `k` reads return. */
  function Pos(size: nat, turns: seq<Turn>, k: nat): (r: nat)
    requires k <= |turns|
    ensures r <= size
  {
    if k == 0 then 0
    else
      var p := Pos(size, turns, k - 1);
      if turns[k - 1].read.Data? then Min(p + turns[k - 1].read.n, size) else p
  }

  lemma PosStep(size: nat, turns: seq<Turn>, k: nat)
    requires k < |turns|
    ensures Pos(size, turns, k + 1) ==
            if turns[k].read.Data? then Min(Pos(size, turns, k) + turns[k].read.n, size) else Pos(size, turns, k)
  {
  }

  /** Turn `k` reads something, writes it and lets the loop go on. */
  predicate Passes(base: nat, size: nat, turns: seq<Turn>, maxBytes: nat, k: nat)
    requires k < |turns|
  {
    var t := turns[k];
    && !t.before && !t.after && !t.late && t.read.Data? && t.writeFails == None
    && Pos(size, turns, k + 1) > Pos(size, turns, k)
    && (maxBytes == 0 || base + Pos(size, turns, k + 1) <= maxBytes)
  }

  lemma {:induction false} PosShift(size: nat, turns: seq<Turn>, k: nat)
    requires 0 < k <= |turns|
    ensures var n := Pos(size, turns, 1);
            Pos(size, turns, k) == n + Pos(size - n, turns[1..], k - 1)
    decreases k
  {
    if k > 1 {
      PosShift(size, turns, k - 1);
      assert turns[1..][k - 2] == turns[k - 1];
    }
  }

  lemma PassesShift(base: nat, size: nat, turns: seq<Turn>, maxBytes: nat, k: nat)
    requires 0 < k < |turns|
    ensures var n := Pos(size, turns, 1);
            Passes(base, size, turns, maxBytes, k) == Passes(base + n, size - n, turns[1..], maxBytes, k - 1)
  {
    PosShift(size, turns, k);
    PosShift(size, turns, k + 1);
    hide Pos;
  }

  predicate AllPass(base: nat, size: nat, turns: seq<Turn>, maxBytes: nat, k: nat)
    requires k <= |turns|
  {
    forall j | 0 <= j < k :: Passes(base, size, turns, maxBytes, j)
  }

  /** How the loop ends at turn `k` and what it has then, with `got` bytes read
      before that turn and `upto` with it. */
  function EndOf(base: Bytes, rest: Bytes, turns: seq<Turn>, maxBytes: nat, k: nat, got: nat, upto: nat)
    : (Bytes, BodyEnd)
    requires got <= upto <= |rest|
  {
    if k >= |turns| then (base + rest[..got], BodyFailed)
    else
      var t := turns[k];
      if t.before then (base + rest[..got], Stopped)
      else if t.read == Broken then (base + rest[..got], BodyFailed)
      else if t.after then (base + rest[..got], Stopped)
      else if upto == got then (base + rest[..got], Complete)
      else if t.writeFails.Some? then (base + rest[..Min(got + t.writeFails.value, upto)], BodyFailed)
      else (base + rest[..upto], if maxBytes > 0 && |base| + upto > maxBytes then BodyFailed else Stopped)
  }

  /** The read loop in closed form: turns `0..k` pass, turn `k` is the first that
      does not, and it alone says how the loop ends and what it adds. */
  lemma {:induction false} BodyIsExact(base: Bytes, rest: Bytes, turns: seq<Turn>, maxBytes: nat, k: nat)
    requires k <= |turns| && AllPass(|base|, |rest|, turns, maxBytes, k)
    requires k < |turns| ==> !Passes(|base|, |rest|, turns, maxBytes, k)
    ensures Body(base, rest, turns, maxBytes)
            == EndOf(base, rest, turns, maxBytes, k, Pos(|rest|, turns, k), Upto(|rest|, turns, k))
    decreases |turns|
  {
    hide Body, Passes, EndOf, Pos, AllPass;
    if k == 0 {
      BodyEndsNow(base, rest, turns, maxBytes);
    } else {
      var n := Pos(|rest|, turns, 1);
      LaterTurns(|base|, |rest|, turns, maxBytes, k);
      BodyStep(base, rest, turns, maxBytes);
      var grown, left, later := base + rest[..n], rest[n..], turns[1..];
      BodyIsExact(grown, left, later, maxBytes, k - 1);
      EndShifts(base, rest, turns, maxBytes, k, n, Pos(|left|, later, k - 1), Upto(|left|, later, k - 1));
    }
  }

  lemma BodyEndsNow(base: Bytes, rest: Bytes, turns: seq<Turn>, maxBytes: nat)
    requires turns != [] ==> !Passes(|base|, |rest|, turns, maxBytes, 0)
    ensures Pos(|rest|, turns, 0) == 0
    ensures Body(base, rest, turns, maxBytes) == EndOf(base, rest, turns, maxBytes, 0, 0, Upto(|rest|, turns, 0))
  {
    assert rest[..0] == [] && base + [] == base;
  }

  /** The bytes read by turn `k` and those before it, if there is such a turn. */
  function Upto(size: nat, turns: seq<Turn>, k: nat): (r: nat)
    requires k <= |turns|
    ensures Pos(size, turns, k) <= r <= size
  {
    if k < |turns| then Pos(size, turns, k + 1) else Pos(size, turns, k)
  }

  lemma BodyStep(base: Bytes, rest: Bytes, turns: seq<Turn>, maxBytes: nat)
    requires turns != [] && Passes(|base|, |rest|, turns, maxBytes, 0)
    ensures var n := Pos(|rest|, turns, 1);
            Body(base, rest, turns, maxBytes) == Body(base + rest[..n], rest[n..], turns[1..], maxBytes)
  {
  }

  lemma EndShifts(base: Bytes, rest: Bytes, turns: seq<Turn>, maxBytes: nat, k: nat, n: nat, got: nat, upto: nat)
    requires k > 0 && turns != [] && n <= |rest| && got <= upto <= |rest| - n
    ensures EndOf(base + rest[..n], rest[n..], turns[1..], maxBytes, k - 1, got, upto)
            == EndOf(base, rest, turns, maxBytes, k, n + got, n + upto)
  {
    Regroups(base, rest, n);
  }

  lemma LaterTurns(base: nat, size: nat, turns: seq<Turn>, maxBytes: nat, k: nat)
    requires 0 < k <= |turns| && AllPass(base, size, turns, maxBytes, k)
    requires k < |turns| ==> !Passes(base, size, turns, maxBytes, k)
    ensures var n, later := Pos(size, turns, 1), turns[1..];
            && Passes(base, size, turns, maxBytes, 0)
            && AllPass(base + n, size - n, later, maxBytes, k - 1)
            && (k < |turns| ==> !Passes(base + n, size - n, later, maxBytes, k - 1))
            && Pos(size, turns, k) == n + Pos(size - n, later, k - 1)
            && Upto(size, turns, k) == n + Upto(size - n, later, k - 1)
  {
    hide Passes, Pos;
    var n, later := Pos(size, turns, 1), turns[1..];
    var b, s := base + n, size - n;
    forall j | 0 <= j < k - 1 ensures Passes(b, s, later, maxBytes, j) {
      PassesShift(base, size, turns, maxBytes, j + 1);
    }
    PosShift(size, turns, k);
    if k < |turns| {
      PassesShift(base, size, turns, maxBytes, k);
      PosShift(size, turns, k + 1);
    }
  }

  lemma Regroups(base: Bytes, rest: Bytes, n: nat)
    requires n <= |rest|
    ensures forall m | 0 <= m <= |rest| - n :: base + rest[..n] + rest[n..][..m] == base + rest[..n + m]
  {
    forall m | 0 <= m <= |rest| - n ensures base + rest[..n] + rest[n..][..m] == base + rest[..n + m] {
      assert rest[..n] + rest[n..][..m] == rest[..n + m];
    }
  }

  /** The turn whose read returned nothing, with every turn before it passed and
      no cancel check in it seeing the flag. */
  predicate EndsAt(base: nat, size: nat, turns: seq<Turn>, maxBytes: nat, k: nat) {
    && k < |turns| && AllPass(base, size, turns, maxBytes, k)
    && !turns[k].before && !turns[k].after && turns[k].read != Broken
    && Pos(size, turns, k + 1) == Pos(size, turns, k)
  }

  /** The loop completes exactly when some turn ends it so, and what it has then
      is what the reads before that turn returned, all of it and in order. */
  lemma BodyCompletesIff(base: Bytes, rest: Bytes, turns: seq<Turn>, maxBytes: nat)
    ensures Body(base, rest, turns, maxBytes).1.Complete? <==>
              exists k: nat :: EndsAt(|base|, |rest|, turns, maxBytes, k)
    ensures forall k: nat | EndsAt(|base|, |rest|, turns, maxBytes, k) ::
              Body(base, rest, turns, maxBytes) == (base + rest[..Pos(|rest|, turns, k)], Complete)
  {
    hide Body, Pos;
    var k := FirstNotPassed(|base|, |rest|, turns, maxBytes, 0);
    BodyIsExact(base, rest, turns, maxBytes, k);
    forall j | EndsAt(|base|, |rest|, turns, maxBytes, j) ensures j == k {
      assert !Passes(|base|, |rest|, turns, maxBytes, j);
    }
    if Body(base, rest, turns, maxBytes).1.Complete? { assert EndsAt(|base|, |rest|, turns, maxBytes, k); }
  }

  lemma FirstNotPassed(base: nat, size: nat, turns: seq<Turn>, maxBytes: nat, from: nat) returns (k: nat)
    requires from <= |turns| && AllPass(base, size, turns, maxBytes, from)
    ensures k <= |turns| && AllPass(base, size, turns, maxBytes, k)
    ensures k < |turns| ==> !Passes(base, size, turns, maxBytes, k)
    decreases |turns| - from
  {
    hide Passes;
    if from < |turns| && Passes(base, size, turns, maxBytes, from) {
      k := FirstNotPassed(base, size, turns, maxBytes, from + 1);
    } else {
      k := from;
    }
  }

  // --------------------------------------------------- a download that succeeds

  /** A response of `sent` bytes that nothing disturbs: no check sees the flag,
      nothing fails, the declared length if any is right, every read up to the
      last byte returns something and the next one nothing. */
  predicate Undisturbed(env: Env, sent: nat, k: nat) {
    && !env.cancelled && !env.cancelledThen && !env.cancelledAfter && !env.cancelledHashing
    && !env.cancelledAtCommit && !env.renameFails
    && env.reply.Response? && (env.reply.length == None || env.reply.length.value == sent)
    && k < |env.turns| && Pos(sent, env.turns, k) == sent
    && (forall j | 0 <= j < k :: env.turns[j].read.Data? && env.turns[j].read.n > 0 && Pos(sent, env.turns, j) < sent)
    && (forall j | 0 <= j <= k :: !env.turns[j].before && !env.turns[j].after && !env.turns[j].late
                                  && env.turns[j].writeFails == None && env.turns[j].read != Broken)
  }

  /** The bytes of the content the response carries: the rest of it if it resumes
      a download with status 206, else all of it. */
  function Sent(fs: Files, content: Bytes, env: Env): nat
    requires PartIsPrefix(fs, content) && env.reply.Response?
  {
    if Length(fs.part) > 0 && env.reply.partial then |content| - |fs.part.value| else |content|
  }

  lemma TurnPasses(base: nat, size: nat, env: Env, maxBytes: nat, k: nat, j: nat)
    requires Undisturbed(env, size, k) && j < k && (maxBytes == 0 || base + size <= maxBytes)
    ensures Passes(base, size, env.turns, maxBytes, j)
  {
    PosStep(size, env.turns, j);
    hide Pos;
    assert env.turns[j].read.n > 0;
  }

  lemma LastReadsNothing(base: nat, size: nat, env: Env, maxBytes: nat, k: nat)
    requires Undisturbed(env, size, k)
    ensures Pos(size, env.turns, k + 1) == size && !Passes(base, size, env.turns, maxBytes, k)
  {
    PosStep(size, env.turns, k);
    hide Pos;
  }

  lemma UndisturbedBodyIsWhole(base: Bytes, rest: Bytes, env: Env, maxBytes: nat, k: nat)
    requires Undisturbed(env, |rest|, k) && (maxBytes == 0 || |base| + |rest| <= maxBytes)
    ensures Body(base, rest, env.turns, maxBytes) == (base + rest, Complete)
  {
    hide Body, Passes, Pos;
    var turns, size := env.turns, |rest|;
    forall j | 0 <= j < k ensures Passes(|base|, size, turns, maxBytes, j) {
      TurnPasses(|base|, size, env, maxBytes, k, j);
    }
    LastReadsNothing(|base|, size, env, maxBytes, k);
    BodyIsExact(base, rest, turns, maxBytes, k);
    assert rest[..|rest|] == rest;
  }

  /** An undisturbed download succeeds: fresh, resumed with 206, or resumed and
      answered with 200, the destination is the whole content, its digest is
      returned, no `.part` is left, and one request was made. Only a digest other
      than the expected one stops it, with the whole content kept in `.part`. */
  lemma UndisturbedSucceeds(fs: Files, content: Bytes, opts: Options, env: Env, retry: Env, sha: Bytes -> string,
                            k: nat)
    requires PartIsPrefix(fs, content) && env.reply.Response? && Undisturbed(env, Sent(fs, content, env), k)
    requires opts.maxBytes == 0 || |content| <= opts.maxBytes
    ensures Attempt(fs, content, opts, env, retry, sha)
            == if opts.expected == None || opts.expected.value == sha(content)
               then (Files(None, Some(content)), Done(sha(content)), 1)
               else (Files(Some(content), fs.dest), Mismatch, 1)
  {
    hide Body, Pos;
    var appending := Length(fs.part) > 0 && env.reply.partial;
    var start := if appending then |fs.part.value| else 0;
    var base := if appending then fs.part.value else [];
    assert content[..start] == base && base + content[start..] == content;
    UndisturbedBodyIsWhole(base, content[start..], env, opts.maxBytes, k);
  }

  /** So does one whose range was refused with 416, by starting over. */
  lemma RestartSucceeds(fs: Files, content: Bytes, opts: Options, env: Env, retry: Env, sha: Bytes -> string, k: nat)
    requires Length(fs.part) > 0 && !env.cancelled && env.reply == HttpError(416)
    requires Undisturbed(retry, |content|, k)
    requires opts.maxBytes == 0 || |content| <= opts.maxBytes
    ensures Attempt(fs, content, opts, env, retry, sha)
            == if opts.expected == None || opts.expected.value == sha(content)
               then (Files(None, Some(content)), Done(sha(content)), 2)
               else (Files(Some(content), fs.dest), Mismatch, 2)
  {
    UndisturbedSucceeds(fs.(part := None), content, opts, retry, retry, sha, k);
    hide Body, Undisturbed;
  }

  // ------------------------------------------------------- what outcomes mean

  /** A cancel check somewhere in the call saw the flag. */
  predicate SawFlag(env: Env) {
    || env.cancelled || env.cancelledThen || env.cancelledAfter || env.cancelledHashing || env.cancelledAtCommit
    || exists i :: 0 <= i < |env.turns| && (env.turns[i].before || env.turns[i].after || env.turns[i].late)
  }

  lemma BodyStopsForFlag(base: Bytes, rest: Bytes, env: Env, maxBytes: nat)
    ensures Body(base, rest, env.turns, maxBytes).1.Stopped? ==> SawFlag(env)
  {
    hide Body, Pos;
    var k := FirstNotPassed(|base|, |rest|, env.turns, maxBytes, 0);
    BodyIsExact(base, rest, env.turns, maxBytes, k);
    var end := Body(base, rest, env.turns, maxBytes).1;
    if end.Stopped? {
      var t := env.turns[k];
      if !t.before && !t.after { LateOrFull(|base|, |rest|, env.turns, maxBytes, k); }
    }
  }

  /** A turn that reads and writes within the limit and still does not pass was
      stopped by its last check. */
  lemma LateOrFull(base: nat, size: nat, turns: seq<Turn>, maxBytes: nat, k: nat)
    requires k < |turns| && !Passes(base, size, turns, maxBytes, k)
    requires turns[k].read != Broken && turns[k].writeFails == None && Pos(size, turns, k + 1) != Pos(size, turns, k)
    requires maxBytes == 0 || base + Pos(size, turns, k + 1) <= maxBytes
    ensures turns[k].before || turns[k].after || turns[k].late
  {
    PosStep(size, turns, k);
    hide Pos;
  }

  /** Outcomes are honest: a call reports a cancellation only if a check saw the
      flag, and a checksum mismatch only if the digest of what it kept is not the
      expected one; a failed or cancelled call never shortens the `.part` it
      started from unless the server made it start over. */
  lemma OutcomesAreHonest(fs: Files, content: Bytes, opts: Options, env: Env, retry: Env, sha: Bytes -> string)
    requires PartIsPrefix(fs, content)
    ensures var (files, outcome, n) := Attempt(fs, content, opts, env, retry, sha);
            var restarts := Length(fs.part) > 0 && !env.cancelled && env.reply == HttpError(416);
            && (outcome.Cancelled? ==> SawFlag(env) || (restarts && SawFlag(retry)))
            && (outcome.Mismatch? ==>
                  files.part.Some? && opts.expected.Some? && sha(files.part.value) != opts.expected.value)
            && (n == 0 <==> env.cancelled)
            && (n == 2 ==> restarts)
            && (!outcome.Done? && !restarts && (env.reply.Response? ==> env.reply.partial) && fs.part.Some? ==>
                  files.part.Some? && (fs.part.value <= files.part.value))
    decreases if Length(fs.part) > 0 then 1 else 0
  {
    hide Body, SawFlag;
    var resume := Length(fs.part);
    if !env.cancelled && env.reply.HttpError? && resume > 0 && env.reply.code == 416 {
      OutcomesAreHonest(fs.(part := None), content, opts, retry, retry, sha);
    } else if !env.cancelled && env.reply.Response? && !env.cancelledThen {
      var appending := resume > 0 && env.reply.partial;
      var base := if appending then fs.part.value else [];
      var start := if appending then Min(resume, |content|) else 0;
      BodyStopsForFlag(base, content[start..], env, opts.maxBytes);
      BodyGrows(base, content[start..], env.turns, opts.maxBytes);
    }
    FlagsSeen(env);
  }

  /** How a call that does not start over ends, exactly: before any request if
      the flag is seen first; without touching anything if the request fails, the
      server refuses or the flag is seen then; without reading if the declared
      size is over the limit; and with success if and only if some turn ends the
      loop, the digest is not another one, no later check sees the flag and the
      rename works. */
  lemma AttemptIsExact(fs: Files, content: Bytes, opts: Options, env: Env, retry: Env, sha: Bytes -> string)
    requires PartIsPrefix(fs, content) && !(Length(fs.part) > 0 && !env.cancelled && env.reply == HttpError(416))
    ensures var r := Attempt(fs, content, opts, env, retry, sha);
            var base := if fs.part.Some? && env.reply.Response? && env.reply.partial then fs.part.value else [];
            var rest := content[|base|..];
            if env.cancelled then r == (fs, Cancelled, 0)
            else if !env.reply.Response? then r == (fs, Failed, 1)
            else if env.cancelledThen then r == (fs, Cancelled, 1)
            else if opts.maxBytes > 0 && env.reply.length.Some? && env.reply.length.value + |base| > opts.maxBytes then
              r == (if env.reply.partial || Length(fs.part) == 0 then fs else fs.(part := None), Failed, 1)
            else
              && r.2 == 1
              && (r.1.Done? <==>
                    && !env.cancelledAfter && !env.cancelledHashing && !env.cancelledAtCommit && !env.renameFails
                    && Fetched(base, rest, env.turns, opts, sha))
  {
    hide Body, Fetched;
    if !env.cancelled && env.reply.Response? && !env.cancelledThen {
      var base := if fs.part.Some? && env.reply.partial then fs.part.value else [];
      CompleteIffFetched(base, content[|base|..], env.turns, opts, sha);
    }
  }

  lemma CompleteIffFetched(base: Bytes, rest: Bytes, turns: seq<Turn>, opts: Options, sha: Bytes -> string)
    ensures var (part, end) := Body(base, rest, turns, opts.maxBytes);
            end.Complete? && (opts.expected == None || sha(part) == opts.expected.value) <==>
              Fetched(base, rest, turns, opts, sha)
  {
    hide Body, Pos, EndsAt;
    BodyCompletesIff(base, rest, turns, opts.maxBytes);
    var (part, end) := Body(base, rest, turns, opts.maxBytes);
    if end.Complete? {
      var k: nat :| EndsAt(|base|, |rest|, turns, opts.maxBytes, k);
      assert Fetches(base, rest, turns, opts, sha, k) <==> opts.expected == None || sha(part) == opts.expected.value;
    }
  }

  /** Turn `k` ends the loop, and the digest of what it then has is not another
      than the expected one. */
  predicate Fetches(base: Bytes, rest: Bytes, turns: seq<Turn>, opts: Options, sha: Bytes -> string, k: nat) {
    && EndsAt(|base|, |rest|, turns, opts.maxBytes, k)
    && (opts.expected == None || sha(base + rest[..Pos(|rest|, turns, k)]) == opts.expected.value)
  }

  /** Some turn does. */
  ghost predicate Fetched(base: Bytes, rest: Bytes, turns: seq<Turn>, opts: Options, sha: Bytes -> string) {
    exists k: nat :: Fetches(base, rest, turns, opts, sha, k)
  }

  lemma FlagsSeen(env: Env)
    ensures env.cancelled || env.cancelledThen || env.cancelledAfter || env.cancelledHashing || env.cancelledAtCommit
            ==> SawFlag(env)
  {
  }

  lemma {:induction false} BodyGrows(part: Bytes, rest: Bytes, turns: seq<Turn>, maxBytes: nat)
    ensures part <= Body(part, rest, turns, maxBytes).0
    decreases |turns|
  {
    if turns != [] && turns[0].read.Data? {
      var n := Min(turns[0].read.n, |rest|);
      BodyGrows(part + rest[..n], rest[n..], turns[1..], maxBytes);
    }
  }

  // ------------------------------------------------------------ the size limit

  lemma CompleteIsWithinLimit(base: Bytes, rest: Bytes, turns: seq<Turn>, maxBytes: nat)
    requires maxBytes > 0
    ensures var (part, end) := Body(base, rest, turns, maxBytes);
            end.Complete? ==> part == base || |part| <= maxBytes
  {
    hide Body, Pos;
    BodyCompletesIff(base, rest, turns, maxBytes);
    if Body(base, rest, turns, maxBytes).1.Complete? {
      var k: nat :| EndsAt(|base|, |rest|, turns, maxBytes, k);
      if k == 0 { NothingYet(|rest|, turns); } else { assert Passes(|base|, |rest|, turns, maxBytes, k - 1); }
    }
  }

  lemma NothingYet(size: nat, turns: seq<Turn>)
    ensures Pos(size, turns, 0) == 0
  {
  }

  predicate WithinLimit(fs: Files, content: Bytes, opts: Options, env: Env, retry: Env, sha: Bytes -> string) {
    var r := Attempt(fs, content, opts, env, retry, sha);
    r.1.Done? && r.0.dest.Some? ==> |r.0.dest.value| <= opts.maxBytes
  }

  lemma SmallPartStaysWithin(fs: Files, content: Bytes, opts: Options, env: Env, retry: Env, sha: Bytes -> string)
    requires PartIsPrefix(fs, content) && opts.maxBytes > 0
    requires Length(fs.part) <= opts.maxBytes || Excluded(opts, fs.part.value, sha)
    ensures WithinLimit(fs, content, opts, env, retry, sha)
    decreases if Length(fs.part) > 0 then 1 else 0
  {
    hide Body;
    var resume := Length(fs.part);
    if !env.cancelled && env.reply.HttpError? && resume > 0 && env.reply.code == 416 {
      SmallPartStaysWithin(fs.(part := None), content, opts, retry, retry, sha);
    } else if !env.cancelled && env.reply.Response? && !env.cancelledThen {
      var appending := resume > 0 && env.reply.partial;
      var base := if appending then fs.part.value else [];
      var start := if appending then Min(resume, |content|) else 0;
      CompleteIsWithinLimit(base, content[start..], env.turns, opts.maxBytes);
    }
  }

  /** The size limit holds for every promoted file, whatever server and connection
      do, exactly when the `.part` file it starts from is within the limit or its
      digest is not the expected one: a resumed response without a declared
      length that ends at once is accepted without another look at the limit. */
  lemma LimitHoldsIffPartWithin(fs: Files, content: Bytes, opts: Options, sha: Bytes -> string)
    requires PartIsPrefix(fs, content) && opts.maxBytes > 0
    ensures (forall env, retry :: WithinLimit(fs, content, opts, env, retry, sha)) <==>
              Length(fs.part) <= opts.maxBytes || Excluded(opts, fs.part.value, sha)
  {
    if Length(fs.part) <= opts.maxBytes || Excluded(opts, fs.part.value, sha) {
      forall env, retry ensures WithinLimit(fs, content, opts, env, retry, sha) {
        SmallPartStaysWithin(fs, content, opts, env, retry, sha);
      }
    } else {
      var p, turns := fs.part.value, [Turn(false, Eof, false, None, false)];
      var env := Env(false, Response(true, None), false, turns, false, false, false, false);
      assert Body(p, content[|p|..], turns, opts.maxBytes) == (p, Complete);
      assert !WithinLimit(fs, content, opts, env, env, sha);
    }
  }

  /** Such a `.part` is what a failed attempt leaves behind: the chunk that
      crosses the limit is written before it is counted. */
  lemma FailedAttemptLeavesTooMuch(content: Bytes, opts: Options, n: nat, sha: Bytes -> string) returns (env: Env)
    requires 0 < opts.maxBytes < n <= |content|
    ensures Attempt(Files(None, None), content, opts, env, env, sha) == (Files(Some(content[..n]), None), Failed, 1)
  {
    var turns := [Turn(false, Data(n), false, None, false)];
    env := Env(false, Response(false, None), false, turns, false, false, false, false);
    assert Body([], content[0..], turns, opts.maxBytes) == ([] + content[0..][..n], BodyFailed);
    assert [] + content[0..][..n] == content[..n];
  }

  // --------------------------------------------------------------- the loops

  /** The read loop of `download`, with its running byte count. */
  method ReadBody(base: Bytes, body: Bytes, turns: seq<Turn>, maxBytes: nat)
    returns (part: Bytes, downloaded: nat, end: BodyEnd)
    ensures (part, end) == Body(base, body, turns, maxBytes)
    ensures base <= part && downloaded <= |part|
    ensures !end.BodyFailed? ==> downloaded == |part|
  {
    part, downloaded := base, |base|;
    var i, pos := 0, 0;
    while i < |turns|
      invariant i <= |turns| && pos <= |body| && downloaded == |part| && base <= part
      invariant Body(base, body, turns, maxBytes) == Body(part, body[pos..], turns[i..], maxBytes)
    {
      var t := turns[i];
      assert turns[i..][0] == t && turns[i..][1..] == turns[i + 1..];
      if t.before { return part, downloaded, Stopped; }
      if t.read.Broken? { return part, downloaded, BodyFailed; }
      var n := if t.read.Data? then Min(t.read.n, |body| - pos) else 0;
      if t.after { return part, downloaded, Stopped; }
      if n == 0 { return part, downloaded, Complete; }
      var chunk := body[pos..][..n];
      if t.writeFails.Some? {
        part := part + body[pos..][..Min(t.writeFails.value, n)];
        return part, downloaded, BodyFailed;
      }
      part := part + chunk;
      downloaded := downloaded + n;
      if maxBytes > 0 && downloaded > maxBytes { return part, downloaded, BodyFailed; }
      if t.late { return part, downloaded, Stopped; }
      assert body[pos..][n..] == body[pos + n..];
      pos := pos + n;
      i := i + 1;
    }
    end := BodyFailed;
  }

  /** `sha256_file`: the chunk loop feeds the whole file to the digest, or stops
      at the first check that sees the cancel flag. */
  method Sha256File(file: Bytes, chunkBytes: nat, checks: seq<bool>, sha: Bytes -> string) returns (r: Option<string>)
    requires chunkBytes > 0 && |checks| > |file|
    ensures r.Some? ==> r.value == sha(file)
    ensures (forall i | 0 <= i < |checks| :: !checks[i]) ==> r.Some?
  {
    var fed: Bytes, i := [], 0;
    while true
      invariant i <= |fed| <= |file| && fed == file[..|fed|]
      invariant forall j | 0 <= j < i :: !checks[j]
      decreases |file| - |fed|
    {
      if checks[i] { return None; }
      var n := Min(chunkBytes, |file| - |fed|);
      if n == 0 { break; }
      assert file[..|fed| + n] == file[..|fed|] + file[|fed|..|fed| + n];
      fed := fed + file[|fed|..|fed| + n];
      i := i + 1;
    }
    assert fed == file;
    r := Some(sha(fed));
  }
}
