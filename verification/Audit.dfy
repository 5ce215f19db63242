/** The append-only, hash-chained audit log (engine/audit/log.py). */
module Audit {
  import opened Basics

  /** What a row commits to; `detail` stands for the decoded value. */
  datatype Fields = Fields(ts: string, actor: string, action: string, target: Option<string>, detail: string)

  datatype Row = Row(id: int, fields: Fields, prev: string, hash: string)

  /** SHA-256 in hexadecimal, and the canonical JSON text of a row. */
  datatype Scheme = Scheme(sha: string -> string, canon: Fields -> string)

  const WIDTH := 64

  function Zeros(n: nat): (s: string)
    ensures |s| == n
  {
    if n == 0 then "" else Zeros(n - 1) + "0"
  }

  function Genesis(): string { Zeros(WIDTH) }

  function RowHash(s: Scheme, prev: string, f: Fields): string { s.sha(prev + s.canon(f)) }

  /** One call of the row hash. */
  datatype Input = Input(prev: string, fields: Fields)

  function Text(s: Scheme, x: Input): string { x.prev + s.canon(x.fields) }

  /** On these inputs the digest and the canonical text have no collision, and
      every digest has its width and is not all zeros. Only the inputs that
      were really hashed are asked about: no digest is injective on all texts. */
  ghost predicate Sound(s: Scheme, inputs: set<Input>) {
    && (forall x, y | x in inputs && y in inputs && s.sha(Text(s, x)) == s.sha(Text(s, y)) :: Text(s, x) == Text(s, y))
    && (forall x, y | x in inputs && y in inputs && s.canon(x.fields) == s.canon(y.fields) :: x.fields == y.fields)
    && (forall x | x in inputs :: |s.sha(Text(s, x))| == WIDTH && s.sha(Text(s, x)) != Genesis())
  }

  /** The digest and the canonical text concatenate without ambiguity. */
  lemma RowHashIsInjective(s: Scheme, inputs: set<Input>, x: Input, y: Input)
    requires Sound(s, inputs) && x in inputs && y in inputs
    requires |x.prev| == |y.prev| && RowHash(s, x.prev, x.fields) == RowHash(s, y.prev, y.fields)
    ensures x == y
  {
    assert Text(s, x) == Text(s, y);
    assert x.prev == Text(s, x)[..|x.prev|] && y.prev == Text(s, y)[..|y.prev|];
    assert s.canon(x.fields) == Text(s, x)[|x.prev|..] && s.canon(y.fields) == Text(s, y)[|y.prev|..];
  }

  // ------------------------------------------------------------------ verify

  /** The hash the row at `i` has to continue. */
  function Prev(rows: seq<Row>, i: nat): string
    requires i <= |rows|
  {
    if i == 0 then Genesis() else rows[i - 1].hash
  }

  predicate Good(s: Scheme, rows: seq<Row>, i: nat)
    requires i < |rows|
  {
    rows[i].prev == Prev(rows, i) && rows[i].hash == RowHash(s, Prev(rows, i), rows[i].fields)
  }

  predicate Chained(s: Scheme, rows: seq<Row>) { forall i | 0 <= i < |rows| :: Good(s, rows, i) }

  datatype VerifyResult = VerifyResult(ok: bool, count: nat, firstBad: Option<int>)

  /** Accepts exactly the chained logs; otherwise names the earliest bad row. */
  method Verify(s: Scheme, rows: seq<Row>) returns (r: VerifyResult)
    ensures r.ok <==> Chained(s, rows)
    ensures r.ok ==> r.count == |rows| && r.firstBad == None
    ensures !r.ok ==> 0 < r.count <= |rows| && r.firstBad == Some(rows[r.count - 1].id)
                      && !Good(s, rows, r.count - 1) && Chained(s, rows[..r.count - 1])
  {
    hide Genesis, RowHash;
    var prev, count := Genesis(), 0;
    for i := 0 to |rows|
      invariant count == i && prev == Prev(rows, i)
      invariant forall j | 0 <= j < i :: Good(s, rows, j)
    {
      count := count + 1;
      if rows[i].prev != prev || rows[i].hash != RowHash(s, prev, rows[i].fields) {
        assert !Good(s, rows, i);
        forall j | 0 <= j < i ensures Good(s, rows[..i], j) { assert Good(s, rows, j); }
        return VerifyResult(false, count, Some(rows[i].id));
      }
      prev := rows[i].hash;
    }
    return VerifyResult(true, count, None);
  }

  // ------------------------------------------------------- what a chain pins

  lemma PrefixIsChained(s: Scheme, rows: seq<Row>, n: nat)
    requires n <= |rows| && Chained(s, rows)
    ensures Chained(s, rows[..n])
  {
    forall j | 0 <= j < n ensures Good(s, rows[..n], j) { assert Good(s, rows, j); }
  }

  /** Appending a row that continues the last hash, and no other, keeps the chain. */
  lemma ChainGrows(s: Scheme, rows: seq<Row>, row: Row)
    ensures Chained(s, rows + [row]) <==>
              Chained(s, rows) && row.prev == Prev(rows, |rows|) && row.hash == RowHash(s, row.prev, row.fields)
  {
    var all := rows + [row];
    if Chained(s, all) {
      PrefixIsChained(s, all, |rows|);
      assert all[..|rows|] == rows && Good(s, all, |rows|);
    } else if Chained(s, rows) {
      forall j | 0 <= j < |rows| ensures Good(s, all, j) { assert Good(s, rows, j); }
      assert !Good(s, all, |rows|);
    }
  }

  /** What recording these rows hashed. */
  function Inputs(rows: seq<Row>): set<Input> {
    set i | 0 <= i < |rows| :: Input(rows[i].prev, rows[i].fields)
  }

  lemma InputsHas(rows: seq<Row>, i: nat)
    requires i < |rows|
    ensures Input(rows[i].prev, rows[i].fields) in Inputs(rows)
  {
  }

  lemma WidthOfPrev(s: Scheme, inputs: set<Input>, rows: seq<Row>, i: nat)
    requires Sound(s, inputs) && Inputs(rows) <= inputs && Chained(s, rows) && i <= |rows|
    ensures |Prev(rows, i)| == WIDTH && (Prev(rows, i) == Genesis() <==> i == 0)
  {
    if i > 0 {
      assert Good(s, rows, i - 1);
      InputsHas(rows, i - 1);
      var x := Input(rows[i - 1].prev, rows[i - 1].fields);
      assert rows[i - 1].hash == s.sha(Text(s, x));
    }
  }

  /** Equal hashes were computed from equal rows. */
  lemma StepBack(s: Scheme, inputs: set<Input>, a: seq<Row>, i: nat, b: seq<Row>, j: nat)
    requires Sound(s, inputs) && Inputs(a) + Inputs(b) <= inputs
    requires Chained(s, a) && Chained(s, b) && 0 < i <= |a| && j <= |b| && Prev(a, i) == Prev(b, j)
    ensures j > 0 && Prev(a, i - 1) == Prev(b, j - 1)
    ensures a[i - 1].fields == b[j - 1].fields && a[i - 1].prev == b[j - 1].prev && a[i - 1].hash == b[j - 1].hash
  {
    hide Sound, RowHash, Inputs;
    WidthOfPrev(s, inputs, a, i);
    WidthOfPrev(s, inputs, b, j);
    assert Good(s, a, i - 1) && Good(s, b, j - 1);
    WidthOfPrev(s, inputs, a, i - 1);
    WidthOfPrev(s, inputs, b, j - 1);
    InputsHas(a, i - 1);
    InputsHas(b, j - 1);
    RowHashIsInjective(s, inputs, Input(a[i - 1].prev, a[i - 1].fields), Input(b[j - 1].prev, b[j - 1].fields));
  }

  /** Equal hashes at two points of two chains mean equal histories up to there. */
  lemma {:induction false} SameHashSameHistory(s: Scheme, inputs: set<Input>, a: seq<Row>, i: nat, b: seq<Row>, j: nat)
    requires Sound(s, inputs) && Inputs(a) + Inputs(b) <= inputs
    requires Chained(s, a) && Chained(s, b) && i <= |a| && j <= |b| && Prev(a, i) == Prev(b, j)
    ensures i == j
    ensures forall k | 0 <= k < i :: a[k].fields == b[k].fields && a[k].prev == b[k].prev && a[k].hash == b[k].hash
    decreases i
  {
    hide Sound, Inputs, Chained;
    if i > 0 {
      StepBack(s, inputs, a, i, b, j);
      SameHashSameHistory(s, inputs, a, i - 1, b, j - 1);
    } else {
      WidthOfPrev(s, inputs, b, j);
    }
  }

  /** The same rows but for their ids, which are not hashed. */
  predicate SameContent(a: seq<Row>, b: seq<Row>) {
    && |a| == |b|
    && forall k | 0 <= k < |a| :: a[k].fields == b[k].fields && a[k].prev == b[k].prev && a[k].hash == b[k].hash
  }

  /** Two logs that verify and end in the same hash are the same log. */
  lemma LastHashPinsLog(s: Scheme, a: seq<Row>, b: seq<Row>)
    requires Sound(s, Inputs(a) + Inputs(b)) && Chained(s, a) && Chained(s, b)
    ensures Prev(a, |a|) == Prev(b, |b|) <==> SameContent(a, b)
  {
    hide Sound, Inputs;
    if Prev(a, |a|) == Prev(b, |b|) { SameHashSameHistory(s, Inputs(a) + Inputs(b), a, |a|, b, |b|); }
  }

  function Removed(rows: seq<Row>, i: nat): seq<Row>
    requires i < |rows|
  {
    rows[..i] + rows[i + 1..]
  }

  /** Removing a row is noticed exactly when it is not the last one: a log cut
      short at the end still verifies. */
  lemma RemovalIsNoticedIffNotLast(s: Scheme, rows: seq<Row>, i: nat)
    requires Sound(s, Inputs(rows)) && Chained(s, rows) && i < |rows|
    ensures Chained(s, Removed(rows, i)) <==> i == |rows| - 1
  {
    var less := Removed(rows, i);
    if i == |rows| - 1 {
      assert less == rows[..i];
      PrefixIsChained(s, rows, i);
    } else if Chained(s, less) {
      assert Good(s, less, i) && Good(s, rows, i + 1);
      assert Prev(rows, i + 1) == Prev(rows, i);
      SameHashSameHistory(s, Inputs(rows), rows, i + 1, rows, i);
    }
  }

  /** So does inserting one, unless it is appended as a proper record. */
  lemma InsertionIsNoticedIffNotAppended(s: Scheme, rows: seq<Row>, i: nat, row: Row)
    requires i <= |rows| && Sound(s, Inputs(rows) + {Input(Prev(rows, i), row.fields)}) && Chained(s, rows)
    ensures Chained(s, rows[..i] + [row] + rows[i..]) <==>
              i == |rows| && row.prev == Prev(rows, i) && row.hash == RowHash(s, row.prev, row.fields)
  {
    var more := rows[..i] + [row] + rows[i..];
    if i == |rows| {
      assert more == rows + [row];
      ChainGrows(s, rows, row);
    } else if Chained(s, more) {
      var upTo := rows[..i] + [row];
      assert more[..i + 1] == upTo;
      PrefixIsChained(s, more, i + 1);
      assert Good(s, more, i) && Good(s, more, i + 1) && Good(s, rows, i);
      InputsOfInserted(rows, i, row);
      SameHashSameHistory(s, Inputs(rows) + {Input(Prev(rows, i), row.fields)}, upTo, i + 1, rows, i);
    }
  }

  lemma InputsOfInserted(rows: seq<Row>, i: nat, row: Row)
    requires i <= |rows| && row.prev == Prev(rows, i)
    ensures Inputs(rows[..i] + [row]) <= Inputs(rows) + {Input(Prev(rows, i), row.fields)}
  {
    var upTo := rows[..i] + [row];
    forall x | x in Inputs(upTo) ensures x in Inputs(rows) + {Input(Prev(rows, i), row.fields)} {
      var k :| 0 <= k < |upTo| && x == Input(upTo[k].prev, upTo[k].fields);
      if k < i { InputsHas(rows, k); }
    }
  }

  /** A row edited in place, with whatever hashes, is noticed at that row or at
      the one after it, unless the edit re-hashes the last row. */
  lemma EditIsNoticed(s: Scheme, rows: seq<Row>, i: nat, row: Row)
    requires i < |rows| && Sound(s, Inputs(rows) + {Input(Prev(rows, i), row.fields)})
    requires Chained(s, rows) && row.fields != rows[i].fields
    ensures var bad := rows[i := row];
            && (forall j | 0 <= j < i :: Good(s, bad, j))
            && (Chained(s, bad) <==>
                  i == |rows| - 1 && row.prev == Prev(rows, i) && row.hash == RowHash(s, row.prev, row.fields))
            && (!Chained(s, bad) ==> !Good(s, bad, i) || (i + 1 < |rows| && !Good(s, bad, i + 1)))
  {
    hide Sound, RowHash;
    var bad := rows[i := row];
    forall j | 0 <= j < i ensures Good(s, bad, j) { assert Good(s, rows, j); }
    assert Good(s, rows, i) && Prev(bad, i) == Prev(rows, i);
    InputsHas(rows, i);
    var inputs := Inputs(rows) + {Input(Prev(rows, i), row.fields)};
    if Good(s, bad, i) {
      if row.hash == rows[i].hash {
        RowHashIsInjective(s, inputs, Input(Prev(rows, i), row.fields), Input(rows[i].prev, rows[i].fields));
      }
      assert i + 1 < |rows| ==> Good(s, rows, i + 1) && !Good(s, bad, i + 1);
    }
  }

  // ------------------------------------------------------ such schemes exist

  function Hex(d: nat): char
    requires d < 16
  {
    "0123456789abcdef"[d]
  }

  function Sixteen(n: nat): nat { if n == 0 then 1 else 16 * Sixteen(n - 1) }

  /** `i` in `n` hexadecimal digits. */
  function Digits(i: nat, n: nat): (s: string)
    ensures |s| == n
  {
    if n == 0 then "" else Digits(i / 16, n - 1) + [Hex(i % 16)]
  }

  lemma HexIsInjective(a: nat, b: nat)
    requires a < 16 && b < 16
    ensures Hex(a) == Hex(b) ==> a == b
  {
  }

  lemma {:induction false} DigitsAreInjective(i: nat, j: nat, n: nat)
    requires i < Sixteen(n) && j < Sixteen(n) && Digits(i, n) == Digits(j, n)
    ensures i == j
  {
    hide Hex;
    if n > 0 {
      HexIsInjective(i % 16, j % 16);
      assert Digits(i, n)[..n - 1] == Digits(i / 16, n - 1) && Digits(j, n)[..n - 1] == Digits(j / 16, n - 1);
      assert Digits(i, n)[n - 1] == Hex(i % 16) && Digits(j, n)[n - 1] == Hex(j % 16);
      DigitsAreInjective(i / 16, j / 16, n - 1);
    }
  }

  lemma {:induction false} DigitsOfZero(n: nat)
    ensures Digits(0, n) == Zeros(n)
  {
    if n > 0 {
      DigitsOfZero(n - 1);
      assert [Hex(0)] == "0";
    }
  }

  /** Numbered digests; number 0 is the genesis value. */
  function Mark(i: nat): string { Digits(i, WIDTH) }

  lemma MarksDiffer(i: nat, j: nat)
    requires i < Sixteen(WIDTH) && j < Sixteen(WIDTH) && Mark(i) == Mark(j)
    ensures i == j
  {
    hide Sixteen, Digits;
    DigitsAreInjective(i, j, WIDTH);
  }

  lemma FirstMarkIsGenesis()
    ensures Mark(0) == Genesis()
  {
    hide Digits, Zeros;
    DigitsOfZero(WIDTH);
  }

  /** A record and the one it continues: 0 for the start, else the node number
      `parent` - 1. Logs that share a beginning are branches of one tree. */
  datatype Node = Node(parent: nat, fields: Fields)

  /** Every node continues an earlier one; no two continue the same one with the
      same canonical text, and canonical texts do not collide; there are fewer
      nodes than digests. */
  ghost predicate Tree(canon: Fields -> string, nodes: seq<Node>) {
    && |nodes| < Sixteen(WIDTH)
    && (forall i | 0 <= i < |nodes| :: nodes[i].parent <= i)
    && (forall i, j | 0 <= i < |nodes| && 0 <= j < |nodes| && nodes[i].parent == nodes[j].parent
                      && canon(nodes[i].fields) == canon(nodes[j].fields) :: i == j)
    && (forall i, j | 0 <= i < |nodes| && 0 <= j < |nodes| && canon(nodes[i].fields) == canon(nodes[j].fields) ::
          nodes[i].fields == nodes[j].fields)
  }

  function NodeInput(nodes: seq<Node>, i: nat): Input
    requires i < |nodes|
  {
    Input(Mark(nodes[i].parent), nodes[i].fields)
  }

  function NodeText(canon: Fields -> string, nodes: seq<Node>, i: nat): string
    requires i < |nodes|
  {
    Mark(nodes[i].parent) + canon(nodes[i].fields)
  }

  lemma NodeTextsDiffer(canon: Fields -> string, nodes: seq<Node>, i: nat, j: nat)
    requires Tree(canon, nodes) && i < |nodes| && j < |nodes| && NodeText(canon, nodes, i) == NodeText(canon, nodes, j)
    ensures i == j
  {
    var x, y := NodeText(canon, nodes, i), NodeText(canon, nodes, j);
    assert Mark(nodes[i].parent) == x[..WIDTH] && Mark(nodes[j].parent) == y[..WIDTH];
    assert canon(nodes[i].fields) == x[WIDTH..] && canon(nodes[j].fields) == y[WIDTH..];
    hide Mark, Sixteen;
    MarksDiffer(nodes[i].parent, nodes[j].parent);
  }

  /** The first node from `k` on whose text is `x`, or the number of nodes. */
  function FindFrom(canon: Fields -> string, nodes: seq<Node>, x: string, k: nat): (i: nat)
    requires k <= |nodes|
    ensures k <= i <= |nodes|
    decreases |nodes| - k
  {
    if k == |nodes| || NodeText(canon, nodes, k) == x then k else FindFrom(canon, nodes, x, k + 1)
  }

  lemma {:induction false} FindsIt(canon: Fields -> string, nodes: seq<Node>, k: nat, i: nat)
    requires Tree(canon, nodes) && k <= i < |nodes|
    ensures FindFrom(canon, nodes, NodeText(canon, nodes, i), k) == i
    decreases i - k
  {
    hide NodeText, Tree;
    if NodeText(canon, nodes, k) == NodeText(canon, nodes, i) {
      NodeTextsDiffer(canon, nodes, k, i);
    } else {
      FindsIt(canon, nodes, k + 1, i);
    }
  }

  function TreeSha(canon: Fields -> string, nodes: seq<Node>, x: string): string {
    var i := FindFrom(canon, nodes, x, 0);
    Mark(if i < |nodes| then i + 1 else 0)
  }

  function TreeScheme(canon: Fields -> string, nodes: seq<Node>): Scheme {
    Scheme(x => TreeSha(canon, nodes, x), canon)
  }

  function TreeInputs(nodes: seq<Node>): set<Input> { set i | 0 <= i < |nodes| :: NodeInput(nodes, i) }

  lemma NodeDigest(canon: Fields -> string, nodes: seq<Node>, i: nat)
    requires Tree(canon, nodes) && i < |nodes|
    ensures var s, x := TreeScheme(canon, nodes), NodeInput(nodes, i);
            s.sha(Text(s, x)) == Mark(i + 1) && s.canon == canon && |Mark(i + 1)| == WIDTH && Mark(i + 1) != Genesis()
  {
    hide Mark, Genesis, Sixteen, Tree, FindFrom;
    FindsIt(canon, nodes, 0, i);
    MarkIsDigest(i + 1);
    TreeIsSmall(canon, nodes);
    FirstMarkIsGenesis();
    var s, x := TreeScheme(canon, nodes), NodeInput(nodes, i);
    assert Text(s, x) == NodeText(canon, nodes, i);
    if Mark(i + 1) == Mark(0) { MarksDiffer(i + 1, 0); }
  }

  lemma MarkIsDigest(i: nat)
    ensures |Mark(i)| == WIDTH
  {
  }

  lemma TreeIsSmall(canon: Fields -> string, nodes: seq<Node>)
    requires Tree(canon, nodes)
    ensures |nodes| < Sixteen(WIDTH)
  {
    hide Sixteen;
  }

  lemma TreeIsSound(canon: Fields -> string, nodes: seq<Node>)
    requires Tree(canon, nodes)
    ensures Sound(TreeScheme(canon, nodes), TreeInputs(nodes))
  {
    hide Mark, Genesis, NodeInput, Text, Sixteen;
    var s := TreeScheme(canon, nodes);
    forall x, y | x in TreeInputs(nodes) && y in TreeInputs(nodes)
      ensures s.sha(Text(s, x)) == s.sha(Text(s, y)) ==> Text(s, x) == Text(s, y)
      ensures s.canon(x.fields) == s.canon(y.fields) ==> x.fields == y.fields
      ensures |s.sha(Text(s, x))| == WIDTH && s.sha(Text(s, x)) != Genesis()
    {
      var i :| 0 <= i < |nodes| && x == NodeInput(nodes, i);
      var j :| 0 <= j < |nodes| && y == NodeInput(nodes, j);
      NodeDigest(canon, nodes, i);
      NodeDigest(canon, nodes, j);
      if Mark(i + 1) == Mark(j + 1) { MarksDiffer(i + 1, j + 1); }
      InputFields(nodes, i);
      InputFields(nodes, j);
    }
  }

  lemma InputFields(nodes: seq<Node>, i: nat)
    requires i < |nodes|
    ensures NodeInput(nodes, i).fields == nodes[i].fields
  {
  }

  /** What the k-th record of a log continues. */
  function Continues(path: seq<nat>, k: nat): nat
    requires k <= |path|
  {
    if k == 0 then 0 else path[k - 1] + 1
  }

  /** A log: each record continues the one before it. */
  predicate Branch(nodes: seq<Node>, path: seq<nat>) {
    forall k | 0 <= k < |path| :: path[k] < |nodes| && nodes[path[k]].parent == Continues(path, k)
  }

  function BranchLog(nodes: seq<Node>, path: seq<nat>): (rows: seq<Row>)
    requires Branch(nodes, path)
    ensures |rows| == |path|
    ensures forall k | 0 <= k < |path| ::
              rows[k] == Row(k + 1, nodes[path[k]].fields, Mark(nodes[path[k]].parent), Mark(path[k] + 1))
  {
    seq(|path|, k requires 0 <= k < |path| =>
      Row(k + 1, nodes[path[k]].fields, Mark(nodes[path[k]].parent), Mark(path[k] + 1)))
  }

  /** The assumption of the theorems is met by logs of any shape: every tree of
      records, with fewer nodes than there are digests, has a digest under which
      all its branches verify and under which `Sound` holds of all its nodes
      together. Two logs are two branches; an edited or inserted row is one more
      node that continues the same record. */
  lemma SoundIsMet(canon: Fields -> string, nodes: seq<Node>, path: seq<nat>, inputs: set<Input>)
    requires Tree(canon, nodes) && Branch(nodes, path) && inputs <= TreeInputs(nodes)
    ensures var s, rows := TreeScheme(canon, nodes), BranchLog(nodes, path);
            && s.canon == canon && Chained(s, rows) && Inputs(rows) <= TreeInputs(nodes) && Sound(s, inputs)
            && (forall k | 0 <= k <= |path| :: Prev(rows, k) == Mark(Continues(path, k)))
  {
    var s, rows := TreeScheme(canon, nodes), BranchLog(nodes, path);
    TreeIsSound(canon, nodes);
    FirstMarkIsGenesis();
    SubsetIsSound(s, TreeInputs(nodes), inputs);
    hide Mark, Genesis, Sixteen, Sound, Good, Tree;
    forall k | 0 <= k < |rows| ensures Good(s, rows, k) && Input(rows[k].prev, rows[k].fields) in TreeInputs(nodes) {
      BranchIsGood(canon, nodes, path, k);
      assert NodeInput(nodes, path[k]) in TreeInputs(nodes);
    }
  }

  lemma BranchIsGood(canon: Fields -> string, nodes: seq<Node>, path: seq<nat>, k: nat)
    requires Tree(canon, nodes) && Branch(nodes, path) && k < |path|
    ensures Good(TreeScheme(canon, nodes), BranchLog(nodes, path), k)
  {
    hide Mark, Genesis, Tree, TreeScheme, BranchLog;
    var s, rows, i := TreeScheme(canon, nodes), BranchLog(nodes, path), path[k];
    NodeDigest(canon, nodes, i);
    FirstMarkIsGenesis();
    assert nodes[i].parent == Continues(path, k);
    assert k > 0 ==> rows[k - 1].hash == Mark(path[k - 1] + 1);
    assert rows[k] == Row(k + 1, nodes[i].fields, Mark(nodes[i].parent), Mark(i + 1));
    assert RowHash(s, Prev(rows, k), rows[k].fields) == s.sha(Text(s, NodeInput(nodes, i)));
  }

  lemma SubsetIsSound(s: Scheme, inputs: set<Input>, some: set<Input>)
    requires Sound(s, inputs) && some <= inputs
    ensures Sound(s, some)
  {
  }

  // ------------------------------------------------------------------ record

  /** `record` reads the last hash and inserts its row in two statements; other
      calls may run in between. `at` is the length of the log it read. */
  datatype Draft = Draft(fields: Fields, prev: string, at: nat)

  datatype State = State(rows: seq<Row>, drafts: map<nat, Draft>)

  datatype Event =
    | ReadLast(call: nat, fields: Fields)
    | Insert(call: nat)

  function Begun(t: State, call: nat, f: Fields): State {
    if call in t.drafts then t
    else t.(drafts := t.drafts[call := Draft(f, Prev(t.rows, |t.rows|), |t.rows|)])
  }

  function Next(s: Scheme, t: State, e: Event): State {
    match e
    case ReadLast(call, f) => Begun(t, call, f)
    case Insert(call) =>
      if call in t.drafts then
        var d := t.drafts[call];
        State(t.rows + [Row(|t.rows| + 1, d.fields, d.prev, RowHash(s, d.prev, d.fields))], t.drafts - {call})
      else t
  }

  function Run(s: Scheme, events: seq<Event>): State {
    if events == [] then State([], map[]) else Next(s, Run(s, events[..|events| - 1]), events[|events| - 1])
  }

  /** No insert of the run found the log changed since its read. */
  predicate Serial(s: Scheme, events: seq<Event>) {
    events == [] ||
    (var before, t, e := events[..|events| - 1], Run(s, events[..|events| - 1]), events[|events| - 1];
     Serial(s, before) && (e.Insert? && e.call in t.drafts ==> t.drafts[e.call].at == |t.rows|))
  }

  predicate DraftsOk(t: State) {
    forall c | c in t.drafts :: t.drafts[c].at <= |t.rows| && t.drafts[c].prev == Prev(t.rows, t.drafts[c].at)
  }

  lemma {:induction false} RunKeepsDrafts(s: Scheme, events: seq<Event>)
    ensures DraftsOk(Run(s, events))
    decreases |events|
  {
    if events != [] { RunKeepsDrafts(s, events[..|events| - 1]); }
  }

  lemma RowsOnlyGrow(s: Scheme, events: seq<Event>)
    requires events != [] && Sound(s, Inputs(Run(s, events).rows))
    ensures Sound(s, Inputs(Run(s, events[..|events| - 1]).rows))
  {
    var before, after := Run(s, events[..|events| - 1]).rows, Run(s, events).rows;
    assert forall k | 0 <= k < |before| :: before[k] == after[k];
    forall x | x in Inputs(before) ensures x in Inputs(after) {
      var k :| 0 <= k < |before| && x == Input(before[k].prev, before[k].fields);
      InputsHas(after, k);
    }
  }

  /** A log verifies if and only if its records did not overlap: each insert
      directly followed the state its call had read. */
  lemma {:induction false} LogVerifiesIffSerial(s: Scheme, events: seq<Event>)
    requires Sound(s, Inputs(Run(s, events).rows))
    ensures Chained(s, Run(s, events).rows) <==> Serial(s, events)
    decreases |events|
  {
    if events == [] { return; }
    hide Sound, Inputs, RowHash, Chained;
    RowsOnlyGrow(s, events);
    var t, e := Run(s, events[..|events| - 1]), events[|events| - 1];
    LogVerifiesIffSerial(s, events[..|events| - 1]);
    RunKeepsDrafts(s, events[..|events| - 1]);
    if e.Insert? && e.call in t.drafts {
      var d := t.drafts[e.call];
      ChainGrows(s, t.rows, Row(|t.rows| + 1, d.fields, d.prev, RowHash(s, d.prev, d.fields)));
      if Chained(s, t.rows) && d.prev == Prev(t.rows, |t.rows|) {
        SameHashSameHistory(s, Inputs(t.rows), t.rows, d.at, t.rows, |t.rows|);
      }
    }
  }

  /** A call that reads the last hash and inserts adds one row with its fields, the
      next id and the hash it read, whatever other calls insert in between, and
      is then over: inserting or reading again for it adds nothing. */
  lemma CallAddsOneRow(s: Scheme, t: State, call: nat, f: Fields, g: Fields, others: seq<Row>)
    requires call !in t.drafts
    ensures var read := Next(s, Next(s, t, ReadLast(call, f)), ReadLast(call, g));
            var met := read.(rows := read.rows + others);
            var done := Next(s, met, Insert(call));
            && read.rows == t.rows && done.drafts == t.drafts && |done.rows| == |t.rows| + |others| + 1
            && done.rows[..|t.rows| + |others|] == t.rows + others
            && done.rows[|done.rows| - 1]
                 == Row(|done.rows|, f, Prev(t.rows, |t.rows|), RowHash(s, Prev(t.rows, |t.rows|), f))
            && Next(s, done, Insert(call)) == done
  {
    var read := Next(s, Next(s, t, ReadLast(call, f)), ReadLast(call, g));
    assert t.drafts[call := read.drafts[call]] - {call} == t.drafts;
  }

  /** Two records that overlap, under a digest without collisions: the log they
      leave does not verify. */
  lemma OverlapBreaksLog(canon: Fields -> string, f: Fields, g: Fields) returns (s: Scheme, events: seq<Event>)
    requires canon(f) != canon(g)
    ensures s.canon == canon && Sound(s, Inputs(Run(s, events).rows)) && |Run(s, events).rows| == 2
    ensures !Serial(s, events) && !Chained(s, Run(s, events).rows)
  {
    var nodes := [Node(0, f), Node(0, g)];
    assert Tree(canon, nodes) by { assert Sixteen(WIDTH) > 2 by { SixteenGrows(WIDTH); } }
    s := TreeScheme(canon, nodes);
    TreeIsSound(canon, nodes);
    FirstMarkIsGenesis();
    hide Mark, Sound, Sixteen, TreeScheme, RowHash;
    events := OverlapRun(s, f, g);
    var rows := Run(s, events).rows;
    forall x | x in Inputs(rows) ensures x in TreeInputs(nodes) {
      var k :| 0 <= k < |rows| && x == Input(rows[k].prev, rows[k].fields);
      assert x == NodeInput(nodes, k);
    }
    SubsetIsSound(s, TreeInputs(nodes), Inputs(rows));
    LogVerifiesIffSerial(s, events);
  }

  lemma {:induction false} SixteenGrows(n: nat)
    ensures Sixteen(n) > n
  {
    if n > 0 { SixteenGrows(n - 1); }
  }

  lemma RunSnoc(s: Scheme, events: seq<Event>, e: Event)
    ensures Run(s, events + [e]) == Next(s, Run(s, events), e)
    ensures var t := Run(s, events);
            Serial(s, events + [e]) <==>
              Serial(s, events) && (e.Insert? && e.call in t.drafts ==> t.drafts[e.call].at == |t.rows|)
  {
    hide Next;
    assert (events + [e])[..|events|] == events;
  }

  lemma OverlapRun(s: Scheme, f: Fields, g: Fields) returns (events: seq<Event>)
    ensures !Serial(s, events)
    ensures Run(s, events).rows ==
            [Row(1, f, Genesis(), RowHash(s, Genesis(), f)), Row(2, g, Genesis(), RowHash(s, Genesis(), g))]
  {
    hide RowHash, Genesis;
    events := [];
    assert Run(s, events) == State([], map[]);
    RunSnoc(s, events, ReadLast(0, f));
    events := events + [ReadLast(0, f)];
    RunSnoc(s, events, ReadLast(1, g));
    events := events + [ReadLast(1, g)];
    RunSnoc(s, events, Insert(0));
    events := events + [Insert(0)];
    RunSnoc(s, events, Insert(1));
    events := events + [Insert(1)];
  }

  /** The table, and one undisturbed `record`. */
  class AuditLog {
    const scheme: Scheme
    var rows: seq<Row>
    var nextId: int

    constructor (scheme: Scheme)
      ensures rows == [] && Chained(scheme, rows) && this.scheme == scheme
    {
      this.scheme, rows, nextId := scheme, [], 1;
    }

    method Record(f: Fields) returns (row: Row)
      modifies this
      ensures rows == old(rows) + [row] && row.fields == f && row.id == old(nextId) && nextId == old(nextId) + 1
      ensures Chained(scheme, rows) <==> Chained(scheme, old(rows))
    {
      var prev := if |rows| == 0 then Genesis() else rows[|rows| - 1].hash;
      row := Row(nextId, f, prev, RowHash(scheme, prev, f));
      ChainGrows(scheme, rows, row);
      rows, nextId := rows + [row], nextId + 1;
    }
  }
}
