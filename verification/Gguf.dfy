/** The GGUF header walk (engine/models/gguf.py; section "File Structure" of the
    GGUF specification). Strings are their raw bytes; the cursor may be moved
    past the end of the file, up to the largest offset `limit` the file system
    allows, and only reads notice. */
module Gguf {
  import opened Basics

  // ------------------------------------------------ little-endian integers

  function Pow(n: nat): nat { if n == 0 then 1 else 256 * Pow(n - 1) }

  function Le(b: Bytes): nat { if b == [] then 0 else b[0] + 256 * Le(b[1..]) }

  function Enc(v: nat, n: nat): (b: Bytes)
    ensures |b| == n
  {
    if n == 0 then [] else [v % 256] + Enc(v / 256, n - 1)
  }

  lemma {:induction false} LeInvertsEnc(v: nat, n: nat)
    requires v < Pow(n)
    ensures Le(Enc(v, n)) == v
  {
    if n > 0 {
      LeInvertsEnc(v / 256, n - 1);
      assert Enc(v, n)[1..] == Enc(v / 256, n - 1);
    }
  }

  // ------------------------------------------------------------- value types

  const TEXT := 8
  const ARRAY := 9
  const GUARD := 64 * 1024 * 1024

  predicate Fixed(t: int) { 0 <= t <= 7 || 10 <= t <= 12 }

  function Size(t: int): nat {
    if t == 0 || t == 1 || t == 7 then 1 else if t == 2 || t == 3 then 2 else if 4 <= t <= 6 then 4 else 8
  }

  /** A metadata value: a fixed-width scalar by its type and bytes, a string, or
      an array of either. */
  datatype Value =
    | Scalar(t: int, raw: Bytes)
    | Text(s: Bytes)
    | Scalars(elem: int, raws: seq<Bytes>)
    | Texts(ss: seq<Bytes>)

  /** The integer a scalar holds; booleans count, floats and strings do not. */
  function AsInt(v: Value): Option<int> {
    if !v.Scalar? || v.t == 6 || v.t == 12 || v.raw == [] then None
    else if v.t == 7 then Some(if v.raw[0] != 0 then 1 else 0)
    else if v.t in {1, 3, 5, 11} && Le(v.raw) >= Pow(|v.raw|) / 2 then Some(Le(v.raw) - Pow(|v.raw|))
    else Some(Le(v.raw))
  }

  // ---------------------------------------------------------- reads and seeks

  datatype Got<+T> = Bad | Got(value: T, pos: nat)

  function Read(file: Bytes, pos: nat, n: nat): Got<Bytes> {
    if n == 0 then Got([], pos) else if pos + n <= |file| then Got(file[pos..pos + n], pos + n) else Bad
  }

  function ReadNum(file: Bytes, pos: nat, n: nat): Got<nat> {
    var b := Read(file, pos, n);
    if b.Bad? then Bad else Got(Le(b.value), b.pos)
  }

  function Seek(pos: nat, gap: nat, limit: nat): Option<nat> { if pos + gap <= limit then Some(pos + gap) else None }

  function ReadText(file: Bytes, pos: nat): Got<Bytes> {
    var n := ReadNum(file, pos, 8);
    if n.Bad? || n.value > GUARD then Bad else Read(file, n.pos, n.value)
  }

  function SkipText(file: Bytes, limit: nat, pos: nat): Option<nat> {
    var n := ReadNum(file, pos, 8);
    if n.Bad? then None else Seek(n.pos, n.value, limit)
  }

  function SkipTexts(file: Bytes, limit: nat, pos: nat, count: nat): Option<nat>
    decreases count
  {
    if count == 0 then Some(pos)
    else
      var p := SkipText(file, limit, pos);
      if p.None? then None else SkipTexts(file, limit, p.value, count - 1)
  }

  function SkipArray(file: Bytes, limit: nat, pos: nat): Option<nat> {
    var elem := ReadNum(file, pos, 4);
    if elem.Bad? then None
    else
      var count := ReadNum(file, elem.pos, 8);
      if count.Bad? then None
      else if Fixed(elem.value) then Seek(count.pos, Size(elem.value) * count.value, limit)
      else if elem.value == TEXT then SkipTexts(file, limit, count.pos, count.value)
      else None
  }

  function SkipValue(file: Bytes, limit: nat, pos: nat, t: int): Option<nat> {
    if Fixed(t) then Seek(pos, Size(t), limit)
    else if t == TEXT then SkipText(file, limit, pos)
    else if t == ARRAY then SkipArray(file, limit, pos)
    else None
  }

  /** `_read_scalar_value`: arrays are skipped and give no value. */
  function ReadValue(file: Bytes, limit: nat, pos: nat, t: int): Got<Option<Value>> {
    if Fixed(t) then
      var b := Read(file, pos, Size(t));
      if b.Bad? then Bad else Got(Some(Scalar(t, b.value)), b.pos)
    else if t == TEXT then
      var s := ReadText(file, pos);
      if s.Bad? then Bad else Got(Some(Text(s.value)), s.pos)
    else
      var p := SkipValue(file, limit, pos, t);
      if p.None? then Bad else Got(None, p.value)
  }

  // --------------------------------------------------------------- the probe

  function Ascii(s: string): Bytes {
    if s == "" then [] else [s[0] as int % 256] + Ascii(s[1..])
  }

  function ArchKey(): Bytes { Ascii("general.architecture") }
  function NameKey(): Bytes { Ascii("general.name") }
  function FileTypeKey(): Bytes { Ascii("general.file_type") }
  function Suffix(): Bytes { Ascii(".context_length") }

  predicate HasSuffix(key: Bytes) { |key| >= |Suffix()| && key[|key| - |Suffix()|..] == Suffix() }

  predicate Interesting(key: Bytes) { key == ArchKey() || key == NameKey() || key == FileTypeKey() || HasSuffix(key) }

  datatype Entry = Entry(key: Bytes, value: Value)

  /** Assignment to a dictionary that remembers insertion order. */
  function Put(d: seq<Entry>, key: Bytes, v: Value): seq<Entry> {
    if d == [] then [Entry(key, v)]
    else if d[0].key == key then [Entry(key, v)] + d[1..]
    else [d[0]] + Put(d[1..], key, v)
  }

  function Get(d: seq<Entry>, key: Bytes): Option<Value> {
    if d == [] then None else if d[0].key == key then Some(d[0].value) else Get(d[1..], key)
  }

  function FirstContext(d: seq<Entry>): Option<Value> {
    if d == [] then None else if HasSuffix(d[0].key) then Some(d[0].value) else FirstContext(d[1..])
  }

  /** One turn of the metadata loop; the dictionary after it. */
  function Turn(file: Bytes, limit: nat, pos: nat, d: seq<Entry>): Got<seq<Entry>> {
    var key := ReadText(file, pos);
    if key.Bad? then Bad
    else
      var t := ReadNum(file, key.pos, 4);
      if t.Bad? then Bad
      else if Interesting(key.value) then
        var v := ReadValue(file, limit, t.pos, t.value);
        if v.Bad? then Bad else Got(if v.value.Some? then Put(d, key.value, v.value.value) else d, v.pos)
      else
        var p := SkipValue(file, limit, t.pos, t.value);
        if p.None? then Bad else Got(d, p.value)
  }

  function Walk(file: Bytes, limit: nat, pos: nat, count: nat, d: seq<Entry>): Got<seq<Entry>>
    decreases count
  {
    if count == 0 then Got(d, pos)
    else
      var t := Turn(file, limit, pos, d);
      if t.Bad? then Bad else Walk(file, limit, t.pos, count - 1, t.value)
  }

  datatype Info = Info(valid: bool, arch: Option<Bytes>, name: Option<Bytes>, context: Option<int>)

  const INVALID := Info(false, None, None, None)

  /** `str(v)`; `show` is the text of a value that is not a string. */
  function Shown(v: Option<Value>, show: Value -> Bytes): Option<Bytes> {
    if v.None? then None else if v.value.Text? then Some(v.value.s) else Some(show(v.value))
  }

  function Context(d: seq<Entry>, arch: Option<Bytes>): Option<int> {
    var own := if arch.Some? && arch.value != [] then Get(d, arch.value + Suffix()) else None;
    var ctx := if own.Some? then own else FirstContext(d);
    if ctx.None? then None else AsInt(ctx.value)
  }

  function Summary(d: seq<Entry>, show: Value -> Bytes): Info {
    var arch := Shown(Get(d, ArchKey()), show);
    Info(true, arch, Shown(Get(d, NameKey()), show), Context(d, arch))
  }

  function Magic(): Bytes { Ascii("GGUF") }

  /** The dictionary and where the walk ended, or Bad. */
  function Scan(file: Bytes, limit: nat): Got<seq<Entry>> {
    var magic := Read(file, 0, 4);
    if magic.Bad? || magic.value != Magic() then Bad
    else
      var count := ReadNum(file, 16, 8);
      if count.Bad? then Bad else Walk(file, limit, 24, count.value, [])
  }

  function Probe(file: Bytes, limit: nat, show: Value -> Bytes): Info {
    var d := Scan(file, limit);
    if d.Bad? then INVALID else Summary(d.value, show)
  }

  // ------------------------------------------------------- reading vs skipping

  /** Reading and skipping a scalar or a string end at the same place; skipping
      alone also accepts strings over the guard and values cut off by the end
      of the file. */
  lemma ReadAndSkipAgree(file: Bytes, limit: nat, pos: nat, t: int)
    requires |file| <= limit && (Fixed(t) || t == TEXT)
    ensures var r, k := ReadValue(file, limit, pos, t), SkipValue(file, limit, pos, t);
            && (r.Got? ==> r.value.Some? && (pos <= limit ==> k == Some(r.pos)))
            && (k.Some? && (t == TEXT ==> k.value - pos - 8 <= GUARD) && k.value <= |file| ==>
                  r.Got? && r.pos == k.value)
  {
  }

  // ------------------------------------------------------ work on any input

  /** A key and its value type can be read at `pos`. */
  predicate PairAt(file: Bytes, pos: nat) {
    var key := ReadText(file, pos);
    key.Got? && ReadNum(file, key.pos, 4).Got?
  }

  /** A pair is at least twelve bytes that are really there, and no turn ends
      before the pair it read. */
  lemma PairReads(file: Bytes, limit: nat, pos: nat, d: seq<Entry>)
    ensures PairAt(file, pos) ==> pos + 12 <= |file|
    ensures Turn(file, limit, pos, d).Got? ==> PairAt(file, pos) && Turn(file, limit, pos, d).pos >= pos + 12
  {
    hide Interesting, Put, SkipValue, Le;
    if PairAt(file, pos) {
      var key := ReadText(file, pos);
      assert key.pos >= pos + 8;
      var t := ReadNum(file, key.pos, 4);
      assert t.pos == key.pos + 4 <= |file|;
      SkipForward(file, limit, t.pos, t.value);
    }
  }

  lemma SkipForward(file: Bytes, limit: nat, pos: nat, t: int)
    ensures SkipValue(file, limit, pos, t).Some? ==> SkipValue(file, limit, pos, t).value >= pos
  {
    if t == ARRAY {
      var elem := ReadNum(file, pos, 4);
      if elem.Got? {
        var count := ReadNum(file, elem.pos, 8);
        if count.Got? && elem.value == TEXT { SkipTextsReads(file, limit, count.pos, count.value); }
      }
    }
  }

  /** How many key/type pairs the loop reads, whatever count is claimed. */
  function Pairs(file: Bytes, limit: nat, pos: nat, count: nat, d: seq<Entry>): nat
    decreases count
  {
    if count == 0 || !PairAt(file, pos) then 0
    else
      var t := Turn(file, limit, pos, d);
      1 + if t.Bad? then 0 else Pairs(file, limit, t.pos, count - 1, t.value)
  }

  /** At most one pair for every twelve bytes of the file, on any input. */
  lemma {:induction false} PairsAreBounded(file: Bytes, limit: nat, pos: nat, count: nat, d: seq<Entry>)
    ensures var n := Pairs(file, limit, pos, count, d);
            && (n > 0 ==> pos + 12 * n <= |file|)
            && n <= count && (Walk(file, limit, pos, count, d).Got? ==> n == count)
    decreases count
  {
    hide Turn, PairAt;
    PairReads(file, limit, pos, d);
    if count > 0 && PairAt(file, pos) {
      var t := Turn(file, limit, pos, d);
      if t.Got? { PairsAreBounded(file, limit, t.pos, count - 1, t.value); }
    }
  }

  /** A string array is walked only as far as its length words are really there. */
  lemma {:induction false} SkipTextsReads(file: Bytes, limit: nat, pos: nat, count: nat)
    ensures var p := SkipTexts(file, limit, pos, count);
            p.Some? ==> p.value >= pos + 8 * count && (count > 0 ==> pos + 8 * count <= |file|)
    decreases count
  {
    if count > 0 {
      var p := SkipText(file, limit, pos);
      if p.Some? { SkipTextsReads(file, limit, p.value, count - 1); }
    }
  }

  // ------------------------------------------------------------- the encoder

  function EncText(s: Bytes): Bytes { Enc(|s|, 8) + s }

  function Joined(parts: seq<Bytes>): Bytes { if parts == [] then [] else parts[0] + Joined(parts[1..]) }

  function EncTexts(ss: seq<Bytes>): Bytes { if ss == [] then [] else EncText(ss[0]) + EncTexts(ss[1..]) }

  function TypeOf(v: Value): int { match v case Scalar(t, _) => t case Text(_) => TEXT case _ => ARRAY }

  function EncPayload(v: Value): Bytes {
    match v
    case Scalar(_, raw) => raw
    case Text(s) => EncText(s)
    case Scalars(elem, raws) => (if elem >= 0 then Enc(elem, 4) else []) + Enc(|raws|, 8) + Joined(raws)
    case Texts(ss) => Enc(TEXT, 4) + Enc(|ss|, 8) + EncTexts(ss)
  }

  function EncEntry(e: Entry): Bytes {
    EncText(e.key) + (if TypeOf(e.value) >= 0 then Enc(TypeOf(e.value), 4) else []) + EncPayload(e.value)
  }

  function EncEntries(es: seq<Entry>): Bytes { if es == [] then [] else EncEntry(es[0]) + EncEntries(es[1..]) }

  function EncHeader(version: nat, tensors: nat, count: nat): Bytes {
    Magic() + Enc(version, 4) + Enc(tensors, 8) + Enc(count, 8)
  }

  /** Lengths and counts fit their words, scalars have their width, no arrays of
      arrays. */
  predicate WellFormedValue(v: Value) {
    match v
    case Scalar(t, raw) => Fixed(t) && |raw| == Size(t)
    case Text(s) => |s| < Pow(8)
    case Scalars(elem, raws) => Fixed(elem) && |raws| < Pow(8) && forall i | 0 <= i < |raws| :: |raws[i]| == Size(elem)
    case Texts(ss) => |ss| < Pow(8) && forall i | 0 <= i < |ss| :: |ss[i]| < Pow(8)
  }

  /** Also, strings that are read rather than skipped are within the guard. */
  predicate WellFormed(e: Entry) {
    && |e.key| <= GUARD && WellFormedValue(e.value)
    && (Interesting(e.key) && e.value.Text? ==> |e.value.s| <= GUARD)
  }

  /** `part` stands in the file at `pos`. */
  predicate At(file: Bytes, pos: nat, part: Bytes) { pos + |part| <= |file| && file[pos..pos + |part|] == part }

  lemma AtSplits(file: Bytes, pos: nat, a: Bytes, b: Bytes)
    ensures At(file, pos, a + b) <==> At(file, pos, a) && At(file, pos + |a|, b)
  {
    if pos + |a| + |b| <= |file| {
      var f := file[pos..pos + |a| + |b|];
      assert f[..|a|] == file[pos..pos + |a|] && f[|a|..] == file[pos + |a|..pos + |a| + |b|];
      if f == a + b { assert a == f[..|a|] && b == f[|a|..]; }
    }
  }

  lemma ReadNumFinds(file: Bytes, pos: nat, v: nat, n: nat)
    requires At(file, pos, Enc(v, n)) && v < Pow(n)
    ensures ReadNum(file, pos, n) == Got(v, pos + n)
  {
    LeInvertsEnc(v, n);
  }

  lemma PowIsWide()
    ensures GUARD < Pow(8) && 12 < Pow(4)
  {
    assert Pow(1) == 256;
    assert Pow(2) == 65536;
    assert Pow(3) == 16777216;
    assert Pow(4) == 4294967296;
    assert Pow(8) >= Pow(4) by { assert Pow(6) >= Pow(4); }
  }

  lemma {:induction false} JoinedSize(raws: seq<Bytes>, t: int)
    requires forall i | 0 <= i < |raws| :: |raws[i]| == Size(t)
    ensures |Joined(raws)| == Size(t) * |raws|
    decreases |raws|
  {
    if raws != [] { JoinedSize(raws[1..], t); }
  }

  predicate Readable(v: Value) { v.Scalar? || v.Text? }

  function Noted(e: Entry, d: seq<Entry>): seq<Entry> {
    if Interesting(e.key) && Readable(e.value) then Put(d, e.key, e.value) else d
  }

  function Collect(es: seq<Entry>, d: seq<Entry>): seq<Entry> {
    if es == [] then d else Collect(es[1..], Noted(es[0], d))
  }

  // ------------------------------------------------------------ reading it back

  /** How much of a string array is really read: up to its last length word. */
  function TextsNeed(ss: seq<Bytes>): nat {
    if ss == [] then 0 else if |ss| == 1 then 8 else |EncText(ss[0])| + TextsNeed(ss[1..])
  }

  /** How much of a value is really read when it is skipped. */
  function SkipNeed(v: Value): nat {
    match v
    case Scalar(_, _) => 0
    case Text(_) => 8
    case Scalars(_, _) => 12
    case Texts(ss) => 12 + TextsNeed(ss)
  }

  /** How much of an entry is really read. */
  function Need(e: Entry): nat {
    |EncText(e.key)| + 4 + if Interesting(e.key) && Readable(e.value) then |EncPayload(e.value)| else SkipNeed(e.value)
  }

  /** How much of a metadata section has to be there. */
  function Required(es: seq<Entry>): nat {
    if es == [] then 0 else if |es| == 1 then Need(es[0]) else |EncEntry(es[0])| + Required(es[1..])
  }

  predicate CutOf(file: Bytes, full: Bytes) { |file| <= |full| && file == full[..|file|] }

  lemma CutAt(file: Bytes, full: Bytes, pos: nat, part: Bytes)
    requires CutOf(file, full) && At(full, pos, part) && pos + |part| <= |file|
    ensures At(file, pos, part)
  {
  }

  lemma NumCut(file: Bytes, full: Bytes, pos: nat, v: nat, n: nat)
    requires CutOf(file, full) && At(full, pos, Enc(v, n)) && v < Pow(n) && n > 0
    ensures ReadNum(file, pos, n) == if pos + n <= |file| then Got(v, pos + n) else Bad
  {
    hide Pow, Enc, Le;
    if pos + n <= |file| {
      CutAt(file, full, pos, Enc(v, n));
      ReadNumFinds(file, pos, v, n);
    }
  }

  lemma TextCut(file: Bytes, full: Bytes, limit: nat, pos: nat, s: Bytes)
    requires CutOf(file, full) && At(full, pos, EncText(s)) && |s| < Pow(8) && |full| <= limit
    ensures SkipText(file, limit, pos) == if pos + 8 <= |file| then Some(pos + |EncText(s)|) else None
    ensures |s| <= GUARD ==>
            ReadText(file, pos) == if pos + |EncText(s)| <= |file| then Got(s, pos + |EncText(s)|) else Bad
  {
    hide Pow, Enc, Le, ReadNum;
    AtSplits(full, pos, Enc(|s|, 8), s);
    NumCut(file, full, pos, |s|, 8);
    if pos + 8 + |s| <= |file| { CutAt(file, full, pos + 8, s); }
  }

  lemma {:induction false} TextsCut(file: Bytes, full: Bytes, limit: nat, pos: nat, ss: seq<Bytes>)
    requires CutOf(file, full) && At(full, pos, EncTexts(ss)) && |full| <= limit
    requires forall i | 0 <= i < |ss| :: |ss[i]| < Pow(8)
    ensures SkipTexts(file, limit, pos, |ss|) ==
            if ss == [] || pos + TextsNeed(ss) <= |file| then Some(pos + |EncTexts(ss)|) else None
    decreases |ss|
  {
    hide Pow, SkipText, EncText;
    if ss != [] {
      assert |EncText(ss[0])| >= 8 by { EncTextSize(ss[0]); }
      AtSplits(full, pos, EncText(ss[0]), EncTexts(ss[1..]));
      TextCut(file, full, limit, pos, ss[0]);
      if pos + 8 <= |file| { TextsCut(file, full, limit, pos + |EncText(ss[0])|, ss[1..]); }
    }
  }

  lemma EncTextSize(s: Bytes)
    ensures |EncText(s)| == 8 + |s|
  {
  }

  lemma ArrayCut(file: Bytes, full: Bytes, pos: nat, elem: nat, count: nat, body: Bytes)
    requires CutOf(file, full) && At(full, pos, Enc(elem, 4) + Enc(count, 8) + body) && elem <= 12 && count < Pow(8)
    ensures ReadNum(file, pos, 4) == if pos + 4 <= |file| then Got(elem, pos + 4) else Bad
    ensures ReadNum(file, pos + 4, 8) == if pos + 12 <= |file| then Got(count, pos + 12) else Bad
    ensures At(full, pos + 12, body)
  {
    PowIsWide();
    hide Pow, ReadNum;
    AtSplits(full, pos, Enc(elem, 4) + Enc(count, 8), body);
    AtSplits(full, pos, Enc(elem, 4), Enc(count, 8));
    NumCut(file, full, pos, elem, 4);
    NumCut(file, full, pos + 4, count, 8);
  }

  lemma SkipCut(file: Bytes, full: Bytes, limit: nat, pos: nat, v: Value)
    requires CutOf(file, full) && At(full, pos, EncPayload(v)) && WellFormedValue(v) && |full| <= limit && pos <= |file|
    ensures SkipValue(file, limit, pos, TypeOf(v)) ==
            if pos + SkipNeed(v) <= |file| then Some(pos + |EncPayload(v)|) else None
  {
    hide ReadNum, SkipText, SkipTexts, Enc, Pow, EncTexts, Joined;
    match v {
      case Scalar(t, raw) =>
      case Text(s) => TextCut(file, full, limit, pos, s);
      case Scalars(elem, raws) =>
        ArrayCut(file, full, pos, elem, |raws|, Joined(raws));
        JoinedSize(raws, elem);
      case Texts(ss) =>
        ArrayCut(file, full, pos, TEXT, |ss|, EncTexts(ss));
        TextsCut(file, full, limit, pos + 12, ss);
    }
  }

  lemma ReadCut(file: Bytes, full: Bytes, limit: nat, pos: nat, v: Value)
    requires CutOf(file, full) && At(full, pos, EncPayload(v)) && WellFormedValue(v) && |full| <= limit && pos <= |file|
    requires v.Text? ==> |v.s| <= GUARD
    ensures var need := if Readable(v) then |EncPayload(v)| else SkipNeed(v);
            ReadValue(file, limit, pos, TypeOf(v)) ==
            if pos + need <= |file| then Got(if Readable(v) then Some(v) else None, pos + |EncPayload(v)|) else Bad
  {
    hide SkipValue, ReadText, EncText, Pow;
    SkipCut(file, full, limit, pos, v);
    if v.Text? { TextCut(file, full, limit, pos, v.s); }
    if v.Scalar? && pos + |v.raw| <= |file| { CutAt(file, full, pos, v.raw); }
  }

  lemma TurnCut(file: Bytes, full: Bytes, limit: nat, pos: nat, e: Entry, d: seq<Entry>)
    requires CutOf(file, full) && At(full, pos, EncEntry(e)) && WellFormed(e) && |full| <= limit
    ensures Turn(file, limit, pos, d) == if pos + Need(e) <= |file| then Got(Noted(e, d), pos + |EncEntry(e)|) else Bad
  {
    hide Interesting, Put, Pow, ReadValue, SkipValue, EncPayload, Enc, ReadText, ReadNum, SkipNeed, EncText;
    PowIsWide();
    var t, n := TypeOf(e.value), |EncText(e.key)|;
    AtSplits(full, pos, EncText(e.key) + Enc(t, 4), EncPayload(e.value));
    AtSplits(full, pos, EncText(e.key), Enc(t, 4));
    TextCut(file, full, limit, pos, e.key);
    NumCut(file, full, pos + n, t, 4);
    if pos + n + 4 <= |file| {
      SkipCut(file, full, limit, pos + n + 4, e.value);
      if Interesting(e.key) { ReadCut(file, full, limit, pos + n + 4, e.value); }
    }
  }

  lemma {:induction false} TextsNeedFits(ss: seq<Bytes>)
    ensures TextsNeed(ss) <= |EncTexts(ss)|
    decreases |ss|
  {
    if ss != [] { TextsNeedFits(ss[1..]); }
  }

  lemma NeedFits(e: Entry)
    requires WellFormed(e)
    ensures Need(e) <= |EncEntry(e)|
  {
    hide Interesting;
    if e.value.Texts? { TextsNeedFits(e.value.ss); }
  }

  lemma {:induction false} WalkCut(file: Bytes, full: Bytes, limit: nat, pos: nat, es: seq<Entry>, d: seq<Entry>)
    requires CutOf(file, full) && At(full, pos, EncEntries(es)) && |full| <= limit
    requires forall i | 0 <= i < |es| :: WellFormed(es[i])
    ensures Walk(file, limit, pos, |es|, d) ==
            if es == [] || pos + Required(es) <= |file| then Got(Collect(es, d), pos + |EncEntries(es)|) else Bad
    decreases |es|
  {
    hide Turn, EncEntry, WellFormed, Noted, Need;
    if es != [] {
      var rest := es[1..];
      AtSplits(full, pos, EncEntry(es[0]), EncEntries(rest));
      TurnCut(file, full, limit, pos, es[0], d);
      NeedFits(es[0]);
      if pos + Need(es[0]) <= |file| {
        WalkCut(file, full, limit, pos + |EncEntry(es[0])|, rest, Noted(es[0], d));
      }
      assert |es| == 1 ==> rest == [];
    }
  }

  /** So a cut goes unnoticed only inside the last entry, after its key, its
      type, and of its value: everything if it is reported; nothing of a scalar,
      8 bytes of a string, 12 of a scalar array, and of a string array up to its
      last length word, if it is skipped. */
  lemma {:induction false} RequiredIsLast(es: seq<Entry>)
    requires es != [] && forall i | 0 <= i < |es| :: WellFormed(es[i])
    ensures var n := |es| - 1;
            && Required(es) == |EncEntries(es[..n])| + Need(es[n])
            && Required(es) <= |EncEntries(es)|
    decreases |es|
  {
    hide Need, EncEntry, WellFormed;
    NeedFits(es[0]);
    if |es| > 1 {
      var n, rest := |es| - 1, es[1..];
      RequiredIsLast(rest);
      assert rest[..n - 1] == es[..n][1..];
    }
  }

  // ------------------------------------------------ what a file should give

  /** The last scalar or string under `key`. */
  function LastUnder(es: seq<Entry>, key: Bytes): Option<Value> {
    if es == [] then None
    else
      var later := LastUnder(es[1..], key);
      if later.Some? then later else if es[0].key == key && Readable(es[0].value) then Some(es[0].value) else None
  }

  /** The first key that is some architecture's context length, with a scalar
      or string under it. */
  function FirstContextKey(es: seq<Entry>): Option<Bytes> {
    if es == [] then None
    else if HasSuffix(es[0].key) && Readable(es[0].value) then Some(es[0].key)
    else FirstContextKey(es[1..])
  }

  /** Read off the entries, with no dictionary: the architecture, the name, and
      the context length of that architecture, or else of the first named. */
  function Described(es: seq<Entry>, show: Value -> Bytes): Info {
    var arch := Shown(LastUnder(es, ArchKey()), show);
    var own := if arch.Some? && arch.value != [] then LastUnder(es, arch.value + Suffix()) else None;
    var other := FirstContextKey(es);
    var ctx := if own.Some? then own else if other.Some? then LastUnder(es, other.value) else None;
    Info(true, arch, Shown(LastUnder(es, NameKey()), show), if ctx.Some? then AsInt(ctx.value) else None)
  }

  lemma {:induction false} GetAfterPut(d: seq<Entry>, key: Bytes, v: Value, other: Bytes)
    ensures Get(Put(d, key, v), other) == if other == key then Some(v) else Get(d, other)
    decreases |d|
  {
    if d != [] && d[0].key != key { GetAfterPut(d[1..], key, v, other); }
  }

  lemma {:induction false} CollectGets(es: seq<Entry>, d: seq<Entry>, key: Bytes)
    requires Interesting(key)
    ensures Get(Collect(es, d), key) == if LastUnder(es, key).Some? then LastUnder(es, key) else Get(d, key)
    decreases |es|
  {
    hide Interesting, Put, Get;
    if es != [] {
      GetAfterPut(d, es[0].key, es[0].value, key);
      CollectGets(es[1..], Noted(es[0], d), key);
    }
  }

  /** Every dictionary entry is a scalar or string. */
  predicate AllReadable(d: seq<Entry>) { forall i | 0 <= i < |d| :: Readable(d[i].value) }

  lemma {:induction false} PutKeepsFirst(d: seq<Entry>, key: Bytes, v: Value)
    requires AllReadable(d) && Readable(v)
    ensures AllReadable(Put(d, key, v))
    ensures FirstContextKey(Put(d, key, v)) ==
            if FirstContextKey(d).Some? then FirstContextKey(d) else if HasSuffix(key) then Some(key) else None
    decreases |d|
  {
    hide HasSuffix;
    if d != [] && d[0].key != key { PutKeepsFirst(d[1..], key, v); }
  }

  lemma {:induction false} CollectKeepsFirst(es: seq<Entry>, d: seq<Entry>)
    requires AllReadable(d)
    ensures AllReadable(Collect(es, d))
    ensures FirstContextKey(Collect(es, d)) ==
            if FirstContextKey(d).Some? then FirstContextKey(d) else FirstContextKey(es)
    decreases |es|
  {
    hide HasSuffix, Interesting, Put;
    if es != [] {
      if HasSuffix(es[0].key) { SuffixMatters(es[0].key); }
      if Readable(es[0].value) { PutKeepsFirst(d, es[0].key, es[0].value); }
      CollectKeepsFirst(es[1..], Noted(es[0], d));
    }
  }

  lemma {:induction false} FirstContextIsGet(d: seq<Entry>)
    requires AllReadable(d)
    ensures var k := FirstContextKey(d);
            && FirstContext(d) == (if k.None? then None else Get(d, k.value))
            && (k.Some? ==> HasSuffix(k.value))
    decreases |d|
  {
    hide HasSuffix;
    if d != [] { FirstContextIsGet(d[1..]); }
  }

  lemma KeysMatter(a: Bytes)
    ensures Interesting(ArchKey()) && Interesting(NameKey()) && Interesting(a + Suffix())
  {
    hide Ascii;
  }

  lemma SuffixMatters(key: Bytes)
    requires HasSuffix(key)
    ensures Interesting(key)
  {
    hide Ascii;
  }

  /** The dictionary answers as the entries themselves would. */
  lemma SummaryIsDescription(es: seq<Entry>, show: Value -> Bytes)
    ensures Summary(Collect(es, []), show) == Described(es, show)
  {
    hide Ascii, ArchKey, NameKey, Suffix, Interesting, HasSuffix, Collect, Get, LastUnder, FirstContext,
      FirstContextKey, AsInt;
    var d := Collect(es, []);
    var arch := Shown(LastUnder(es, ArchKey()), show);
    var a := if arch.Some? then arch.value else [];
    KeysMatter(a);
    CollectGets(es, [], ArchKey());
    CollectGets(es, [], NameKey());
    CollectGets(es, [], a + Suffix());
    CollectKeepsFirst(es, []);
    FirstContextIsGet(d);
    EmptyDictionary(ArchKey());
    EmptyDictionary(NameKey());
    EmptyDictionary(a + Suffix());
    var k := FirstContextKey(d);
    if k.Some? { SuffixMatters(k.value); CollectGets(es, [], k.value); EmptyDictionary(k.value); }
  }

  lemma EmptyDictionary(key: Bytes)
    ensures Get([], key) == None && FirstContextKey([]) == None
  {
  }

  /** The header ends at byte 24 with the number of entries. */
  lemma HeaderFinds(file: Bytes, version: nat, tensors: nat, count: nat)
    requires At(file, 0, EncHeader(version, tensors, count)) && count < Pow(8)
    ensures |EncHeader(version, tensors, count)| == 24
    ensures Read(file, 0, 4) == Got(Magic(), 4) && ReadNum(file, 16, 8) == Got(count, 24)
  {
    assert |Magic()| == 4;
    hide Ascii, Pow, Enc, Magic, ReadNum;
    AtSplits(file, 0, Magic() + Enc(version, 4) + Enc(tensors, 8), Enc(count, 8));
    AtSplits(file, 0, Magic() + Enc(version, 4), Enc(tensors, 8));
    AtSplits(file, 0, Magic(), Enc(version, 4));
    ReadNumFinds(file, 16, count, 8);
  }

  lemma HeaderCut(file: Bytes, full: Bytes, version: nat, tensors: nat, count: nat)
    requires CutOf(file, full) && At(full, 0, EncHeader(version, tensors, count)) && count < Pow(8)
    ensures |EncHeader(version, tensors, count)| == 24
    ensures if |file| >= 24 then Read(file, 0, 4) == Got(Magic(), 4) && ReadNum(file, 16, 8) == Got(count, 24)
            else ReadNum(file, 16, 8) == Bad
  {
    hide Pow, EncHeader, Magic, Enc;
    HeaderFinds(full, version, tensors, count);
    if |file| >= 24 {
      CutAt(file, full, 0, EncHeader(version, tensors, count));
      HeaderFinds(file, version, tensors, count);
    }
  }

  // ---------------------------------------------------------------- theorems

  /** Probing inverts the encoder: on every well-formed metadata section,
      whatever follows it, the walk ends exactly after the section and reports
      what the entries say. */
  lemma ProbeInvertsEncoder(version: nat, tensors: nat, es: seq<Entry>, rest: Bytes, limit: nat, show: Value -> Bytes)
    requires |es| < Pow(8) && forall i | 0 <= i < |es| :: WellFormed(es[i])
    requires |EncHeader(version, tensors, |es|) + EncEntries(es) + rest| <= limit
    ensures var head, body := EncHeader(version, tensors, |es|), EncEntries(es);
            && Scan(head + body + rest, limit) == Got(Collect(es, []), |head| + |body|)
            && Probe(head + body + rest, limit, show) == Described(es, show)
  {
    hide Pow, WellFormed, EncHeader, EncEntries, Collect, Summary, Described, Read, ReadNum, Magic, Ascii, Turn,
      Required, Need;
    var head, body := EncHeader(version, tensors, |es|), EncEntries(es);
    var file := head + body + rest;
    assert At(file, 0, head + body);
    AtSplits(file, 0, head, body);
    HeaderFinds(file, version, tensors, |es|);
    if es != [] { RequiredIsLast(es); }
    WalkCut(file, file, limit, 24, es, []);
    SummaryIsDescription(es, show);
  }

  /** In particular the architecture and its context length come back. */
  lemma ProbeFindsContext(version: nat, tensors: nat, es: seq<Entry>, rest: Bytes, limit: nat, show: Value -> Bytes,
                          arch: Bytes, n: nat)
    requires |es| < Pow(8) && forall i | 0 <= i < |es| :: WellFormed(es[i])
    requires |EncHeader(version, tensors, |es|) + EncEntries(es) + rest| <= limit
    requires LastUnder(es, Ascii("general.architecture")) == Some(Text(arch)) && arch != [] && n < Pow(4)
    requires LastUnder(es, arch + Ascii(".context_length")) == Some(Scalar(4, Enc(n, 4)))
    ensures var info := Probe(EncHeader(version, tensors, |es|) + EncEntries(es) + rest, limit, show);
            && info.valid && info.arch == Some(arch) && info.context == Some(n)
            && info.name == Shown(LastUnder(es, Ascii("general.name")), show)
  {
    hide Pow, WellFormed, EncHeader, EncEntries, Probe, Scan, LastUnder, Ascii, Le, Enc, FirstContextKey;
    ProbeInvertsEncoder(version, tensors, es, rest, limit, show);
    LeInvertsEnc(n, 4);
  }

  /** The exact tolerance: a well-formed file cut after any number of bytes is
      reported as if it were whole when the cut leaves everything that is really
      read, and as invalid otherwise. */
  lemma CutIsNoticedIffRead(version: nat, tensors: nat, es: seq<Entry>, n: nat, limit: nat, show: Value -> Bytes)
    requires |es| < Pow(8) && forall i | 0 <= i < |es| :: WellFormed(es[i])
    requires n <= |EncHeader(version, tensors, |es|) + EncEntries(es)| <= limit
    ensures Probe((EncHeader(version, tensors, |es|) + EncEntries(es))[..n], limit, show) ==
            if n >= 24 + Required(es) then Described(es, show) else INVALID
  {
    hide Pow, WellFormed, EncHeader, EncEntries, Collect, Summary, Described, Read, ReadNum, Magic, Ascii, Turn,
      Required;
    var head, body := EncHeader(version, tensors, |es|), EncEntries(es);
    var full := head + body;
    var file := full[..n];
    AtSplits(full, 0, head, body);
    HeaderCut(file, full, version, tensors, |es|);
    if n >= 24 {
      WalkCut(file, full, limit, 24, es, []);
      SummaryIsDescription(es, show);
      if es == [] { NothingRequired(es); }
    }
  }

  /** Some cuts do go unnoticed: a skipped scalar at the end may be missing. */
  lemma ScalarMayBeMissing(es: seq<Entry>)
    requires es != [] && forall i | 0 <= i < |es| :: WellFormed(es[i])
    requires var e := es[|es| - 1]; !Interesting(e.key) && e.value.Scalar?
    ensures Required(es) + Size(es[|es| - 1].value.t) == |EncEntries(es)|
  {
    hide Interesting, EncText;
    var n := |es| - 1;
    RequiredIsLast(es);
    EncodeLast(es);
    assert |EncEntry(es[n])| == |EncText(es[n].key)| + 4 + |es[n].value.raw|;
  }

  lemma {:induction false} EncodeLast(es: seq<Entry>)
    requires es != []
    ensures |EncEntries(es)| == |EncEntries(es[..|es| - 1])| + |EncEntry(es[|es| - 1])|
    decreases |es|
  {
    hide EncEntry;
    if |es| > 1 {
      EncodeLast(es[1..]);
      assert es[1..][..|es| - 2] == es[..|es| - 1][1..];
    }
  }

  /** Every well-formed file that ends in a skipped scalar can lose its last byte
      and is reported as if whole. */
  lemma TruncatedFileIsAccepted(version: nat, tensors: nat, es: seq<Entry>, limit: nat, show: Value -> Bytes)
    requires 0 < |es| < Pow(8) && forall i | 0 <= i < |es| :: WellFormed(es[i])
    requires var e := es[|es| - 1]; !Interesting(e.key) && e.value.Scalar?
    requires |EncHeader(version, tensors, |es|) + EncEntries(es)| <= limit
    ensures var full := EncHeader(version, tensors, |es|) + EncEntries(es);
            |full| > 0 && Probe(full[..|full| - 1], limit, show) == Described(es, show) && Described(es, show).valid
  {
    hide Pow, EncHeader, EncEntries, WellFormed, Interesting, Probe, Required, LastUnder, FirstContextKey, ArchKey,
      NameKey;
    var full := EncHeader(version, tensors, |es|) + EncEntries(es);
    HeaderSize(version, tensors, |es|);
    ScalarMayBeMissing(es);
    CutIsNoticedIffRead(version, tensors, es, |full| - 1, limit, show);
  }

  /** There are such files: one entry with an empty key and a byte. */
  lemma SuchFileExists(e: Entry)
    requires e == Entry([], Scalar(0, [0]))
    ensures WellFormed(e) && !Interesting(e.key) && e.value.Scalar? && |[e]| < Pow(8)
  {
    hide Pow, Interesting;
    NoKeyIsDull();
    PowIsWide();
  }

  lemma NoKeyIsDull()
    ensures !Interesting([])
  {
    assert |ArchKey()| > 0 && |NameKey()| > 0 && |FileTypeKey()| > 0 && |Suffix()| > 0;
  }

  lemma HeaderSize(version: nat, tensors: nat, count: nat)
    ensures |EncHeader(version, tensors, count)| == 24
  {
    assert |Magic()| == 4;
  }

  lemma NothingRequired(es: seq<Entry>)
    requires es == []
    ensures Required(es) == 0
  {
  }

  // --------------------------------------------------- the format's constants

  /** Integers come back in two's complement at the width of their type, and
      booleans as 0 or 1; floats and strings are no integers. */
  lemma IntegersComeBack(t: int, width: nat, v: int)
    requires (t, width) in {(0, 1), (1, 1), (2, 2), (3, 2), (4, 4), (5, 4), (10, 8), (11, 8)}
    requires if t in {1, 3, 5, 11} then -(Pow(width) / 2) <= v < Pow(width) / 2 else 0 <= v < Pow(width)
    ensures Fixed(t) && Size(t) == width
    ensures AsInt(Scalar(t, Enc(if v < 0 then v + Pow(width) else v, width))) == Some(v)
  {
    hide Le, Pow, Enc;
    PowIsEven(width);
    LeInvertsEnc(if v < 0 then v + Pow(width) else v, width);
  }

  lemma PowIsEven(n: nat)
    requires n > 0
    ensures Pow(n) > 0 && Pow(n) % 2 == 0
  {
    assert Pow(n) == 256 * Pow(n - 1);
    PowIsPositive(n - 1);
    hide Pow;
    assert 256 * Pow(n - 1) == 2 * (128 * Pow(n - 1));
  }

  lemma {:induction false} PowIsPositive(n: nat)
    ensures Pow(n) > 0
  {
    if n > 0 { PowIsPositive(n - 1); }
  }

  /** The other types: booleans are a byte, floats four or eight, and there are
      no more. */
  lemma OtherTypes(t: int, raw: Bytes)
    requires t !in {0, 1, 2, 3, 4, 5, 10, 11}
    ensures Fixed(t) <==> t in {6, 7, 12}
    ensures Size(7) == 1 && Size(6) == 4 && Size(12) == 8
    ensures AsInt(Scalar(t, raw)).Some? ==> !Fixed(t) || t == 7
    ensures raw != [] ==> AsInt(Scalar(7, raw)) == Some(if raw[0] == 0 then 0 else 1)
    ensures AsInt(Text(raw)) == None
  {
  }

  /** The keys whose values are read and not skipped. */
  lemma WantedKeys(key: Bytes, arch: Bytes)
    ensures Interesting(Ascii("general.architecture")) && Interesting(Ascii("general.name"))
    ensures Interesting(Ascii("general.file_type")) && Interesting(arch + Ascii(".context_length"))
    ensures Interesting(key) ==>
              || key in {Ascii("general.architecture"), Ascii("general.name"), Ascii("general.file_type")}
              || exists a: Bytes :: key == a + Ascii(".context_length")
  {
    hide Ascii;
    var all := arch + Suffix();
    assert all[|all| - |Suffix()|..] == Suffix();
    if HasSuffix(key) { assert key == key[..|key| - |Suffix()|] + Suffix(); }
  }

  /** What is no GGUF header is invalid: fewer than 24 bytes, or another magic. */
  lemma NoHeaderIsInvalid(file: Bytes, limit: nat, show: Value -> Bytes)
    requires |file| < 24 || file[..4] != [0x47, 0x47, 0x55, 0x46]
    ensures Probe(file, limit, show) == INVALID
  {
    hide Magic, Walk, Le, Summary, Ascii;
    MagicBytes();
    assert |file| >= 4 ==> file[0..4] == file[..4];
  }

  lemma MagicBytes()
    ensures Magic() == [0x47, 0x47, 0x55, 0x46]
  {
    assert Ascii("GGUF") == ['G' as int % 256] + Ascii("GUF");
    assert Ascii("GUF") == ['G' as int % 256] + Ascii("UF");
    assert Ascii("UF") == ['U' as int % 256] + Ascii("F");
    assert Ascii("F") == ['F' as int % 256] + Ascii("");
  }

  /** An entry of an unknown value type, an array of one or of arrays, and a key
      of more than 64 MiB cannot be read. */
  lemma BadEntryIsInvalid(file: Bytes, limit: nat, pos: nat, d: seq<Entry>)
    requires var key := ReadNum(file, pos, 8);
             key.Got? && (key.value > 67108864 || UnknownType(file, pos + 8 + key.value))
    ensures Turn(file, limit, pos, d) == Bad
  {
    hide Interesting, Put, Le, SkipTexts;
  }

  /** The type word at `pos`, or the element type of the array that follows it,
      names no type a value can have there. */
  predicate UnknownType(file: Bytes, pos: nat) {
    var t := ReadNum(file, pos, 4);
    t.Got? && (t.value > 12 || (t.value == 9 && (var elem := ReadNum(file, pos + 4, 4);
                                                 elem.Got? && (elem.value > 12 || elem.value == 9))))
  }

  /** One bad entry spoils the whole walk. */
  lemma {:induction false} BadTurnSpoilsWalk(file: Bytes, limit: nat, pos: nat, d: seq<Entry>, n: nat, count: nat)
    requires n < count && Walk(file, limit, pos, n, d).Got?
    requires var w := Walk(file, limit, pos, n, d); Turn(file, limit, w.pos, w.value) == Bad
    ensures Walk(file, limit, pos, count, d) == Bad
    decreases n
  {
    hide Turn;
    if n > 0 {
      var t := Turn(file, limit, pos, d);
      BadTurnSpoilsWalk(file, limit, t.pos, t.value, n - 1, count - 1);
    }
  }

  // ------------------------------------------------- the open file, in place

  /** The call gave `r` and left the cursor where the specification says; after
      a failure the file is closed and the cursor no longer matters. */
  predicate Did<T(==)>(g: Got<T>, r: Option<T>, pos: nat) {
    if g.Bad? then r.None? else r == Some(g.value) && pos == g.pos
  }

  predicate Moved(to: Option<nat>, ok: bool, pos: nat) { ok == to.Some? && (ok ==> pos == to.value) }

  class Cursor {
    const file: Bytes
    const limit: nat
    var pos: nat

    constructor (file: Bytes, limit: nat)
      ensures this.file == file && this.limit == limit && pos == 0
    {
      this.file, this.limit, pos := file, limit, 0;
    }

    method ReadBytes(n: nat) returns (r: Option<Bytes>)
      modifies this
      ensures Did(Read(file, old(pos), n), r, pos)
    {
      if n == 0 { return Some([]); }
      if pos + n > |file| { return None; }
      r := Some(file[pos..pos + n]);
      pos := pos + n;
    }

    method ReadInt(n: nat) returns (r: Option<nat>)
      modifies this
      ensures Did(ReadNum(file, old(pos), n), r, pos)
    {
      var b := ReadBytes(n);
      r := if b.None? then None else Some(Le(b.value));
    }

    method SeekBy(n: nat) returns (ok: bool)
      modifies this
      ensures Moved(Seek(old(pos), n, limit), ok, pos)
    {
      ok := pos + n <= limit;
      if ok { pos := pos + n; }
    }

    method ReadString() returns (r: Option<Bytes>)
      modifies this
      ensures Did(ReadText(file, old(pos)), r, pos)
    {
      var n := ReadInt(8);
      if n.None? || n.value > GUARD { return None; }
      r := ReadBytes(n.value);
    }

    method SkipString() returns (ok: bool)
      modifies this
      ensures Moved(SkipText(file, limit, old(pos)), ok, pos)
    {
      var n := ReadInt(8);
      if n.None? { return false; }
      ok := SeekBy(n.value);
    }

    method SkipList() returns (ok: bool)
      modifies this
      ensures Moved(SkipArray(file, limit, old(pos)), ok, pos)
    {
      var elem := ReadInt(4);
      if elem.None? { return false; }
      var count := ReadInt(8);
      if count.None? { return false; }
      if Fixed(elem.value) {
        ok := SeekBy(Size(elem.value) * count.value);
      } else if elem.value == TEXT {
        var i := 0;
        ghost var from := pos;
        while i < count.value
          invariant i <= count.value
          invariant SkipTexts(file, limit, from, count.value) == SkipTexts(file, limit, pos, count.value - i)
        {
          ok := SkipString();
          if !ok { return false; }
          i := i + 1;
        }
        ok := true;
      } else {
        ok := false;
      }
    }

    method Skip(t: int) returns (ok: bool)
      modifies this
      ensures Moved(SkipValue(file, limit, old(pos), t), ok, pos)
    {
      if Fixed(t) {
        ok := SeekBy(Size(t));
      } else if t == TEXT {
        ok := SkipString();
      } else if t == ARRAY {
        ok := SkipList();
      } else {
        ok := false;
      }
    }

    /** None is a failure, Some(None) a value that is not wanted. */
    method ReadWanted(t: int) returns (r: Option<Option<Value>>)
      modifies this
      ensures Did(ReadValue(file, limit, old(pos), t), r, pos)
    {
      if Fixed(t) {
        var b := ReadBytes(Size(t));
        r := if b.None? then None else Some(Some(Scalar(t, b.value)));
      } else if t == TEXT {
        var s := ReadString();
        r := if s.None? then None else Some(Some(Text(s.value)));
      } else {
        var ok := Skip(t);
        r := if ok then Some(None) else None;
      }
    }

    method TakeTurn(d: seq<Entry>) returns (r: Option<seq<Entry>>)
      modifies this
      ensures Did(Turn(file, limit, old(pos), d), r, pos)
    {
      hide Interesting, Put, ReadText, ReadNum, ReadValue, SkipValue;
      var key := ReadString();
      if key.None? { return None; }
      var t := ReadInt(4);
      if t.None? { return None; }
      if Interesting(key.value) {
        var v := ReadWanted(t.value);
        if v.None? { return None; }
        r := Some(if v.value.Some? then Put(d, key.value, v.value.value) else d);
      } else {
        var ok := Skip(t.value);
        r := if ok then Some(d) else None;
      }
    }

    /** `probe` on a freshly opened file. */
    method ProbeFile(show: Value -> Bytes) returns (info: Info)
      requires pos == 0
      modifies this
      ensures info == Probe(file, limit, show)
    {
      hide Summary, Turn, Magic;
      var magic := ReadBytes(4);
      if magic.None? || magic.value != Magic() { return INVALID; }
      var version := ReadInt(4);
      if version.None? { return INVALID; }
      var tensors := ReadInt(8);
      if tensors.None? { return INVALID; }
      var count := ReadInt(8);
      if count.None? { return INVALID; }
      var wanted, i := [], 0;
      while i < count.value
        invariant i <= count.value
        invariant Scan(file, limit) == Walk(file, limit, pos, count.value - i, wanted)
      {
        var d := TakeTurn(wanted);
        if d.None? { return INVALID; }
        wanted, i := d.value, i + 1;
      }
      info := Summary(wanted, show);
    }
  }
}
