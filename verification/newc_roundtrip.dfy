/** Writing archives and reading them back, and what an accepted archive guarantees. */
module NewcRoundTrip {
  import opened NewcArchive

  // ---------------------------------------------------------------- writing

  type HeaderNumbers = f: seq<nat> | |f| == 13 witness seq(13, _ => 0)

  /** Size and name size among the header numbers are filled in when the entry is written. */
  datatype Entry = Entry(name: Name, content: Bytes, fields: HeaderNumbers)

  function Hex(n: nat, width: nat): Bytes {
    if width == 0 then []
    else Hex(n / 16, width - 1) + [HexChar(n % 16)]
  }

  /** Eight characters for a number; the reader takes a minus sign, which the format has no use for. */
  function Field(n: int): Bytes {
    if n < 0 then [45] + Hex(-n, 7) else Hex(n, 8)
  }

  predicate Fits(n: int) {
    -0x1000_0000 < n < 0x1_0000_0000
  }

  function HexFields(fields: seq<int>): Bytes {
    if fields == [] then [] else HexFields(fields[..|fields| - 1]) + Field(fields[|fields| - 1])
  }

  function Zeros(n: nat): Bytes {
    seq(n, _ => 0)
  }

  function Padding(n: nat): nat {
    (4 - n % 4) % 4
  }

  /** `n` and what aligns it. */
  function Padded(n: nat): nat {
    n + Padding(n)
  }

  /** Where the content of an entry starts within what is written. */
  function Start(e: Entry): nat {
    Padded(HEADER + |e.name| + 1)
  }

  function Fields(e: Entry): HeaderNumbers {
    e.fields[6 := |e.content|][11 := |e.name| + 1]
  }

  function Written(e: Entry): Bytes {
    MAGIC + HexFields(Fields(e))
    + (e.name + ([0] + (Zeros(Padding(HEADER + |e.name| + 1))
    + (e.content + Zeros(Padding(|e.content|))))))
  }

  ghost predicate Complete(e: Entry) {
    (forall f <- e.fields :: f < 0x1_0000_0000) && |e.content| <= LIMIT && |e.name| < LIMIT
  }

  /** The members of an archive and the trailer that ends it. */
  function Archive(entries: seq<Entry>, fields: HeaderNumbers): Bytes {
    if entries == [] then Written(Entry(TRAILER, [], fields))
    else Written(entries[0]) + Archive(entries[1..], fields)
  }

  /** A regular file under a usable relative name. */
  ghost predicate Storable(e: Entry) {
    && Complete(e)
    && e.name != TRAILER && Text(e.name) && SafePath(e.name)
    && Regular(e.fields[1])
  }

  ghost predicate Distinct(entries: seq<Entry>) {
    forall i, j | 0 <= i < j < |entries| :: entries[i].name != entries[j].name
  }

  function Collected(files: map<Name, Bytes>, entries: seq<Entry>): map<Name, Bytes>
    decreases |entries|
  {
    if entries == [] then files else Collected(files[entries[0].name := entries[0].content], entries[1..])
  }

  /** The dictionary of distinct entries holds each content under its name and nothing else. */
  lemma {:induction false} CollectedHolds(files: map<Name, Bytes>, entries: seq<Entry>)
    requires Distinct(entries)
    ensures forall e <- entries :: e.name in Collected(files, entries) && Collected(files, entries)[e.name] == e.content
    ensures forall n :: n in Collected(files, entries) <==> n in files || exists e :: e in entries && e.name == n
    ensures forall n <- files :: (forall e <- entries :: e.name != n) ==> Collected(files, entries)[n] == files[n]
    decreases |entries|
  {
    if entries != [] {
      var first, rest := entries[0], entries[1..];
      assert entries == [first] + rest;
      CollectedHolds(files[first.name := first.content], rest);
      forall e | e in rest ensures e.name != first.name {
      }
    }
  }

  // ---------------------------------------------------------------- numbers read back

  function Power(width: nat): nat {
    if width == 0 then 1 else 16 * Power(width - 1)
  }

  predicate LowerHex(s: Bytes) {
    forall c <- s :: 48 <= c <= 57 || 97 <= c <= 102
  }

  function HexChar(digit: nat): Byte
    requires digit < 16
  {
    if digit < 10 then 48 + digit else 87 + digit
  }

  lemma HexCharReads(digit: nat)
    requires digit < 16
    ensures HexDigit(HexChar(digit)) == digit && LowerHex([HexChar(digit)])
  {
  }

  lemma DigitsExtend(high: Bytes, last: Byte)
    requires HexDigit(last) >= 0 && (high != [] ==> high[|high| - 1] != UNDERSCORE)
    ensures high == [] ==> Digits(high + [last]) == Some(HexDigit(last))
    ensures high != [] ==>
      Digits(high + [last])
      == if Digits(high).None? then None else Some(Digits(high).value * 16 + HexDigit(last))
  {
    hide *;
    var s := high + [last];
    assert s[..|s| - 1] == high && s[|s| - 1] == last;
    DigitsStep(s);
  }

  lemma DigitsStep(s: Bytes)
    requires s != [] && HexDigit(s[|s| - 1]) >= 0
    ensures |s| == 1 ==> Digits(s) == Some(HexDigit(s[0]))
    ensures |s| > 1 && s[|s| - 2] != UNDERSCORE ==>
      Digits(s)
      == (var high := Digits(s[..|s| - 1]);
          if high.None? then None else Some(high.value * 16 + HexDigit(s[|s| - 1])))
  {
    hide HexDigit;
  }

  lemma HexExtend(n: nat, width: nat)
    requires width > 0 && n < Power(width)
    ensures Hex(n, width) == Hex(n / 16, width - 1) + [HexChar(n % 16)]
    ensures n / 16 < Power(width - 1) && (width == 1 ==> n < 16)
  {
  }

  lemma LowerHexParts(a: Bytes, b: Bytes)
    requires LowerHex(a) && LowerHex(b)
    ensures LowerHex(a + b)
    ensures a != [] ==> a[|a| - 1] != UNDERSCORE
  {
    if a != [] {
      assert a[|a| - 1] in a;
    }
  }

  lemma {:induction false} HexReads(n: nat, width: nat)
    requires width > 0 && n < Power(width)
    ensures LowerHex(Hex(n, width)) && Digits(Hex(n, width)) == Some(n)
    decreases width
  {
    hide *;
    var high, digit := Hex(n / 16, width - 1), n % 16;
    HexExtend(n, width);
    HexCharReads(digit);
    HexLength(n / 16, width - 1);
    if width == 1 {
      assert high == [];
      DigitsExtend([], HexChar(digit));
      assert [] + [HexChar(digit)] == [HexChar(digit)];
    } else {
      HexReads(n / 16, width - 1);
      LowerHexParts(high, [HexChar(digit)]);
      DigitsExtend(high, HexChar(digit));
    }
  }

  lemma {:induction false} HexLength(n: nat, width: nat)
    ensures |Hex(n, width)| == width
  {
    if width > 0 {
      HexLength(n / 16, width - 1);
    }
  }

  lemma PlainNumber(s: Bytes)
    requires |s| >= 2 && LowerHex(s)
    ensures Number(s) == Digits(s)
  {
    hide SkipSpaces, DropSpaces, Unprefixed, Digits;
    PlainEnds(s);
    Unspaced(s);
    PlainUnprefixed(s);
    assert s[0] in s;
  }

  lemma MinusNumber(s: Bytes)
    requires |s| >= 2 && LowerHex(s) && Digits(s).Some?
    ensures Number([45] + s) == Some(-Digits(s).value)
  {
    hide SkipSpaces, DropSpaces, Unprefixed, Digits;
    var t := [45] + s;
    PlainEnds(s);
    assert t[0] == 45 && t[|t| - 1] == s[|s| - 1] && t[1..] == s;
    Unspaced(t);
    PlainUnprefixed(s);
    hide LowerHex;
  }

  lemma PlainEnds(s: Bytes)
    requires |s| >= 2 && LowerHex(s)
    ensures !Space(s[0]) && !Space(s[|s| - 1])
  {
    assert s[0] in s && s[|s| - 1] in s;
  }

  lemma Unspaced(t: Bytes)
    requires t != [] && !Space(t[0]) && !Space(t[|t| - 1])
    ensures SkipSpaces(t) == t && DropSpaces(t) == t
  {
  }

  lemma PlainUnprefixed(s: Bytes)
    requires |s| >= 2 && LowerHex(s)
    ensures Unprefixed(s) == s
  {
    assert s[1] in s;
  }

  lemma FieldLength(n: int)
    ensures |Field(n)| == 8
  {
    HexLength(if n < 0 then -n else n, if n < 0 then 7 else 8);
    hide Hex;
  }

  lemma Powers()
    ensures Power(7) == 0x1000_0000 && Power(8) == 0x1_0000_0000
  {
    assert Power(4) == 0x1_0000;
  }

  lemma NumberReads(n: int)
    requires Fits(n)
    ensures Number(Field(n)) == Some(n)
  {
    hide Number, Digits, Hex, Power;
    Powers();
    var m, width := if n < 0 then -n else n, if n < 0 then 7 else 8;
    HexReads(m, width);
    HexLength(m, width);
    if n < 0 {
      MinusNumber(Hex(m, 7));
    } else {
      PlainNumber(Hex(m, 8));
    }
  }

  // ---------------------------------------------------------------- parts of the data

  ghost predicate Holds(data: Bytes, at: int, part: Bytes) {
    0 <= at && at + |part| <= |data| && data[at..at + |part|] == part
  }

  lemma HoldsParts(data: Bytes, at: int, a: Bytes, b: Bytes)
    requires Holds(data, at, a + b)
    ensures Holds(data, at, a) && Holds(data, at + |a|, b)
  {
    var ab := a + b;
    assert ab[..|a|] == a && ab[|a|..] == b;
    assert data[at..at + |a|] == data[at..at + |ab|][..|a|];
    assert data[at + |a|..at + |ab|] == data[at..at + |ab|][|a|..];
  }

  lemma HoldsSlice(data: Bytes, at: int, part: Bytes)
    requires Holds(data, at, part)
    ensures Slice(data, at, at + |part|) == part
  {
  }

  lemma {:induction false} FieldsLength(fields: seq<int>)
    ensures |HexFields(fields)| == 8 * |fields|
  {
    if fields != [] {
      FieldsLength(fields[..|fields| - 1]);
      FieldLength(fields[|fields| - 1]);
    }
  }

  lemma FieldsBack(fields: seq<int>)
    requires fields != []
    ensures HexFields(fields) == HexFields(fields[..|fields| - 1]) + Field(fields[|fields| - 1])
  {
  }

  lemma HoldsBefore(front: Bytes, back: Bytes, at: nat, part: Bytes)
    requires Holds(front, at, part)
    ensures Holds(front + back, at, part)
  {
    assert (front + back)[at..at + |part|] == front[at..at + |part|];
  }

  lemma HoldsEnd(front: Bytes, back: Bytes)
    ensures Holds(front + back, |front|, back)
  {
  }

  lemma {:induction false} FieldAt(fields: seq<int>, i: nat)
    requires i < |fields|
    ensures Holds(HexFields(fields), 8 * i, Field(fields[i]))
  {
    hide *;
    var before, last := fields[..|fields| - 1], fields[|fields| - 1];
    FieldsBack(fields);
    FieldsLength(before);
    if i < |before| {
      FieldAt(before, i);
      HoldsBefore(HexFields(before), Field(last), 8 * i, Field(fields[i]));
    } else {
      HoldsEnd(HexFields(before), Field(last));
    }
  }

  lemma HoldsAfter(front: Bytes, back: Bytes, at: nat, part: Bytes)
    requires Holds(back, at, part)
    ensures Holds(front + back, |front| + at, part)
  {
    assert (front + back)[|front| + at..|front| + at + |part|] == back[at..at + |part|];
  }

  lemma FieldSlice(front: Bytes, back: Bytes, at: nat, part: Bytes)
    requires Holds(back, at, part) && |front| == 6 && |part| == 8
    ensures Slice(front + back, at + 6, at + 14) == part
  {
    hide *;
    HoldsAfter(front, back, at, part);
    HoldsSlice(front + back, at + 6, part);
  }

  lemma HeaderField(front: Bytes, fields: seq<int>, i: nat)
    requires |front| == 6 && i < |fields|
    ensures Slice(front + HexFields(fields), 8 * i + 6, 8 * i + 14) == Field(fields[i])
  {
    hide *;
    FieldAt(fields, i);
    FieldLength(fields[i]);
    FieldSlice(front, HexFields(fields), 8 * i, Field(fields[i]));
  }

  lemma NumbersEmpty(header: Bytes)
    ensures Numbers(header, 0) == Some([])
  {
  }

  lemma NumbersExtend(header: Bytes, before: seq<int>, last: int)
    requires Numbers(header, |before|) == Some(before)
    requires Number(Slice(header, 8 * |before| + 6, 8 * |before| + 14)) == Some(last)
    ensures Numbers(header, |before| + 1) == Some(before + [last])
  {
    hide Number, Slice;
  }

  lemma {:induction false} NumbersRead(front: Bytes, fields: seq<int>, count: nat)
    requires |front| == 6 && count <= |fields| && forall f <- fields :: Fits(f)
    ensures Numbers(front + HexFields(fields), count) == Some(fields[..count])
  {
    hide *;
    if count == 0 {
      NumbersEmpty(front + HexFields(fields));
    } else {
      var header, i := front + HexFields(fields), count - 1;
      NumbersRead(front, fields, i);
      HeaderField(front, fields, i);
      assert fields[i] in fields;
      NumberReads(fields[i]);
      NumbersExtend(header, fields[..i], fields[i]);
      assert fields[..count] == fields[..i] + [fields[i]];
    }
  }

  // ---------------------------------------------------------------- one member read back

  lemma WrittenParts(data: Bytes, at: int, e: Entry)
    requires Complete(e) && Holds(data, at, Written(e))
    ensures Holds(data, at, MAGIC + HexFields(Fields(e))) && |MAGIC + HexFields(Fields(e))| == HEADER
    ensures Holds(data, at + HEADER, e.name)
    ensures Holds(data, at + HEADER + |e.name|, [0])
    ensures Holds(data, at + Start(e), e.content)
    ensures |Written(e)| == Start(e) + Padded(|e.content|)
    ensures |Written(e)| >= HEADER
  {
    hide *;
    WrittenShape(e);
    var header := MAGIC + HexFields(Fields(e));
    var pad, end := Zeros(Padding(HEADER + |e.name| + 1)), Zeros(Padding(|e.content|));
    HoldsParts(data, at, header, e.name + ([0] + (pad + (e.content + end))));
    HoldsParts(data, at + HEADER, e.name, [0] + (pad + (e.content + end)));
    HoldsParts(data, at + HEADER + |e.name|, [0], pad + (e.content + end));
    HoldsParts(data, at + HEADER + |e.name| + 1, pad, e.content + end);
    HoldsParts(data, at + HEADER + |e.name| + 1 + |pad|, e.content, end);
  }

  lemma WrittenShape(e: Entry)
    ensures (var pad, end := Zeros(Padding(HEADER + |e.name| + 1)), Zeros(Padding(|e.content|));
             && Written(e) == MAGIC + HexFields(Fields(e)) + (e.name + ([0] + (pad + (e.content + end))))
             && Start(e) == HEADER + |e.name| + 1 + |pad|
             && Padded(|e.content|) == |e.content| + |end|)
    ensures |MAGIC + HexFields(Fields(e))| == HEADER && HEADER == 110
  {
    FieldsLength(Fields(e));
    hide HexFields, Fields, Padding;
  }

  lemma HeaderStep(data: Bytes, at: int, header: Bytes, fields: seq<int>, names: set<Name>)
    requires |fields| == 13 && at + HEADER <= |data| && Slice(data, at, at + HEADER) == header
    requires Slice(header, 0, 6) == MAGIC && Numbers(header, 13) == Some(fields)
    ensures StepAt(data, at, names) == Named(data, at, names, fields[11], fields[6], fields[1])
  {
    hide Numbers, Named, Slice;
  }

  lemma FieldsFit(e: Entry)
    requires Complete(e)
    ensures forall f <- Fields(e) :: Fits(f)
  {
    forall i | 0 <= i < 13 ensures Fits(Fields(e)[i]) {
      assert e.fields[i] in e.fields;
    }
  }

  lemma FieldsRead(data: Bytes, at: int, fields: seq<int>, names: set<Name>)
    requires |fields| == 13 && (forall f <- fields :: Fits(f)) && Holds(data, at, MAGIC + HexFields(fields))
    ensures StepAt(data, at, names) == Named(data, at, names, fields[11], fields[6], fields[1])
  {
    var header := MAGIC + HexFields(fields);
    assert |MAGIC| == 6 && HEADER == 110;
    hide *;
    FieldsLength(fields);
    HoldsSlice(data, at, header);
    NumbersRead(MAGIC, fields, 13);
    assert fields[..13] == fields;
    HoldsEnd([], MAGIC);
    assert [] + MAGIC == MAGIC;
    HoldsBefore(MAGIC, HexFields(fields), 0, MAGIC);
    HoldsSlice(header, 0, MAGIC);
    HeaderStep(data, at, header, fields, names);
  }

  lemma HeaderReads(data: Bytes, at: int, e: Entry, names: set<Name>)
    requires Complete(e) && Holds(data, at, MAGIC + HexFields(Fields(e)))
    ensures StepAt(data, at, names) == Named(data, at, names, |e.name| + 1, |e.content|, e.fields[1])
  {
    hide HexFields, StepAt, Named, Holds;
    FieldsFit(e);
    FieldsRead(data, at, Fields(e), names);
  }

  lemma AlignPads(at: int, length: nat)
    requires OnBoundary(at)
    ensures Align(at + length) == at + Padded(length) && OnBoundary(at + Padded(length))
  {
    var q, r := at / 4, length / 4;
    assert at == 4 * q;
    AlignShifts(q, length);
    AlignShifts(r, length % 4);
    hide Align, OnBoundary, Padding;
    PaddedIs(r, length % 4);
    BoundaryIs(q + r + (if length % 4 == 0 then 0 else 1));
  }

  lemma PaddedIs(r: nat, k: nat)
    requires k < 4
    ensures Padded(4 * r + k) == 4 * r + Align(k) && Align(k) == if k == 0 then 0 else 4
  {
    assert (4 * r + k) % 4 == k;
  }

  lemma BoundaryIs(q: int)
    ensures OnBoundary(4 * q)
  {
  }

  lemma NamedReads(data: Bytes, at: int, e: Entry, names: set<Name>, mode: int)
    requires OnBoundary(at) && Text(e.name)
    requires Holds(data, at + HEADER, e.name) && Holds(data, at + HEADER + |e.name|, [0])
    ensures Named(data, at, names, |e.name| + 1, |e.content|, mode)
      == Accept(data, names, e.name, at + Start(e), |e.content|, mode)
  {
    hide *;
    HoldsSlice(data, at + HEADER, e.name);
    HoldsByte(data, at + HEADER + |e.name|, 0);
    StartAligned(at, e);
    NamedStep(data, at, names, e.name, |e.content|, mode);
  }

  lemma StartAligned(at: int, e: Entry)
    requires OnBoundary(at)
    ensures Align(at + HEADER + |e.name| + 1) == at + Start(e) && OnBoundary(at + Start(e))
  {
    AlignPads(at, HEADER + |e.name| + 1);
    hide OnBoundary, Align;
  }

  lemma HoldsByte(data: Bytes, at: int, c: Byte)
    requires Holds(data, at, [c])
    ensures At(data, at) == Some(c) && at < |data|
  {
  }

  lemma NamedStep(data: Bytes, at: int, names: set<Name>, name: Name, size: int, mode: int)
    requires at + HEADER + |name| < |data| && Text(name)
    requires Slice(data, at + HEADER, at + HEADER + |name|) == name
    requires At(data, at + HEADER + |name|) == Some(0)
    ensures Named(data, at, names, |name| + 1, size, mode)
      == Accept(data, names, name, Align(at + HEADER + |name| + 1), size, mode)
  {
    hide Text, Slice, At, Align, Accept;
  }

  lemma AcceptReads(data: Bytes, names: set<Name>, e: Entry, start: int)
    requires OnBoundary(start) && Holds(data, start, e.content) && Storable(e) && e.name !in names
    ensures Accept(data, names, e.name, start, |e.content|, e.fields[1])
      == Member(e.name, e.content, start, |e.content|, start + Padded(|e.content|))
  {
    HoldsSlice(data, start, e.content);
    AlignPads(start, |e.content|);
    hide Text, Climbs, Slice, Align, Padded, Regular;
  }

  lemma MemberStep(data: Bytes, at: int, e: Entry, names: set<Name>)
    requires OnBoundary(at) && Complete(e) && Holds(data, at, Written(e)) && Text(e.name)
    ensures StepAt(data, at, names)
      == Accept(data, names, e.name, at + Start(e), |e.content|, e.fields[1])
  {
    hide *;
    WrittenParts(data, at, e);
    HeaderReads(data, at, e, names);
    NamedReads(data, at, e, names, e.fields[1]);
  }

  lemma StorableParts(e: Entry)
    requires Storable(e)
    ensures Complete(e) && Text(e.name) && HEADER == 110
  {
    hide Complete, Text, SafePath, Regular;
  }

  lemma ContentHeld(data: Bytes, at: int, e: Entry, start: int)
    requires OnBoundary(at) && Complete(e) && Holds(data, at, Written(e))
    requires start == at + Start(e)
    ensures Holds(data, start, e.content) && OnBoundary(start)
    ensures at + |Written(e)| == start + Padded(|e.content|) && |Written(e)| >= HEADER
    ensures OnBoundary(at + |Written(e)|)
  {
    hide *;
    WrittenParts(data, at, e);
    StartAligned(at, e);
    AlignPads(start, |e.content|);
  }

  /** A member written at an aligned offset is read back whole. */
  lemma MemberReads(data: Bytes, at: int, e: Entry, names: set<Name>)
    requires OnBoundary(at) && Storable(e) && Holds(data, at, Written(e)) && e.name !in names
    ensures StepAt(data, at, names)
      == Member(e.name, e.content, at + Start(e), |e.content|, at + |Written(e)|)
  {
    hide *;
    StorableParts(e);
    var start := at + Start(e);
    MemberStep(data, at, e, names);
    ContentHeld(data, at, e, start);
    AcceptReads(data, names, e, start);
  }

  lemma TrailerReads(data: Bytes, at: int, fields: HeaderNumbers, names: set<Name>)
    requires OnBoundary(at) && Complete(Entry(TRAILER, [], fields))
    requires Holds(data, at, Written(Entry(TRAILER, [], fields)))
    ensures StepAt(data, at, names) == End
  {
    var e := Entry(TRAILER, [], fields);
    var start := at + Start(e);
    hide *;
    TrailerText();
    MemberStep(data, at, e, names);
    ContentHeld(data, at, e, start);
    TrailerEnds(data, names, start, fields[1]);
  }

  lemma TrailerEnds(data: Bytes, names: set<Name>, start: int, mode: int)
    requires Holds(data, start, [])
    ensures Accept(data, names, TRAILER, start, 0, mode) == End
  {
  }

  // ---------------------------------------------------------------- the archive read back

  lemma WalkStep(data: Bytes, at: int, files: map<Name, Bytes>, visited: set<int>)
    requires StepAt(data, at, files.Keys).Member? && at !in visited
    ensures (var step := StepAt(data, at, files.Keys);
             Walk(data, at, files, visited)
             == Walk(data, step.next, files[step.name := step.content], visited + {at}))
  {
    hide StepAt;
  }

  lemma WalkMember(data: Bytes, at: int, files: map<Name, Bytes>, visited: set<int>, e: Entry)
    requires OnBoundary(at) && Storable(e) && Holds(data, at, Written(e)) && e.name !in files
    requires forall o <- visited :: o < at
    ensures Walk(data, at, files, visited)
      == Walk(data, at + |Written(e)|, files[e.name := e.content], visited + {at})
    ensures OnBoundary(at + |Written(e)|) && |Written(e)| > 0
  {
    hide *;
    StorableParts(e);
    ContentHeld(data, at, e, at + Start(e));
    MemberReads(data, at, e, files.Keys);
    WalkStep(data, at, files, visited);
  }

  lemma ArchiveFront(entries: seq<Entry>, fields: HeaderNumbers)
    requires entries != []
    ensures Archive(entries, fields) == Written(entries[0]) + Archive(entries[1..], fields)
  {
  }

  lemma CollectedFront(files: map<Name, Bytes>, entries: seq<Entry>)
    requires entries != []
    ensures Collected(files, entries) == Collected(files[entries[0].name := entries[0].content], entries[1..])
  {
  }

  lemma WalkTrailer(data: Bytes, at: int, fields: HeaderNumbers, files: map<Name, Bytes>, visited: set<int>)
    requires OnBoundary(at) && Complete(Entry(TRAILER, [], fields)) && Holds(data, at, Archive([], fields))
    ensures Walk(data, at, files, visited) == Ok(Collected(files, []))
  {
    hide StepAt, Written, Holds, OnBoundary, Complete;
    TrailerReads(data, at, fields, files.Keys);
  }

  lemma {:induction false} WalkReads(data: Bytes, at: int, entries: seq<Entry>, fields: HeaderNumbers,
                                     files: map<Name, Bytes>, visited: set<int>)
    requires OnBoundary(at) && forall o <- visited :: o < at
    requires Complete(Entry(TRAILER, [], fields))
    requires (forall e <- entries :: Storable(e)) && Distinct(entries)
    requires forall e <- entries :: e.name !in files
    requires Holds(data, at, Archive(entries, fields))
    ensures Walk(data, at, files, visited) == Ok(Collected(files, entries))
    decreases |entries|
  {
    hide *;
    if entries == [] {
      WalkTrailer(data, at, fields, files, visited);
    } else {
      var e, rest := entries[0], entries[1..];
      DistinctRest(entries);
      ArchiveFront(entries, fields);
      CollectedFront(files, entries);
      HoldsParts(data, at, Written(e), Archive(rest, fields));
      WalkMember(data, at, files, visited, e);
      WalkReads(data, at + |Written(e)|, rest, fields, files[e.name := e.content], visited + {at});
    }
  }

  lemma DistinctRest(entries: seq<Entry>)
    requires entries != [] && Distinct(entries)
    ensures Distinct(entries[1..]) && forall e <- entries[1..] :: e in entries && e.name != entries[0].name
  {
  }

  lemma {:induction false} AsciiText(s: Bytes)
    requires forall c <- s :: c < 0x80
    ensures Text(s)
  {
    if s != [] {
      assert s[0] in s;
      assert forall c <- s[1..] :: c in s;
      AsciiText(s[1..]);
    }
  }

  lemma TrailerText()
    ensures Text(TRAILER)
  {
    AsciiText(TRAILER);
  }

  /** Reading what was written gives the files back, for every list of regular files with
      distinct usable names, whatever the other header numbers and whatever follows the trailer. */
  lemma RoundTrip(entries: seq<Entry>, fields: HeaderNumbers, tail: Bytes)
    requires (forall e <- entries :: Storable(e)) && Distinct(entries)
    requires Complete(Entry(TRAILER, [], fields))
    requires |Archive(entries, fields) + tail| <= LIMIT
    ensures Parse(Archive(entries, fields) + tail) == Ok(Collected(map[], entries))
  {
    var stream := Archive(entries, fields) + tail;
    assert Holds(stream, 0, Archive(entries, fields));
    WalkReads(stream, 0, entries, fields, map[], {});
  }
}
