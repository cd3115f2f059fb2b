/** The reader of the installer's "newc" (SVR4 cpio) branding archive, over the decompressed bytes.

    Slices, negative indices and number parsing are those of Python. */
module NewcArchive {
  type Byte = b: int | 0 <= b < 256
  type Bytes = seq<Byte>
  type Name = Bytes

  const LIMIT := 16 * 1024 * 1024
  const HEADER := 110
  const MAGIC: Bytes := [48, 55, 48, 55, 48, 49]
  const TRAILER: Name := [84, 82, 65, 73, 76, 69, 82, 33, 33, 33]
  const SLASH: Byte := 47
  const DOT: Byte := 46
  const ZERO: Byte := 48
  const UNDERSCORE: Byte := 95

  datatype Option<+T> = None | Some(value: T)

  datatype Error =
    | Oversized | BadMagic | BadNumber | TruncatedName | IndexOutside | BadText
    | TruncatedMember | UnsafeOrDuplicate | NegativeMode | NotRegular | MissingTrailer

  datatype Result = Ok(files: map<Name, Bytes>) | Err(error: Error)

  // ---------------------------------------------------------------- Python slices

  function Clamped(i: int, length: nat): (r: nat)
    ensures r <= length
  {
    if i < 0 then (if i + length < 0 then 0 else i + length) else if i > length then length else i
  }

  function Slice(s: Bytes, from: int, to: int): Bytes {
    var a, b := Clamped(from, |s|), Clamped(to, |s|);
    if a <= b then s[a..b] else []
  }

  function At(s: Bytes, i: int): Option<Byte> {
    if 0 <= i < |s| then Some(s[i]) else if -|s| <= i < 0 then Some(s[i + |s|]) else None
  }

  /** The next multiple of four. */
  function Align(n: int): int {
    (n + 3) - (n + 3) % 4
  }

  /** A multiple of four. */
  predicate OnBoundary(n: int) {
    n % 4 == 0
  }

  lemma AlignShifts(q: int, n: int)
    ensures Align(4 * q + n) == 4 * q + Align(n)
  {
    assert (4 * q + n + 3) % 4 == (n + 3) % 4;
  }

  // ---------------------------------------------------------------- int(text, 16)

  function HexDigit(c: Byte): int {
    if 48 <= c <= 57 then c - 48
    else if 97 <= c <= 102 then c - 87
    else if 65 <= c <= 70 then c - 55 else -1
  }

  predicate Space(c: Byte) {
    9 <= c <= 13 || c == 32
  }

  function SkipSpaces(s: Bytes): Bytes {
    if s != [] && Space(s[0]) then SkipSpaces(s[1..]) else s
  }

  function DropSpaces(s: Bytes): Bytes {
    if s != [] && Space(s[|s| - 1]) then DropSpaces(s[..|s| - 1]) else s
  }

  /** Digits with at most one underscore between two of them. */
  function Digits(s: Bytes): Option<int> {
    if s == [] || HexDigit(s[|s| - 1]) < 0 then None
    else
      var digit, rest := HexDigit(s[|s| - 1]), s[..|s| - 1];
      if rest == [] then Some(digit)
      else
        var high := Digits(if rest[|rest| - 1] == UNDERSCORE then rest[..|rest| - 1] else rest);
        if high.None? then None else Some(high.value * 16 + digit)
  }

  function Unprefixed(s: Bytes): Bytes {
    if |s| >= 2 && s[0] == ZERO && (s[1] == 120 || s[1] == 88)
    then if |s| >= 3 && s[2] == UNDERSCORE then s[3..] else s[2..]
    else s
  }

  function Number(text: Bytes): Option<int> {
    var t := DropSpaces(SkipSpaces(text));
    if t != [] && t[0] == 45 then
      var n := Digits(Unprefixed(t[1..]));
      if n.None? then None else Some(-n.value)
    else if t != [] && t[0] == 43 then Digits(Unprefixed(t[1..]))
    else Digits(Unprefixed(t))
  }

  /** The first `count` numbers of a header. */
  function Numbers(header: Bytes, count: nat): Option<seq<int>> {
    if count == 0 then Some([])
    else
      var before, last := Numbers(header, count - 1), Number(Slice(header, 8 * count - 2, 8 * count + 6));
      if before.None? || last.None? then None else Some(before.value + [last.value])
  }

  lemma {:induction false} NumbersLength(header: Bytes, count: nat)
    ensures Numbers(header, count).Some? ==> |Numbers(header, count).value| == count
  {
    hide Number, Slice;
    if count > 0 {
      NumbersLength(header, count - 1);
    }
  }

  // ---------------------------------------------------------------- names

  predicate Continuation(c: Byte) {
    0x80 <= c < 0xC0
  }

  /** Well-formed UTF-8 (section 4 of RFC 3629). */
  predicate Text(s: Bytes) {
    if s == [] then true
    else if s[0] < 0x80 then Text(s[1..])
    else if 0xC2 <= s[0] < 0xE0 then |s| >= 2 && Continuation(s[1]) && Text(s[2..])
    else if 0xE0 <= s[0] < 0xF0 then
      && |s| >= 3 && Continuation(s[1]) && Continuation(s[2])
      && (s[0] == 0xE0 ==> s[1] >= 0xA0) && (s[0] == 0xED ==> s[1] < 0xA0)
      && Text(s[3..])
    else if 0xF0 <= s[0] < 0xF5 then
      && |s| >= 4 && Continuation(s[1]) && Continuation(s[2]) && Continuation(s[3])
      && (s[0] == 0xF0 ==> s[1] >= 0x90) && (s[0] == 0xF4 ==> s[1] < 0x90)
      && Text(s[4..])
    else false
  }

  /** Some component between slashes is "..". */
  predicate Climbs(name: Name) {
    exists i | 0 <= i <= |name| - 2 ::
      && name[i] == DOT && name[i + 1] == DOT
      && (i == 0 || name[i - 1] == SLASH)
      && (i + 2 == |name| || name[i + 2] == SLASH)
  }

  predicate SafePath(name: Name) {
    !(name != [] && name[0] == SLASH) && !Climbs(name)
  }

  predicate Regular(mode: int) {
    mode / 4096 % 16 == 8
  }

  // ---------------------------------------------------------------- one member

  datatype Step =
    | Stop(error: Error)
    | End
    | Member(name: Name, content: Bytes, start: int, size: int, next: int)

  function Accept(data: Bytes, names: set<Name>, name: Name, start: int, size: int, mode: int): Step {
    if start + size > |data| then Stop(TruncatedMember)
    else if name == TRAILER then End
    else if !SafePath(name) || name in names then Stop(UnsafeOrDuplicate)
    else if mode < 0 then Stop(NegativeMode)
    else if !Regular(mode) then Stop(NotRegular)
    else Member(name, Slice(data, start, start + size), start, size, Align(start + size))
  }

  function Named(data: Bytes, offset: int, names: set<Name>, nameSize: int, size: int, mode: int): Step {
    var nameEnd := offset + HEADER + nameSize;
    if nameSize < 1 || nameEnd > |data| then Stop(TruncatedName)
    else if At(data, nameEnd - 1).None? then Stop(IndexOutside)
    else if At(data, nameEnd - 1).value != 0 then Stop(TruncatedName)
    else
      var name := Slice(data, offset + HEADER, nameEnd - 1);
      if !Text(name) then Stop(BadText)
      else Accept(data, names, name, Align(nameEnd), size, mode)
  }

  function StepAt(data: Bytes, offset: int, names: set<Name>): Step {
    if offset + HEADER > |data| then Stop(MissingTrailer)
    else
      var header := Slice(data, offset, offset + HEADER);
      if Slice(header, 0, 6) != MAGIC then Stop(BadMagic)
      else
        var fields := Numbers(header, 13);
        NumbersLength(header, 13);
        if fields.None? then Stop(BadNumber)
        else Named(data, offset, names, fields.value[11], fields.value[6], fields.value[1])
  }

  /** A header that is read at all starts inside the data, counted from either end. */
  lemma StepInside(data: Bytes, offset: int, names: set<Name>)
    requires StepAt(data, offset, names).Member?
    ensures -|data| - HEADER < offset <= |data| - HEADER
  {
    hide Numbers, Named, Text, Climbs;
    SliceOutside(data, offset);
  }

  lemma SliceOutside(data: Bytes, offset: int)
    ensures offset <= -|data| - HEADER ==> Slice(data, offset, offset + HEADER) == []
  {
  }

  // ---------------------------------------------------------------- the whole archive

  function Span(from: int, count: nat): set<int> {
    if count == 0 then {} else Span(from, count - 1) + {from + count - 1}
  }

  lemma {:induction false} SpanHas(from: int, count: nat, o: int)
    ensures o in Span(from, count) <==> from <= o < from + count
  {
    if count > 0 {
      SpanHas(from, count - 1, o);
    }
  }

  /** Where a header that is read at all can start. */
  function Offsets(data: Bytes): set<int> {
    Span(1 - |data| - HEADER, 2 * |data|)
  }

  /** What the loop makes of the archive from `offset` on. An offset met before names a file
      that has been read before, so it ends the walk with the duplicate error. */
  function Walk(data: Bytes, offset: int, files: map<Name, Bytes>, visited: set<int>): Result
    decreases Offsets(data) - visited
  {
    var step := StepAt(data, offset, files.Keys);
    match step
    case Stop(error) => Err(error)
    case End => Ok(files)
    case Member(name, content, _, _, next) =>
      StepInside(data, offset, files.Keys);
      if offset in visited then Err(UnsafeOrDuplicate)
      else
        OffsetInside(data, offset);
        assert offset in Offsets(data) - visited;
        Walk(data, next, files[name := content], visited + {offset})
  }

  function Parse(stream: Bytes): Result {
    if |stream| > LIMIT then Err(Oversized) else Walk(stream, 0, map[], {})
  }

  /** Every offset visited holds a file that is in the dictionary. */
  ghost predicate Recorded(data: Bytes, files: map<Name, Bytes>, visited: set<int>) {
    forall o <- visited :: StepAt(data, o, {}).Member? && StepAt(data, o, {}).name in files
  }

  lemma RecordedStep(data: Bytes, offset: int, files: map<Name, Bytes>, visited: set<int>)
    requires Recorded(data, files, visited) && StepAt(data, offset, files.Keys).Member?
    ensures offset !in visited
    ensures StepAt(data, offset, {}) == StepAt(data, offset, files.Keys)
    ensures StepAt(data, offset, files.Keys).name !in files
  {
    hide Numbers, Text, Climbs, Slice, Align, At;
  }

  /** The loop of the reader; it ends because no offset can be accepted twice. */
  method ArchiveFiles(stream: Bytes) returns (result: Result)
    ensures result == Parse(stream)
  {
    hide StepAt, Offsets;
    if |stream| > LIMIT {
      return Err(Oversized);
    }
    var data, files, offset := stream, map[], 0;
    ghost var visited: set<int> := {};
    while offset + HEADER <= |data|
      invariant Recorded(data, files, visited)
      invariant Parse(stream) == Walk(data, offset, files, visited)
      decreases Offsets(data) - visited
    {
      var step := StepAt(data, offset, files.Keys);
      match step
      case Stop(error) =>
        return Err(error);
      case End =>
        return Ok(files);
      case Member(name, content, _, _, next) =>
        RecordedStep(data, offset, files, visited);
        StepInside(data, offset, files.Keys);
        OffsetInside(data, offset);
        visited := visited + {offset};
        files := files[name := content];
        offset := next;
    }
    BeyondEnd(data, offset, files.Keys);
    return Err(MissingTrailer);
  }

  lemma OffsetInside(data: Bytes, offset: int)
    ensures -|data| - HEADER < offset <= |data| - HEADER <==> offset in Offsets(data)
  {
    SpanHas(1 - |data| - HEADER, 2 * |data|, offset);
  }

  lemma BeyondEnd(data: Bytes, offset: int, names: set<Name>)
    requires offset + HEADER > |data|
    ensures StepAt(data, offset, names) == Stop(MissingTrailer)
  {
  }
}
