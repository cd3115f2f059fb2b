/** An archive with a negative size field: it is accepted although the reader's offset goes back. */
module NewcBackward {
  import opened NewcArchive
  import opened NewcAccepted
  import R = NewcRoundTrip

  const PLAIN: seq<int> := [0, 0x8000, 0, 0, 0, 0, 0, 0, 0, 0, 0, 11, 0]
  const NEGATIVE: seq<int> := [0, 0x8000, 0, 0, 0, 0, -360, 0, 0, 0, 0, 126, 0]

  function Header(fields: seq<int>): Bytes {
    MAGIC + R.HexFields(fields)
  }

  /** The name of the first member hides a whole trailer. */
  function Cover(): Name {
    [0, 0] + (Header(PLAIN) + (TRAILER + ([0] + [0, 0])))
  }

  /** The size field says minus 360, which leads back to the trailer inside the name. */
  function Backward(): Bytes {
    Header(NEGATIVE) + (Cover() + [0])
  }

  /** Bytes of text without a dot. */
  predicate Dotless(s: Bytes) {
    forall c <- s :: c < 0x80 && c != DOT
  }

  lemma DotlessJoin(a: Bytes, b: Bytes)
    requires Dotless(a) && Dotless(b)
    ensures Dotless(a + b)
  {
  }

  lemma LowerHexDotless(s: Bytes)
    requires R.LowerHex(s)
    ensures Dotless(s)
  {
  }

  lemma DotlessSafe(s: Bytes)
    requires Dotless(s) && s != [] && s[0] != SLASH
    ensures Text(s) && SafePath(s)
  {
    R.AsciiText(s);
    hide Text;
    forall i | 0 <= i < |s| ensures s[i] != DOT {
      assert s[i] in s;
    }
  }

  lemma FieldDotless(n: int)
    requires 0 <= n && R.Fits(n)
    ensures Dotless(R.Field(n))
  {
    hide Dotless, R.Hex, R.Power, R.LowerHex;
    R.Powers();
    R.HexReads(n, 8);
    LowerHexDotless(R.Hex(n, 8));
  }

  lemma {:induction false} FieldsDotless(fields: seq<int>)
    requires forall i | 0 <= i < |fields| :: 0 <= fields[i] && R.Fits(fields[i])
    ensures Dotless(R.HexFields(fields))
  {
    if fields != [] {
      var before, last := fields[..|fields| - 1], fields[|fields| - 1];
      FieldsDotless(before);
      FieldDotless(last);
      hide *;
      R.FieldsBack(fields);
      DotlessJoin(R.HexFields(before), R.Field(last));
    }
  }

  lemma SliceBack(data: Bytes, at: int, part: Bytes)
    requires R.Holds(data, at, part) && at + |part| < |data|
    ensures Slice(data, at - |data|, at + |part| - |data|) == part
  {
  }

  lemma HeaderLength(fields: seq<int>)
    requires |fields| == 13
    ensures |Header(fields)| == HEADER == 110
  {
    R.FieldsLength(fields);
    hide R.HexFields;
  }

  lemma Literals()
    ensures Dotless(MAGIC) && Dotless(TRAILER + ([0] + [0, 0])) && Dotless([0, 0])
    ensures |TRAILER| == 10 && TRAILER[0] == 84
    ensures forall i | 0 <= i < 13 :: 0 <= PLAIN[i] && R.Fits(PLAIN[i])
  {
  }

  lemma Layout()
    ensures Cover() == [0, 0] + (Header(PLAIN) + (TRAILER + ([0] + [0, 0])))
    ensures Backward() == Header(NEGATIVE) + (Cover() + [0])
    ensures Header(PLAIN) == MAGIC + R.HexFields(PLAIN)
    ensures |Cover()| == 125 && Cover()[0] == 0 && |Backward()| == 236
    ensures |Header(PLAIN)| == |Header(NEGATIVE)| == 110
  {
    HeaderLength(PLAIN);
    HeaderLength(NEGATIVE);
    hide R.HexFields, Header;
  }

  lemma CoverText()
    ensures Text(Cover()) && SafePath(Cover()) && Cover() != TRAILER && |Cover()| == 125
  {
    assert SLASH != 0;
    hide *;
    Layout();
    Literals();
    FieldsDotless(PLAIN);
    DotlessJoin(MAGIC, R.HexFields(PLAIN));
    DotlessJoin(Header(PLAIN), TRAILER + ([0] + [0, 0]));
    DotlessJoin([0, 0], Header(PLAIN) + (TRAILER + ([0] + [0, 0])));
    DotlessSafe(Cover());
  }

  lemma Whole(data: Bytes)
    ensures R.Holds(data, 0, data)
  {
  }

  lemma BackwardParts()
    ensures |Backward()| == 236
    ensures R.Holds(Backward(), 0, Header(NEGATIVE)) && R.Holds(Backward(), 110, Cover())
    ensures R.Holds(Backward(), 235, [0]) && R.Holds(Backward(), 112, Header(PLAIN))
    ensures R.Holds(Backward(), 222, TRAILER) && R.Holds(Backward(), 232, [0])
  {
    hide *;
    var data := Backward();
    Layout();
    Literals();
    Whole(data);
    R.HoldsParts(data, 0, Header(NEGATIVE), Cover() + [0]);
    R.HoldsParts(data, 110, Cover(), [0]);
    R.HoldsParts(data, 110, [0, 0], Header(PLAIN) + (TRAILER + ([0] + [0, 0])));
    R.HoldsParts(data, 112, Header(PLAIN), TRAILER + ([0] + [0, 0]));
    R.HoldsParts(data, 222, TRAILER, [0] + [0, 0]);
    R.HoldsParts(data, 232, [0], [0, 0]);
  }

  lemma FirstAccept(data: Bytes)
    requires |data| == 236
    ensures Text(Cover()) && SafePath(Cover())
    ensures Accept(data, {}, Cover(), 236, -360, 0x8000) == Member(Cover(), [], 236, -360, -124)
  {
    CoverText();
    hide Cover, Text, SafePath;
  }

  lemma FirstStep()
    ensures StepAt(Backward(), 0, {}) == Member(Cover(), [], 236, -360, -124)
  {
    hide *;
    var data := Backward();
    BackwardParts();
    CoverText();
    Numbered();
    R.FieldsRead(data, 0, NEGATIVE, {});
    R.HoldsSlice(data, 110, Cover());
    R.HoldsByte(data, 235, 0);
    R.NamedStep(data, 0, {}, Cover(), -360, 0x8000);
    FirstAccept(data);
  }

  lemma Numbered()
    ensures |NEGATIVE| == 13 && forall f <- NEGATIVE :: R.Fits(f)
    ensures NEGATIVE[11] == 126 && NEGATIVE[6] == -360 && NEGATIVE[1] == 0x8000
    ensures |PLAIN| == 13 && forall f <- PLAIN :: R.Fits(f)
    ensures PLAIN[11] == 11 && PLAIN[6] == 0 && PLAIN[1] == 0x8000
    ensures Header(NEGATIVE) == MAGIC + R.HexFields(NEGATIVE) && Header(PLAIN) == MAGIC + R.HexFields(PLAIN)
    ensures HEADER == 110 && |MAGIC| == 6 && |TRAILER| == 10
    ensures Align(236) == 236 && Align(-3) == 0
  {
    hide R.HexFields;
  }

  lemma SecondStep(names: set<Name>)
    ensures StepAt(Backward(), -124, names) == End
  {
    hide *;
    var data, header := Backward(), Header(PLAIN);
    BackwardParts();
    Numbered();
    HeaderLength(PLAIN);
    SliceBack(data, 112, header);
    SliceBack(data, 222, TRAILER);
    R.NumbersRead(MAGIC, PLAIN, 13);
    assert PLAIN[..13] == PLAIN;
    R.HoldsByte(data, 232, 0);
    MagicFirst(R.HexFields(PLAIN));
    R.HeaderStep(data, -124, header, PLAIN, names);
    AtBack(data, 232);
    R.TrailerText();
    R.NamedStep(data, -124, names, TRAILER, 0, 0x8000);
    R.TrailerEnds(data, names, 0, 0x8000);
  }

  lemma MagicFirst(rest: Bytes)
    ensures Slice(MAGIC + rest, 0, 6) == MAGIC
  {
  }

  lemma AtBack(data: Bytes, at: int)
    requires 0 <= at < |data|
    ensures At(data, at - |data|) == At(data, at)
  {
  }

  /** The archive is accepted, and its one member leads from offset 0 back to offset -124:
      without the condition on sizes neither rising offsets nor ordinary slices are promised. */
  lemma AcceptedBackward()
    ensures Parse(Backward()) == Ok(map[Cover() := []])
    ensures !AllForward(Trace(Backward(), 0, {}, {})) && !NoNegativeSize(Trace(Backward(), 0, {}, {}))
  {
    hide *;
    var data := Backward();
    var none: map<Name, Bytes> := map[];
    Layout();
    FirstStep();
    SecondStep({Cover()});
    var one := none[Cover() := []];
    assert none.Keys == {} && one.Keys == {Cover()};
    R.WalkStep(data, 0, none, {});
    WalkEnd(data, -124, one, {} + {0});
    Parsed(data);
    TraceStart(data);
  }

  lemma WalkEnd(data: Bytes, at: int, files: map<Name, Bytes>, visited: set<int>)
    requires StepAt(data, at, files.Keys) == End
    ensures Walk(data, at, files, visited) == Ok(files)
  {
    hide StepAt;
  }

  lemma Parsed(data: Bytes)
    requires |data| <= 236
    ensures Parse(data) == Walk(data, 0, map[], {})
  {
    hide Walk;
  }

  lemma TraceStart(data: Bytes)
    requires StepAt(data, 0, {}).Member? && StepAt(data, 0, {}).next < 0 && StepAt(data, 0, {}).size < 0
    ensures !AllForward(Trace(data, 0, {}, {})) && !NoNegativeSize(Trace(data, 0, {}, {}))
  {
    hide StepAt;
    var t := Located(0, StepAt(data, 0, {}));
    assert Trace(data, 0, {}, {})[0] == t;
    assert t in Trace(data, 0, {}, {});
  }
}
