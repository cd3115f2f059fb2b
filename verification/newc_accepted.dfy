/** What an accepted "newc" archive guarantees, whatever wrote it. */
module NewcAccepted {
  import opened NewcArchive

  /** A member and the offset of its header. */
  datatype Located = Located(offset: int, member: Step)

  /** The members the loop meets, in the order it meets them. */
  function Trace(data: Bytes, offset: int, names: set<Name>, visited: set<int>): seq<Located>
    decreases Offsets(data) - visited
  {
    var step := StepAt(data, offset, names);
    if !step.Member? then []
    else
      StepInside(data, offset, names);
      if offset in visited then []
      else
        OffsetInside(data, offset);
        assert offset in Offsets(data) - visited;
        [Located(offset, step)] + Trace(data, step.next, names + {step.name}, visited + {offset})
  }

  /** Ordinary slices of the data, one after the other. */
  ghost predicate Sliced(data: Bytes, t: Located) {
    && t.member.Member?
    && 0 <= t.offset && t.offset + HEADER < t.member.start
    && t.member.start + t.member.size <= |data|
    && t.member.size >= 0
    && t.member.content == data[t.member.start..t.member.start + t.member.size]
    && t.member.start + t.member.size <= t.member.next
  }

  predicate Forward(t: Located) {
    t.member.Member? && t.offset < t.member.next
  }

  /** Every offset is a multiple of four; with a size field that is not negative the content is an
      ordinary slice. */
  lemma StepSlices(data: Bytes, offset: int, names: set<Name>)
    requires OnBoundary(offset) && StepAt(data, offset, names).Member?
    ensures (var m := StepAt(data, offset, names);
             && OnBoundary(m.next)
             && (0 <= offset && m.size >= 0 ==> Sliced(data, Located(offset, m)))
             && m.name !in names)
  {
    var nameSize := StepParts(data, offset, names);
    hide StepAt, Align, OnBoundary;
    var m := StepAt(data, offset, names);
    AlignBounds(offset + HEADER + nameSize);
    AlignBounds(m.start + m.size);
  }

  lemma AlignBounds(n: int)
    ensures n <= Align(n) && OnBoundary(Align(n))
  {
  }

  lemma StepParts(data: Bytes, offset: int, names: set<Name>) returns (nameSize: int)
    requires StepAt(data, offset, names).Member?
    ensures (var m := StepAt(data, offset, names);
             && nameSize >= 1 && m.start == Align(offset + HEADER + nameSize)
             && m.start + m.size <= |data| && m.content == Slice(data, m.start, m.start + m.size)
             && m.next == Align(m.start + m.size) && m.name !in names)
  {
    hide Numbers, Text, Climbs, At, Regular, Slice, Align;
    NumbersLength(Slice(data, offset, offset + HEADER), 13);
    nameSize := Numbers(Slice(data, offset, offset + HEADER), 13).value[11];
  }

  /** Two numbers of the header at an offset. */
  function SizeField(data: Bytes, offset: int): Option<int> {
    Number(Slice(Slice(data, offset, offset + HEADER), 54, 62))
  }

  function NameField(data: Bytes, offset: int): Option<int> {
    Number(Slice(Slice(data, offset, offset + HEADER), 94, 102))
  }

  /** The size stated is above what header and name take up, counted down from zero. */
  predicate RisingHeader(data: Bytes, offset: int) {
    && SizeField(data, offset).Some? && NameField(data, offset).Some?
    && SizeField(data, offset).value > -Align(HEADER + NameField(data, offset).value)
  }

  lemma {:induction false} NumbersAt(header: Bytes, count: nat, i: nat)
    requires Numbers(header, count).Some? && i < count
    ensures |Numbers(header, count).value| == count
    ensures Number(Slice(header, 8 * i + 6, 8 * i + 14)) == Some(Numbers(header, count).value[i])
  {
    NumbersLength(header, count);
    hide Number, Slice;
    if i < count - 1 {
      NumbersLength(header, count - 1);
      NumbersAt(header, count - 1, i);
    }
  }

  /** The offset rises at a member exactly when its header's own numbers say so. */
  lemma HeaderRises(data: Bytes, offset: int, names: set<Name>)
    requires OnBoundary(offset) && StepAt(data, offset, names).Member?
    ensures offset < StepAt(data, offset, names).next <==> RisingHeader(data, offset)
  {
    hide Numbers, Text, Climbs, At, Regular, Slice, Number, Align, OnBoundary;
    var header := Slice(data, offset, offset + HEADER);
    var fields := Numbers(header, 13);
    NumbersAt(header, 13, 6);
    NumbersAt(header, 13, 11);
    var m := StepAt(data, offset, names);
    assert m.size == fields.value[6] && m.start == Align(offset + HEADER + fields.value[11]);
    assert m.next == Align(m.start + m.size);
    AlignedSum(offset, HEADER + fields.value[11], m.size);
  }

  lemma AlignedSum(offset: int, length: int, size: int)
    requires OnBoundary(offset)
    ensures offset < Align(Align(offset + length) + size) <==> size > -Align(length)
  {
    var q := offset / 4;
    assert offset == 4 * q;
    AlignShifts(q, length);
    AlignShifts(q, Align(length) + size);
    AlignPositive(length, size);
    hide Align;
  }

  lemma AlignPositive(length: int, size: int)
    ensures Align(Align(length) + size) > 0 <==> Align(length) + size > 0
  {
  }

  /** A member met at an aligned offset. */
  ghost predicate Met(data: Bytes, t: Located) {
    && t.member.Member? && OnBoundary(t.offset)
    && (Forward(t) <==> RisingHeader(data, t.offset))
  }

  ghost predicate AllMet(data: Bytes, trace: seq<Located>) {
    forall t <- trace :: Met(data, t)
  }

  /** Each header starts where the member before it says. */
  ghost predicate Linked(trace: seq<Located>, offset: int) {
    trace == [] || (trace[0].offset == offset && trace[0].member.Member? && Linked(trace[1..], trace[0].member.next))
  }

  /** No two members have one name, and none has one of `names`. */
  ghost predicate FreshNames(trace: seq<Located>, names: set<Name>) {
    trace == [] || (
      && trace[0].member.Member? && trace[0].member.name !in names
      && FreshNames(trace[1..], names + {trace[0].member.name}))
  }

  lemma TraceStep(data: Bytes, offset: int, names: set<Name>, visited: set<int>) returns (ends: bool)
    ensures ends ==> Trace(data, offset, names, visited) == []
    ensures !ends ==>
      var step := StepAt(data, offset, names);
      && step.Member?
      && Trace(data, offset, names, visited)
         == [Located(offset, step)] + Trace(data, step.next, names + {step.name}, visited + {offset})
      && Offsets(data) - (visited + {offset}) < Offsets(data) - visited
  {
    hide StepAt, Offsets;
    ends := !StepAt(data, offset, names).Member? || offset in visited;
    if !ends {
      StepInside(data, offset, names);
      OffsetInside(data, offset);
      assert offset in Offsets(data) - visited;
    }
  }

  lemma AllMetFront(data: Bytes, t: Located, rest: seq<Located>)
    requires Met(data, t) && AllMet(data, rest)
    ensures AllMet(data, [t] + rest)
  {
    hide Met;
  }

  lemma ChainFront(t: Located, rest: seq<Located>, names: set<Name>)
    requires t.member.Member? && t.member.name !in names
    requires Linked(rest, t.member.next) && FreshNames(rest, names + {t.member.name})
    ensures Linked([t] + rest, t.offset) && FreshNames([t] + rest, names)
  {
    assert ([t] + rest)[1..] == rest;
  }

  lemma {:induction false} TraceChained(data: Bytes, offset: int, names: set<Name>, visited: set<int>)
    requires OnBoundary(offset)
    ensures AllMet(data, Trace(data, offset, names, visited))
    ensures Linked(Trace(data, offset, names, visited), offset)
    ensures FreshNames(Trace(data, offset, names, visited), names)
    decreases Offsets(data) - visited
  {
    hide *;
    var ends := TraceStep(data, offset, names, visited);
    if ends {
      ChainEmpty(data, offset, names);
    } else {
      var step := StepAt(data, offset, names);
      StepSlices(data, offset, names);
      TraceChained(data, step.next, names + {step.name}, visited + {offset});
      var rest := Trace(data, step.next, names + {step.name}, visited + {offset});
      HeaderRises(data, offset, names);
      MetAt(data, Located(offset, step));
      AllMetFront(data, Located(offset, step), rest);
      ChainFront(Located(offset, step), rest, names);
    }
  }

  lemma MetAt(data: Bytes, t: Located)
    requires t.member.Member? && OnBoundary(t.offset)
    requires t.offset < t.member.next <==> RisingHeader(data, t.offset)
    ensures Met(data, t)
  {
  }

  lemma ChainEmpty(data: Bytes, offset: int, names: set<Name>)
    ensures AllMet(data, []) && Linked([], offset) && FreshNames([], names)
  {
  }

  function Gathered(files: map<Name, Bytes>, trace: seq<Located>): map<Name, Bytes>
    decreases |trace|
  {
    if trace == [] then files
    else if trace[0].member.Member?
    then Gathered(files[trace[0].member.name := trace[0].member.content], trace[1..])
    else Gathered(files, trace[1..])
  }

  lemma {:induction false} WalkGathers(data: Bytes, offset: int, files: map<Name, Bytes>, visited: set<int>)
    ensures Walk(data, offset, files, visited).Ok?
      ==> Walk(data, offset, files, visited).files == Gathered(files, Trace(data, offset, files.Keys, visited))
    decreases Offsets(data) - visited
  {
    var ends := TraceStep(data, offset, files.Keys, visited);
    hide StepAt, Offsets, Trace;
    if !ends {
      var step := StepAt(data, offset, files.Keys);
      var more := files[step.name := step.content];
      assert more.Keys == files.Keys + {step.name};
      WalkGathers(data, step.next, more, visited + {offset});
    } else {
      EndsGather(data, offset, files, visited);
    }
  }

  lemma EndsGather(data: Bytes, offset: int, files: map<Name, Bytes>, visited: set<int>)
    requires Trace(data, offset, files.Keys, visited) == []
    ensures Walk(data, offset, files, visited).Ok? ==> Walk(data, offset, files, visited).files == files
  {
    hide StepAt, Offsets;
  }

  ghost predicate AllForward(trace: seq<Located>) {
    forall t <- trace :: Forward(t)
  }

  ghost predicate NoNegativeSize(trace: seq<Located>) {
    forall t <- trace :: t.member.Member? && t.member.size >= 0
  }

  /** The first header, in the order of reading, whose numbers take the offset back. */
  function FirstFalling(data: Bytes, offset: int, names: set<Name>): Option<int>
    requires OnBoundary(offset)
    decreases |data| - offset
  {
    var step := StepAt(data, offset, names);
    if !step.Member? then None
    else if !RisingHeader(data, offset) then Some(offset)
    else
      StepInside(data, offset, names);
      StepSlices(data, offset, names);
      HeaderRises(data, offset, names);
      FirstFalling(data, step.next, names + {step.name})
  }

  /** The trace rises up to that header and falls at it, or rises throughout. */
  ghost predicate FallsFirstAt(trace: seq<Located>, falling: Option<int>) {
    match falling
    case None => AllForward(trace)
    case Some(offset) =>
      exists k | 0 <= k < |trace| :: trace[k].offset == offset && !Forward(trace[k]) && AllForward(trace[..k])
  }

  lemma FallsLater(t: Located, rest: seq<Located>, falling: Option<int>)
    requires Forward(t) && FallsFirstAt(rest, falling)
    ensures FallsFirstAt([t] + rest, falling)
  {
    hide Forward;
    if falling.Some? {
      var k :| 0 <= k < |rest| && rest[k].offset == falling.value && !Forward(rest[k]) && AllForward(rest[..k]);
      assert ([t] + rest)[k + 1] == rest[k];
      assert ([t] + rest)[..k + 1] == [t] + rest[..k];
    }
  }

  lemma FallsHere(t: Located, rest: seq<Located>)
    requires !Forward(t)
    ensures FallsFirstAt([t] + rest, Some(t.offset))
  {
    hide Forward;
    assert ([t] + rest)[0] == t;
    assert ([t] + rest)[..0] == [];
  }

  lemma FallsNowhere()
    ensures FallsFirstAt([], None)
  {
  }

  lemma FallingStep(data: Bytes, offset: int, names: set<Name>)
    requires OnBoundary(offset)
    ensures (var step := StepAt(data, offset, names);
             && (!step.Member? ==> FirstFalling(data, offset, names) == None)
             && (step.Member? && !RisingHeader(data, offset) ==> FirstFalling(data, offset, names) == Some(offset))
             && (step.Member? && RisingHeader(data, offset) ==>
                   OnBoundary(step.next) && offset < step.next
                   && FirstFalling(data, offset, names) == FirstFalling(data, step.next, names + {step.name})))
  {
    hide StepAt, RisingHeader, OnBoundary;
    if StepAt(data, offset, names).Member? {
      StepSlices(data, offset, names);
      HeaderRises(data, offset, names);
    }
  }

  /** Offsets visited so far lie below. */
  ghost predicate Below(visited: set<int>, offset: int) {
    forall o <- visited :: o < offset
  }

  lemma EndsWithout(data: Bytes, offset: int, names: set<Name>, visited: set<int>)
    requires Below(visited, offset) && Trace(data, offset, names, visited) == []
    ensures !StepAt(data, offset, names).Member?
  {
    hide StepAt, Offsets;
  }

  lemma {:induction false} TraceFalls(data: Bytes, offset: int, names: set<Name>, visited: set<int>)
    requires OnBoundary(offset) && Below(visited, offset)
    ensures FallsFirstAt(Trace(data, offset, names, visited), FirstFalling(data, offset, names))
    decreases Offsets(data) - visited
  {
    hide StepAt, RisingHeader, FirstFalling, FallsFirstAt, Trace, Offsets, OnBoundary;
    FallingStep(data, offset, names);
    var step := StepAt(data, offset, names);
    var ends := TraceStep(data, offset, names, visited);
    if ends {
      EndsWithout(data, offset, names, visited);
      FallsNowhere();
    } else {
      HeaderRises(data, offset, names);
      var rest := Trace(data, step.next, names + {step.name}, visited + {offset});
      if RisingHeader(data, offset) {
        TraceFalls(data, step.next, names + {step.name}, visited + {offset});
        FallsLater(Located(offset, step), rest, FirstFalling(data, offset, names));
      } else {
        FallsHere(Located(offset, step), rest);
      }
    }
  }

  /** The offset rises at every member exactly when every header met states a size above what it
      and its name take up, counted down from zero; the first header that does not is where the
      offset first stays or goes back. */
  lemma OffsetsRiseExactly(stream: Bytes)
    ensures AllForward(Trace(stream, 0, {}, {}))
      <==> forall t <- Trace(stream, 0, {}, {}) :: RisingHeader(stream, t.offset)
    ensures OnBoundary(0) && FallsFirstAt(Trace(stream, 0, {}, {}), FirstFalling(stream, 0, {}))
  {
    hide StepAt, Trace, Forward, Linked, FreshNames, OnBoundary, RisingHeader, FirstFalling, FallsFirstAt;
    BoundaryZero();
    TraceChained(stream, 0, {}, {});
    TraceFalls(stream, 0, {}, {});
    var trace := Trace(stream, 0, {}, {});
    forall t | t in trace ensures Forward(t) <==> RisingHeader(stream, t.offset) {
      assert Met(stream, t);
    }
  }

  lemma BoundaryZero()
    ensures OnBoundary(0)
  {
  }

  ghost predicate AllSliced(data: Bytes, trace: seq<Located>) {
    forall t <- trace :: Sliced(data, t)
  }

  lemma SlicedFront(data: Bytes, t: Located, rest: seq<Located>)
    ensures NoNegativeSize([t] + rest) ==> t.member.Member? && t.member.size >= 0 && NoNegativeSize(rest)
    ensures Sliced(data, t) && AllSliced(data, rest) ==> AllSliced(data, [t] + rest)
    ensures AllSliced(data, [])
    ensures Sliced(data, t) ==> t.member.next >= 0
  {
    assert t in [t] + rest;
    assert forall x <- rest :: x in [t] + rest;
  }

  lemma {:induction false} TraceSliced(data: Bytes, offset: int, names: set<Name>, visited: set<int>)
    requires OnBoundary(offset) && 0 <= offset && NoNegativeSize(Trace(data, offset, names, visited))
    ensures AllSliced(data, Trace(data, offset, names, visited))
    decreases Offsets(data) - visited
  {
    hide *;
    var ends := TraceStep(data, offset, names, visited);
    if ends {
      SlicedFront(data, Located(offset, End), []);
    } else {
      var step := StepAt(data, offset, names);
      var rest := Trace(data, step.next, names + {step.name}, visited + {offset});
      StepSlices(data, offset, names);
      SlicedFront(data, Located(offset, step), rest);
      TraceSliced(data, step.next, names + {step.name}, visited + {offset});
    }
  }

  lemma SlicedRises(data: Bytes, trace: seq<Located>)
    requires AllSliced(data, trace)
    ensures AllForward(trace)
  {
  }

  /** An accepted archive holds exactly the members met, each starting where the one before ends,
      under distinct names. Without a negative size field each content is an in-bounds slice beyond
      its header and the offsets rise from member to member. */
  lemma AcceptedSlices(stream: Bytes)
    requires Parse(stream).Ok?
    ensures Parse(stream).files == Gathered(map[], Trace(stream, 0, {}, {}))
    ensures Linked(Trace(stream, 0, {}, {}), 0) && FreshNames(Trace(stream, 0, {}, {}), {})
    ensures NoNegativeSize(Trace(stream, 0, {}, {}))
      ==> AllSliced(stream, Trace(stream, 0, {}, {})) && AllForward(Trace(stream, 0, {}, {}))
  {
    hide Walk, Trace, Gathered, Linked, FreshNames, NoNegativeSize, AllSliced, AllForward, OnBoundary;
    var none: map<Name, Bytes> := map[];
    assert none.Keys == {};
    WalkGathers(stream, 0, none, {});
    BoundaryZero();
    TraceChained(stream, 0, {}, {});
    if NoNegativeSize(Trace(stream, 0, {}, {})) {
      TraceSliced(stream, 0, {}, {});
      SlicedRises(stream, Trace(stream, 0, {}, {}));
    }
  }
}
