/** The two exact patch appliers: by position with a cursor (the shell assembly), and by
    content with a single-occurrence check (the Office adaptations). Hunks are parsed already. */
module Patches {
  type Text = string

  datatype Result<+T> = Ok(value: T) | Err

  /** One body line: ' ' keeps, '-' removes, '+' inserts. */
  datatype Entry = Keep(line: Text) | Remove(line: Text) | Insert(line: Text)

  /** `at` is the stated old line number; a count the header leaves out is 1. */
  datatype Hunk = Hunk(at: int, oldCount: nat, newCount: nat, entries: seq<Entry>)

  function OldOf(entries: seq<Entry>): seq<Text> {
    if entries == [] then []
    else (if entries[0].Insert? then [] else [entries[0].line]) + OldOf(entries[1..])
  }

  function NewOf(entries: seq<Entry>): seq<Text> {
    if entries == [] then []
    else (if entries[0].Remove? then [] else [entries[0].line]) + NewOf(entries[1..])
  }

  function Old(h: Hunk): seq<Text> {
    OldOf(h.entries)
  }

  function New(h: Hunk): seq<Text> {
    NewOf(h.entries)
  }

  function Start(h: Hunk): int {
    h.at - (if Old(h) != [] then 1 else 0)
  }

  function Min(a: int, b: int): int {
    if a < b then a else b
  }

  /** A slice with both ends clamped to the sequence. */
  function Slice<T>(s: seq<T>, low: nat, high: nat): seq<T>
    requires low <= high
  {
    s[Min(low, |s|)..Min(high, |s|)]
  }

  predicate Counted(h: Hunk) {
    |Old(h)| == h.oldCount && |New(h)| == h.newCount
  }

  predicate Matches(original: seq<Text>, h: Hunk, cursor: nat) {
    Counted(h) && cursor <= Start(h) && Slice(original, Start(h), Start(h) + |Old(h)|) == Old(h)
  }

  function After(done: seq<Text>, rest: Result<seq<Text>>): Result<seq<Text>> {
    match rest case Err => Err case Ok(lines) => Ok(done + lines)
  }

  /** The positional applier from a cursor on. */
  function Splice(original: seq<Text>, hunks: seq<Hunk>, cursor: nat): Result<seq<Text>> {
    if hunks == [] then Ok(original[Min(cursor, |original|)..])
    else if !Matches(original, hunks[0], cursor) then Err
    else
      After(Slice(original, cursor, Start(hunks[0])) + New(hunks[0]),
            Splice(original, hunks[1..], Start(hunks[0]) + |Old(hunks[0])|))
  }

  lemma AfterAfter(a: seq<Text>, b: seq<Text>, rest: Result<seq<Text>>)
    ensures After(a, After(b, rest)) == After(a + b, rest)
    ensures After([], rest) == rest
  {
    if rest.Ok? {
      assert a + (b + rest.value) == a + b + rest.value;
      assert [] + rest.value == rest.value;
    }
  }

  /** `apply_exact` on one file: the loop over its hunks. */
  method ApplyExact(original: seq<Text>, hunks: seq<Hunk>) returns (patched: Result<seq<Text>>)
    ensures patched == if hunks == [] then Err else Splice(original, hunks, 0)
  {
    if hunks == [] {
      return Err;
    }
    var output: seq<Text>, cursor: nat := [], 0;
    AfterAfter([], [], Splice(original, hunks, 0));
    assert hunks[0..] == hunks;
    for i := 0 to |hunks|
      invariant Splice(original, hunks, 0) == After(output, Splice(original, hunks[i..], cursor))
    {
      hide Splice, Old, New, Start, Slice;
      var h := hunks[i];
      assert hunks[i..][0] == h && hunks[i..][1..] == hunks[i + 1..];
      SpliceCases(original, hunks[i..], cursor);
      if |Old(h)| != h.oldCount || |New(h)| != h.newCount {
        return Err;
      }
      var start := Start(h);
      if start < cursor || Slice(original, start, start + |Old(h)|) != Old(h) {
        return Err;
      }
      AfterAfter(output, Slice(original, cursor, start) + New(h), Splice(original, hunks[i + 1..], start + |Old(h)|));
      output := output + (Slice(original, cursor, start) + New(h));
      cursor := start + |Old(h)|;
    }
    output := output + original[Min(cursor, |original|)..];
    patched := Ok(output);
  }

  lemma SpliceCases(original: seq<Text>, hunks: seq<Hunk>, cursor: nat)
    requires hunks != []
    ensures Matches(original, hunks[0], cursor) ==>
      Splice(original, hunks, cursor)
        == After(Slice(original, cursor, Start(hunks[0])) + New(hunks[0]),
                 Splice(original, hunks[1..], Start(hunks[0]) + |Old(hunks[0])|))
    ensures !Matches(original, hunks[0], cursor) ==> Splice(original, hunks, cursor) == Err
  {
  }

  lemma SpliceStep(original: seq<Text>, hunks: seq<Hunk>, cursor: nat)
    requires hunks != [] && Splice(original, hunks, cursor).Ok?
    ensures Matches(original, hunks[0], cursor)
    ensures var rest := Splice(original, hunks[1..], Start(hunks[0]) + |Old(hunks[0])|);
      rest.Ok? && Splice(original, hunks, cursor).value ==
        Slice(original, cursor, Start(hunks[0])) + New(hunks[0]) + rest.value
  {
  }

  lemma Third<T>(a: seq<T>, b: seq<T>, c: seq<T>, k: nat)
    requires k < |c|
    ensures |a + b + c| == |a| + |b| + |c| && (a + b + c)[|a| + |b| + k] == c[k]
  {
  }

  lemma Front<T>(a: seq<T>, b: seq<T>, c: seq<T>, k: nat)
    requires k < |a|
    ensures |a + b + c| == |a| + |b| + |c| && (a + b + c)[k] == a[k]
  {
  }

  // ----- where the lines go

  function Gain(h: Hunk): int {
    |New(h)| - |Old(h)|
  }

  function Gains(hunks: seq<Hunk>): int {
    if hunks == [] then 0 else Gain(hunks[0]) + Gains(hunks[1..])
  }

  lemma MatchInRange(original: seq<Text>, h: Hunk, cursor: nat)
    requires Matches(original, h, cursor)
    ensures Old(h) != [] ==> Start(h) + |Old(h)| <= |original|
    ensures Min(Start(h), |original|) + |Old(h)| == Min(Start(h) + |Old(h)|, |original|)
  {
    assert |Slice(original, Start(h), Start(h) + |Old(h)|)| == |Old(h)|;
  }

  lemma KeptPiece(original: seq<Text>, h: Hunk, cursor: nat)
    requires Matches(original, h, cursor)
    ensures cursor <= Start(h)
    ensures var first := Slice(original, cursor, Start(h));
      && |first| == Min(Start(h), |original|) - Min(cursor, |original|)
      && forall k :: 0 <= k < |first| ==> first[k] == original[Min(cursor, |original|) + k]
  {
  }

  /** The length changes by exactly what the hunks add and remove. */
  lemma {:induction false} SpliceLength(original: seq<Text>, hunks: seq<Hunk>, cursor: nat)
    requires Splice(original, hunks, cursor).Ok?
    ensures |Splice(original, hunks, cursor).value| == |original| - Min(cursor, |original|) + Gains(hunks)
  {
    if hunks != [] {
      SpliceStep(original, hunks, cursor);
      KeptPiece(original, hunks[0], cursor);
      MatchInRange(original, hunks[0], cursor);
      hide Splice, Matches, Slice, Old, New;
      SpliceLength(original, hunks[1..], Start(hunks[0]) + |Old(hunks[0])|);
    }
  }

  predicate Covered(hunks: seq<Hunk>, line: int) {
    exists i :: 0 <= i < |hunks| && Start(hunks[i]) <= line < Start(hunks[i]) + |Old(hunks[i])|
  }

  /** How far the hunks before a line move it. */
  function Shift(hunks: seq<Hunk>, line: int): int {
    if hunks == [] || Start(hunks[0]) > line then 0 else Gain(hunks[0]) + Shift(hunks[1..], line)
  }

  lemma CoveredTail(hunks: seq<Hunk>, line: nat)
    requires hunks != [] && !Covered(hunks, line)
    ensures !Covered(hunks[1..], line) && !(Start(hunks[0]) <= line < Start(hunks[0]) + |Old(hunks[0])|)
  {
    assert forall i :: 0 <= i < |hunks[1..]| ==> hunks[1..][i] == hunks[i + 1];
  }

  lemma KeptBefore(original: seq<Text>, h: Hunk, cursor: nat, line: nat)
    requires Matches(original, h, cursor) && cursor <= line < |original|
    ensures var first := Slice(original, cursor, Start(h));
      if Start(h) > line then line - cursor < |first| && first[line - cursor] == original[line]
      else cursor <= Start(h) && |first| == Start(h) - cursor
  {
    KeptPiece(original, h, cursor);
    hide Slice, Start, Matches;
  }

  lemma GainIs(h: Hunk)
    ensures Gain(h) == |New(h)| - |Old(h)|
  {
    hide Old, New;
  }

  /** Lines outside the hunks keep their bytes and their order: each moves by the gains of
      the hunks at or before it. */
  lemma {:induction false} LinesOutsideKept(original: seq<Text>, hunks: seq<Hunk>, cursor: nat, line: nat)
    requires Splice(original, hunks, cursor).Ok?
    requires cursor <= line < |original| && !Covered(hunks, line)
    ensures 0 <= line - cursor + Shift(hunks, line) < |Splice(original, hunks, cursor).value|
    ensures Splice(original, hunks, cursor).value[line - cursor + Shift(hunks, line)] == original[line]
  {
    if hunks == [] {
      assert Shift(hunks, line) == 0;
    } else {
      hide *;
      var h, next := hunks[0], Start(hunks[0]) + |Old(hunks[0])|;
      SpliceStep(original, hunks, cursor);
      CoveredTail(hunks, line);
      ShiftStep(hunks, line);
      KeptBefore(original, h, cursor, line);
      if Start(h) > line {
        KeptInFront(original, hunks, cursor, line);
      } else {
        LinesOutsideKept(original, hunks[1..], next, line);
        KeptBehind(original, hunks, cursor, line);
      }
    }
  }

  /** A line in front of the next hunk. */
  lemma KeptInFront(original: seq<Text>, hunks: seq<Hunk>, cursor: nat, line: nat)
    requires hunks != [] && Splice(original, hunks, cursor).Ok?
    requires cursor <= line < |original| && Start(hunks[0]) > line
    ensures Shift(hunks, line) == 0
    ensures line - cursor < |Splice(original, hunks, cursor).value|
    ensures Splice(original, hunks, cursor).value[line - cursor] == original[line]
  {
    hide *;
    var h := hunks[0];
    SpliceStep(original, hunks, cursor);
    ShiftStep(hunks, line);
    KeptBefore(original, h, cursor, line);
    Front(Slice(original, cursor, Start(h)), New(h), Splice(original, hunks[1..], Start(h) + |Old(h)|).value, line - cursor);
  }

  /** A line behind the next hunk, found where the rest of the patch leaves it. */
  lemma KeptBehind(original: seq<Text>, hunks: seq<Hunk>, cursor: nat, line: nat)
    requires hunks != [] && Splice(original, hunks, cursor).Ok?
    requires cursor <= Start(hunks[0]) <= line < |original|
    requires Splice(original, hunks[1..], Start(hunks[0]) + |Old(hunks[0])|).Ok?
    requires (var rest, next := hunks[1..], Start(hunks[0]) + |Old(hunks[0])|;
              var at := line - next + Shift(rest, line);
              && 0 <= at < |Splice(original, rest, next).value|
              && Splice(original, rest, next).value[at] == original[line])
    ensures 0 <= line - cursor + Shift(hunks, line) < |Splice(original, hunks, cursor).value|
    ensures Splice(original, hunks, cursor).value[line - cursor + Shift(hunks, line)] == original[line]
  {
    hide *;
    var h, next := hunks[0], Start(hunks[0]) + |Old(hunks[0])|;
    SpliceStep(original, hunks, cursor);
    ShiftStep(hunks, line);
    KeptBefore(original, h, cursor, line);
    GainIs(h);
    var first, at := Slice(original, cursor, Start(h)), line - next + Shift(hunks[1..], line);
    Third(first, New(h), Splice(original, hunks[1..], next).value, at);
    assert line - cursor + Shift(hunks, line) == |first| + |New(h)| + at;
  }

  lemma ShiftStep(hunks: seq<Hunk>, line: int)
    requires hunks != []
    ensures Shift(hunks, line) == if Start(hunks[0]) > line then 0 else Gain(hunks[0]) + Shift(hunks[1..], line)
  {
  }

  // ----- the reversed patch

  function Swap(entries: seq<Entry>): seq<Entry> {
    if entries == [] then []
    else
      var e := entries[0];
      [match e case Keep(l) => Keep(l) case Remove(l) => Insert(l) case Insert(l) => Remove(l)] + Swap(entries[1..])
  }

  lemma {:induction false} SwapSwaps(entries: seq<Entry>)
    ensures OldOf(Swap(entries)) == NewOf(entries) && NewOf(Swap(entries)) == OldOf(entries)
  {
    if entries != [] {
      SwapSwaps(entries[1..]);
      assert Swap(entries)[1..] == Swap(entries[1..]);
    }
  }

  /** One hunk read backwards, at its position in the patched file. */
  function Back(h: Hunk, shift: int): Hunk {
    Hunk(Start(h) + shift + (if New(h) != [] then 1 else 0), h.newCount, h.oldCount, Swap(h.entries))
  }

  function Reversed(hunks: seq<Hunk>, shift: int): seq<Hunk> {
    if hunks == [] then [] else [Back(hunks[0], shift)] + Reversed(hunks[1..], shift + Gain(hunks[0]))
  }

  lemma BackParts(h: Hunk, shift: int)
    ensures Old(Back(h, shift)) == New(h) && New(Back(h, shift)) == Old(h)
    ensures Start(Back(h, shift)) == Start(h) + shift && (Counted(h) ==> Counted(Back(h, shift)))
  {
    SwapSwaps(h.entries);
  }

  /** A hunk that inserts lines past the end of the file; Python slices let it through. */
  predicate Beyond(original: seq<Text>, h: Hunk) {
    Start(h) > |original| && New(h) != []
  }

  predicate InFile(original: seq<Text>, hunks: seq<Hunk>) {
    forall i :: 0 <= i < |hunks| ==> !Beyond(original, hunks[i])
  }

  lemma {:induction false} BeyondTail(original: seq<Text>, hunks: seq<Hunk>, cursor: nat)
    requires Splice(original, hunks, cursor).Ok? && cursor > |original|
    ensures Splice(original, hunks, cursor).value != [] ==> !InFile(original, hunks)
  {
    if hunks != [] {
      var h := hunks[0];
      MatchInRange(original, h, cursor);
      BeyondTail(original, hunks[1..], Start(h) + |Old(h)|);
      assert New(h) != [] ==> Beyond(original, hunks[0]);
      InFileTail(original, hunks);
    }
  }

  lemma InFileTail(original: seq<Text>, hunks: seq<Hunk>)
    requires hunks != []
    ensures InFile(original, hunks) <==> !Beyond(original, hunks[0]) && InFile(original, hunks[1..])
  {
    assert forall i :: 0 <= i < |hunks[1..]| ==> hunks[1..][i] == hunks[i + 1];
    if !Beyond(original, hunks[0]) && InFile(original, hunks[1..]) {
      forall i | 0 <= i < |hunks| ensures !Beyond(original, hunks[i]) {
        assert i > 0 ==> hunks[1..][i - 1] == hunks[i];
      }
    }
  }

  /** Where a hunk inside the file put its new lines in the patched text. */
  lemma PutBack(original: seq<Text>, h: Hunk, cursor: nat, shift: int, head: seq<Text>, rest: seq<Text>)
    requires Matches(original, h, cursor) && |head| == Min(cursor, |original|) + shift && cursor + shift >= 0
    requires Start(h) <= |original|
    ensures var kept := Slice(original, cursor, Start(h));
      var text := head + (kept + New(h) + rest);
      && Slice(text, Start(h) + shift, Start(h) + shift + |New(h)|) == New(h)
      && Slice(text, cursor + shift, Start(h) + shift) == kept
  {
    hide Old, New;
    var kept := Slice(original, cursor, Start(h));
    var inserted, from := New(h), Start(h) + shift;
    var text := head + (kept + inserted + rest);
    assert text == (head + kept) + (inserted + rest) && |head + kept| == from;
    assert text[from..from + |inserted|] == inserted;
    assert text[cursor + shift..from] == kept;
  }

  /** One step of the way back: the reversed hunk matches where the patch put its lines,
      except that one beyond the file can only match when lines follow it. */
  lemma BackMatches(original: seq<Text>, h: Hunk, cursor: nat, shift: int, head: seq<Text>, rest: seq<Text>)
    requires Matches(original, h, cursor) && |head| == Min(cursor, |original|) + shift && cursor + shift >= 0
    ensures var text := head + (Slice(original, cursor, Start(h)) + New(h) + rest);
      var back := Back(h, shift);
      if Beyond(original, h) then Matches(text, back, cursor + shift) ==> rest != []
      else
        && Matches(text, back, cursor + shift)
        && (Start(h) <= |original| || rest == [] ==>
              Slice(text, cursor + shift, Start(back)) == Slice(original, cursor, Start(h)))
  {
    BackParts(h, shift);
    MatchInRange(original, h, cursor);
    KeptPiece(original, h, cursor);
    if Start(h) <= |original| {
      PutBack(original, h, cursor, shift, head, rest);
      hide Back, Old, New, Slice, Start;
    } else {
      hide Back, Old, New, Start;
      var kept := Slice(original, cursor, Start(h));
      var text := head + (kept + New(h) + rest);
      assert |head| + |kept| == |original| + shift;
      if New(h) == [] && rest == [] {
        assert Slice(text, cursor + shift, Start(h) + shift) == kept;
      }
    }
  }

  /** Running the reversed patch from the middle: `head` is the patched text so far. */
  lemma {:induction false} ReverseFrom(original: seq<Text>, hunks: seq<Hunk>, cursor: nat, shift: int, head: seq<Text>)
    requires Splice(original, hunks, cursor).Ok?
    requires |head| == Min(cursor, |original|) + shift && cursor + shift >= 0
    ensures Splice(head + Splice(original, hunks, cursor).value, Reversed(hunks, shift), cursor + shift) ==
      if InFile(original, hunks) then Ok(original[Min(cursor, |original|)..]) else Err
    decreases |hunks|
  {
    hide Splice, Reversed, Back, Matches, InFile, Beyond, Old, New, Start, Slice, Gain, Min;
    var text := head + Splice(original, hunks, cursor).value;
    if hunks == [] {
      ReverseNothing(original, cursor, shift, head);
    } else {
      var h, next := hunks[0], Start(hunks[0]) + |Old(hunks[0])|;
      SpliceStep(original, hunks, cursor);
      var kept := Slice(original, cursor, Start(h));
      var rest := Splice(original, hunks[1..], next).value;
      var others := Reversed(hunks[1..], shift + Gain(h));
      ReverseStep(hunks, shift);
      BackMatches(original, h, cursor, shift, head, rest);
      BackParts(h, shift);
      HeadGrows(original, h, cursor, shift, head);
      InFileTail(original, hunks);
      if next > |original| {
        BeyondTail(original, hunks[1..], next);
      }
      var head' := head + kept + New(h);
      assert text == head' + rest;
      ReverseFrom(original, hunks[1..], next, shift + Gain(h), head');
      BackStep(text, h, others, cursor + shift, shift);
      assert text == head + (kept + New(h) + rest);
      if InFile(original, hunks) {
        BeyondOnly(original, h, rest);
        RestoredPiece(original, h, cursor);
      }
    }
  }

  lemma ReverseNothing(original: seq<Text>, cursor: nat, shift: int, head: seq<Text>)
    requires |head| == Min(cursor, |original|) + shift && cursor + shift >= 0
    ensures var text := head + original[Min(cursor, |original|)..];
      && Splice(original, [], cursor) == Ok(original[Min(cursor, |original|)..])
      && Splice(text, Reversed([], shift), cursor + shift) == Splice(original, [], cursor) && InFile(original, [])
  {
    var text := head + original[Min(cursor, |original|)..];
    assert text[Min(cursor + shift, |text|)..] == original[Min(cursor, |original|)..];
  }

  lemma ReverseStep(hunks: seq<Hunk>, shift: int)
    requires hunks != []
    ensures Reversed(hunks, shift) == [Back(hunks[0], shift)] + Reversed(hunks[1..], shift + Gain(hunks[0]))
  {
  }

  lemma HeadGrows(original: seq<Text>, h: Hunk, cursor: nat, shift: int, head: seq<Text>)
    requires Matches(original, h, cursor) && |head| == Min(cursor, |original|) + shift && cursor + shift >= 0
    ensures var next := Start(h) + |Old(h)|;
      && |head + Slice(original, cursor, Start(h)) + New(h)| == Min(next, |original|) + (shift + Gain(h))
      && next >= 0 && next + (shift + Gain(h)) == Start(h) + shift + |New(h)| >= 0
      && (Start(h) <= |original| || next > |original|) && (Beyond(original, h) ==> next > |original|)
  {
    MatchInRange(original, h, cursor);
  }

  lemma BeyondOnly(original: seq<Text>, h: Hunk, rest: seq<Text>)
    requires !Beyond(original, h)
    ensures Start(h) > |original| ==> New(h) == []
  {
  }

  lemma BackStep(text: seq<Text>, h: Hunk, others: seq<Hunk>, cursor: nat, shift: int)
    ensures var back := Back(h, shift);
      Splice(text, [back] + others, cursor) ==
        if Matches(text, back, cursor)
        then After(Slice(text, cursor, Start(back)) + New(back), Splice(text, others, Start(back) + |Old(back)|))
        else Err
  {
    assert ([Back(h, shift)] + others)[1..] == others;
  }

  lemma RestoredPiece(original: seq<Text>, h: Hunk, cursor: nat)
    requires Matches(original, h, cursor)
    ensures Slice(original, cursor, Start(h)) + Old(h) + original[Min(Start(h) + |Old(h)|, |original|)..]
      == original[Min(cursor, |original|)..]
  {
    MatchInRange(original, h, cursor);
    hide OldOf, NewOf;
    var s, e, c := Min(Start(h), |original|), Min(Start(h) + |Old(h)|, |original|), Min(cursor, |original|);
    assert Old(h) == original[s..e];
    assert original[c..s] + original[s..e] + original[e..] == original[c..];
  }

  /** The exact inverse. After an accepted patch, swapping old and new in every hunk at its
      shifted position restores the file exactly when no hunk inserts lines past its end;
      otherwise the reversed patch is refused. */
  lemma ReverseRestores(original: seq<Text>, hunks: seq<Hunk>)
    requires Splice(original, hunks, 0).Ok?
    ensures Splice(Splice(original, hunks, 0).value, Reversed(hunks, 0), 0) ==
      if InFile(original, hunks) then Ok(original) else Err
  {
    assert [] + Splice(original, hunks, 0).value == Splice(original, hunks, 0).value;
    ReverseFrom(original, hunks, 0, 0, []);
  }

  // ----- the applier by content

  function Join(lines: seq<Text>): Text {
    if lines == [] then [] else lines[0] + Join(lines[1..])
  }

  predicate Occurs(text: Text, part: Text, at: int) {
    0 <= at && at + |part| <= |text| && text[at..at + |part|] == part
  }

  /** Non-overlapping occurrences from the left, as a byte-string count makes them. */
  function Count(text: Text, part: Text, from: nat): nat
    requires part != []
    decreases |text| - from
  {
    if from + |part| > |text| then 0
    else if Occurs(text, part, from) then 1 + Count(text, part, from + |part|)
    else Count(text, part, from + 1)
  }

  function First(text: Text, part: Text, from: nat): (at: nat)
    requires part != [] && Count(text, part, from) > 0
    ensures from <= at && Occurs(text, part, at)
    decreases |text| - from
  {
    if Occurs(text, part, from) then from else First(text, part, from + 1)
  }

  function ReplaceAt(text: Text, at: nat, part: Text, with: Text): Text
    requires at + |part| <= |text|
  {
    text[..at] + with + text[at + |part|..]
  }

  predicate Adaptable(text: Text, h: Hunk) {
    Counted(h) && Join(Old(h)) != [] && Count(text, Join(Old(h)), 0) == 1
  }

  function AdaptOne(text: Text, h: Hunk): Text
    requires Adaptable(text, h)
  {
    ReplaceAt(text, First(text, Join(Old(h)), 0), Join(Old(h)), Join(New(h)))
  }

  function Adapt(text: Text, hunks: seq<Hunk>): Result<Text>
    decreases |hunks|
  {
    if hunks == [] then Ok(text)
    else if !Adaptable(text, hunks[0]) then Err
    else Adapt(AdaptOne(text, hunks[0]), hunks[1..])
  }

  /** `exact_adaptations` on one file: the loop over its hunks. */
  method ExactAdaptations(original: Text, hunks: seq<Hunk>) returns (adapted: Result<Text>)
    ensures adapted == Adapt(original, hunks)
  {
    var output := original;
    assert hunks[0..] == hunks;
    for i := 0 to |hunks|
      invariant Adapt(original, hunks) == Adapt(output, hunks[i..])
    {
      var h := hunks[i];
      assert hunks[i..][0] == h && hunks[i..][1..] == hunks[i + 1..];
      if |Old(h)| != h.oldCount || |New(h)| != h.newCount {
        return Err;
      }
      var before, after := Join(Old(h)), Join(New(h));
      if before == [] || Count(output, before, 0) != 1 {
        return Err;
      }
      output := ReplaceAt(output, First(output, before, 0), before, after);
    }
    adapted := Ok(output);
  }

  // ----- agreement

  ghost predicate Alone(text: Text, part: Text, at: int) {
    Occurs(text, part, at) && forall other :: Occurs(text, part, other) ==> other == at
  }

  lemma {:induction false} CountNone(text: Text, part: Text, from: nat)
    requires part != [] && forall at :: from <= at ==> !Occurs(text, part, at)
    ensures Count(text, part, from) == 0
    decreases |text| - from
  {
    if from + |part| <= |text| {
      CountNone(text, part, from + 1);
    }
  }

  lemma {:induction false} AloneCounts(text: Text, part: Text, at: nat, from: nat)
    requires part != [] && Alone(text, part, at) && from <= at
    ensures Count(text, part, from) == 1 && First(text, part, from) == at
    decreases at - from
  {
    if from == at {
      CountNone(text, part, at + |part|);
    } else {
      assert !Occurs(text, part, from);
      AloneCounts(text, part, at, from + 1);
    }
  }

  lemma {:induction false} JoinConcat(a: seq<Text>, b: seq<Text>)
    ensures Join(a + b) == Join(a) + Join(b)
  {
    if a == [] {
      assert a + b == b;
    } else {
      assert (a + b)[0] == a[0] && (a + b)[1..] == a[1..] + b;
      JoinConcat(a[1..], b);
    }
  }

  lemma JoinThree(head: Text, a: seq<Text>, b: seq<Text>, c: seq<Text>)
    ensures head + Join(a + b + c) == head + Join(a) + Join(b) + Join(c)
  {
    JoinConcat(a + b, c);
    JoinConcat(a, b);
    hide Join;
    assert head + (Join(a) + Join(b) + Join(c)) == head + Join(a) + Join(b) + Join(c);
  }

  /** Each hunk's old text is not empty and occurs at one position only in the text the
      hunk is applied to. */
  ghost predicate EachAlone(text: Text, hunks: seq<Hunk>)
    decreases |hunks|
  {
    hunks != [] ==>
      && Join(Old(hunks[0])) != []
      && (exists at: nat :: Alone(text, Join(Old(hunks[0])), at))
      && (Adaptable(text, hunks[0]) ==> EachAlone(AdaptOne(text, hunks[0]), hunks[1..]))
  }

  /** Where a matching hunk's old text stands in the joined file. */
  lemma HunkInText(original: seq<Text>, h: Hunk, cursor: nat, head: Text)
    requires Matches(original, h, cursor) && Old(h) != [] && cursor <= |original|
    ensures Start(h) + |Old(h)| <= |original|
    ensures var before := head + Join(original[cursor..Start(h)]);
      head + Join(original[cursor..]) == before + Join(Old(h)) + Join(original[Start(h) + |Old(h)|..])
  {
    OldInRange(original, h, cursor);
    hide *;
    var s, e := Start(h), Start(h) + |Old(h)|;
    JoinThree(head, original[cursor..s], Old(h), original[e..]);
  }

  lemma OldInRange(original: seq<Text>, h: Hunk, cursor: nat)
    requires Matches(original, h, cursor) && Old(h) != [] && cursor <= |original|
    ensures cursor <= Start(h) && Start(h) + |Old(h)| <= |original|
    ensures original[cursor..] == original[cursor..Start(h)] + Old(h) + original[Start(h) + |Old(h)|..]
  {
    MatchInRange(original, h, cursor);
    hide OldOf, NewOf;
    SplitThree(original, cursor, Start(h), Start(h) + |Old(h)|);
  }

  lemma SplitThree<T>(s: seq<T>, a: nat, b: nat, c: nat)
    requires a <= b <= c <= |s|
    ensures s[a..] == s[a..b] + s[b..c] + s[c..]
  {
  }

  lemma AdaptedText(text: Text, before: Text, after: Text, h: Hunk)
    requires Counted(h) && Join(Old(h)) != [] && text == before + Join(Old(h)) + after
    requires exists at: nat :: Alone(text, Join(Old(h)), at)
    ensures Adaptable(text, h) && AdaptOne(text, h) == before + Join(New(h)) + after
  {
    var part := Join(Old(h));
    assert Occurs(text, part, |before|);
    var at: nat :| Alone(text, part, at);
    AloneCounts(text, part, at, 0);
    assert text[..|before|] == before && text[|before| + |part|..] == after;
  }

  lemma {:induction false} AppliersAgreeFrom(original: seq<Text>, hunks: seq<Hunk>, cursor: nat, head: Text)
    requires Splice(original, hunks, cursor).Ok? && cursor <= |original|
    requires EachAlone(head + Join(original[cursor..]), hunks)
    ensures Adapt(head + Join(original[cursor..]), hunks) == Ok(head + Join(Splice(original, hunks, cursor).value))
    decreases |hunks|
  {
    hide *;
    var text := head + Join(original[cursor..]);
    if hunks == [] {
      NothingToPatch(original, cursor, text);
    } else {
      var h, next := hunks[0], Start(hunks[0]) + |Old(hunks[0])|;
      SpliceStep(original, hunks, cursor);
      EachAloneStep(text, hunks);
      HunkInText(original, h, cursor, head);
      MatchCounted(original, h, cursor);
      var kept, rest := original[cursor..Start(h)], Splice(original, hunks[1..], next).value;
      var before := head + Join(kept);
      AdaptedText(text, before, Join(original[next..]), h);
      AdaptStep(text, hunks);
      AppliersAgreeFrom(original, hunks[1..], next, before + Join(New(h)));
      assert kept + New(h) + rest == kept + (New(h) + rest);
      JoinConcat(kept, New(h) + rest);
      JoinConcat(New(h), rest);
      assert before + Join(New(h)) + Join(rest) == head + (Join(kept) + (Join(New(h)) + Join(rest)));
    }
  }

  lemma NothingToPatch(original: seq<Text>, cursor: nat, text: Text)
    requires cursor <= |original|
    ensures Splice(original, [], cursor) == Ok(original[cursor..]) && Adapt(text, []) == Ok(text)
  {
  }

  lemma EachAloneStep(text: Text, hunks: seq<Hunk>)
    requires hunks != [] && EachAlone(text, hunks)
    ensures Join(Old(hunks[0])) != [] && Old(hunks[0]) != []
    ensures exists at: nat :: Alone(text, Join(Old(hunks[0])), at)
    ensures Adaptable(text, hunks[0]) ==> EachAlone(AdaptOne(text, hunks[0]), hunks[1..])
  {
  }

  lemma MatchCounted(original: seq<Text>, h: Hunk, cursor: nat)
    requires Matches(original, h, cursor)
    ensures Counted(h) && cursor <= Start(h)
    ensures Start(h) <= |original| ==> Slice(original, cursor, Start(h)) == original[cursor..Start(h)]
  {
  }

  lemma AdaptStep(text: Text, hunks: seq<Hunk>)
    requires hunks != [] && Adaptable(text, hunks[0])
    ensures Adapt(text, hunks) == Adapt(AdaptOne(text, hunks[0]), hunks[1..])
  {
  }

  /** The two appliers agree: where the positional one accepts, and each old text stands at
      one position only, replacing the unique occurrences in turn gives the same file. */
  lemma AppliersAgree(original: seq<Text>, hunks: seq<Hunk>)
    requires Splice(original, hunks, 0).Ok? && EachAlone(Join(original), hunks)
    ensures Adapt(Join(original), hunks) == Ok(Join(Splice(original, hunks, 0).value))
  {
    hide *;
    assert original[0..] == original;
    assert [] + Join(original) == Join(original);
    AppliersAgreeFrom(original, hunks, 0, []);
    var out := Splice(original, hunks, 0).value;
    assert [] + Join(out) == Join(out);
  }

  // ----- agreement, exactly

  /** Replacing the first occurrence instead of the one at `p` makes no difference: the new text
      can be moved over what lies between the two. */
  predicate Slides(text: Text, p: nat, part: Text, with: Text)
    requires part != [] && Count(text, part, 0) == 1 && Occurs(text, part, p)
  {
    FirstIs(text, part, p, 0);
    var f := First(text, part, 0);
    with + text[f + |part|..p + |part|] == text[f..p] + with
  }

  lemma {:induction false} FirstIs(text: Text, part: Text, p: nat, from: nat)
    requires part != [] && Count(text, part, from) > 0 && Occurs(text, part, p) && from <= p
    ensures First(text, part, from) <= p
    decreases p - from
  {
    if !Occurs(text, part, from) {
      FirstIs(text, part, p, from + 1);
    }
  }

  lemma CancelBoth<T>(front: seq<T>, a: seq<T>, b: seq<T>, back: seq<T>)
    ensures front + a + back == front + b + back <==> a == b
  {
    if front + a + back == front + b + back {
      assert |front + a + back| == |front| + |a| + |back|;
      assert |a| == |b|;
      assert (front + a + back)[|front|..|front| + |a|] == a;
      assert (front + b + back)[|front|..|front| + |b|] == b;
    }
  }

  lemma MoveSplit(text: Text, f: nat, p: nat, n: nat, with: Text)
    requires f <= p && p + n <= |text|
    ensures text[..f] + with + text[f + n..] == text[..f] + (with + text[f + n..p + n]) + text[p + n..]
    ensures text[..p] + with + text[p + n..] == text[..f] + (text[f..p] + with) + text[p + n..]
  {
    assert text[f + n..] == text[f + n..p + n] + text[p + n..];
    assert text[..p] == text[..f] + text[f..p];
  }

  /** One accepted replacement: the same text exactly when the new text slides. */
  lemma ReplaceAgrees(text: Text, p: nat, part: Text, with: Text)
    requires part != [] && Count(text, part, 0) == 1 && Occurs(text, part, p)
    ensures ReplaceAt(text, First(text, part, 0), part, with) == ReplaceAt(text, p, part, with)
      <==> Slides(text, p, part, with)
  {
    FirstIs(text, part, p, 0);
    var f := First(text, part, 0);
    assert f + |part| <= |text| && p + |part| <= |text|;
    SlidesIs(text, p, part, with);
    hide *;
    ReplacePlaces(text, f, p, part, with);
  }

  lemma SlidesIs(text: Text, p: nat, part: Text, with: Text)
    requires part != [] && Count(text, part, 0) == 1 && Occurs(text, part, p)
    ensures (var f := First(text, part, 0);
             && f <= p && f + |part| <= |text| && p + |part| <= |text|
             && (Slides(text, p, part, with) <==>
                   with + text[f + |part|..p + |part|] == text[f..p] + with))
  {
    FirstIs(text, part, p, 0);
    hide First, Count;
  }

  lemma ReplacePlaces(text: Text, f: nat, p: nat, part: Text, with: Text)
    requires f <= p && p + |part| <= |text|
    ensures ReplaceAt(text, f, part, with) == ReplaceAt(text, p, part, with) <==>
      with + text[f + |part|..p + |part|] == text[f..p] + with
  {
    MoveSplit(text, f, p, |part|, with);
    CancelBoth(text[..f], with + text[f + |part|..p + |part|], text[f..p] + with, text[p + |part|..]);
  }

  /** Where the positional applier puts the next hunk: the text before it, and what is left. */
  ghost predicate StepsAgree(original: seq<Text>, hunks: seq<Hunk>, cursor: nat, head: Text)
    requires Splice(original, hunks, cursor).Ok? && cursor <= |original|
    decreases |hunks|
  {
    hunks != [] ==>
      var h, text := hunks[0], head + Join(original[cursor..]);
      SpliceStep(original, hunks, cursor);
      && Adaptable(text, h)
      && var before := head + Join(Slice(original, cursor, Start(h)));
         OldInText(original, h, cursor, head);
         && Slides(text, |before|, Join(Old(h)), Join(New(h)))
         && StepsAgree(original, hunks[1..], Start(h) + |Old(h)|, before + Join(New(h)))
  }

  lemma OldInText(original: seq<Text>, h: Hunk, cursor: nat, head: Text)
    requires Matches(original, h, cursor) && cursor <= |original| && Join(Old(h)) != []
    ensures Start(h) + |Old(h)| <= |original|
    ensures (var before, text := head + Join(Slice(original, cursor, Start(h))), head + Join(original[cursor..]);
             && Occurs(text, Join(Old(h)), |before|)
             && ReplaceAt(text, |before|, Join(Old(h)), Join(New(h)))
               == before + Join(New(h)) + Join(original[Start(h) + |Old(h)|..]))
  {
    hide Old, New, Matches, Slice, Start;
    assert Old(h) != [];
    HunkInText(original, h, cursor, head);
    MatchCounted(original, h, cursor);
    var before, text := head + Join(original[cursor..Start(h)]), head + Join(original[cursor..]);
    hide Join;
    var part, after := Join(Old(h)), Join(original[Start(h) + |Old(h)|..]);
    assert text[|before|..|before| + |part|] == part;
    assert text[..|before|] == before && text[|before| + |part|..] == after;
  }

  /** Both appliers come to the same text. */
  ghost predicate Same(original: seq<Text>, hunks: seq<Hunk>, cursor: nat, head: Text, text: Text) {
    var done := Splice(original, hunks, cursor);
    done.Ok? && Adapt(text, hunks) == Ok(head + Join(done.value))
  }

  lemma SameFront(original: seq<Text>, hunks: seq<Hunk>, cursor: nat, head: Text, text: Text)
    requires hunks != [] && Matches(original, hunks[0], cursor) && Adaptable(text, hunks[0])
    ensures (var h := hunks[0];
             var before, next := head + Join(Slice(original, cursor, Start(h))), Start(h) + |Old(h)|;
             Same(original, hunks, cursor, head, text) <==>
               Same(original, hunks[1..], next, before + Join(New(h)), AdaptOne(text, h)))
  {
    hide Old, New, Join, Slice, Start, Adaptable, AdaptOne, Matches, Splice, Adapt;
    var h := hunks[0];
    MatchCounted(original, h, cursor);
    SpliceCases(original, hunks, cursor);
    AdaptStep(text, hunks);
    var done := Splice(original, hunks[1..], Start(h) + |Old(h)|);
    if done.Ok? {
      JoinThree(head, Slice(original, cursor, Start(h)), New(h), done.value);
    }
  }

  lemma SameNone(original: seq<Text>, cursor: nat, head: Text, text: Text)
    requires cursor <= |original|
    ensures Same(original, [], cursor, head, text) <==> text == head + Join(original[cursor..])
  {
    NothingToPatch(original, cursor, text);
    hide Join;
  }

  /** They agree after each of the first hunks, from none to all. */
  ghost predicate SameThroughout(original: seq<Text>, hunks: seq<Hunk>, cursor: nat, head: Text)
    requires cursor <= |original|
  {
    forall k | 0 <= k <= |hunks| :: Same(original, hunks[..k], cursor, head, head + Join(original[cursor..]))
  }

  /** The first hunk keeps them together, and they stay together behind it. */
  lemma ThroughoutStep(original: seq<Text>, hunks: seq<Hunk>, cursor: nat, head: Text)
    requires hunks != [] && Matches(original, hunks[0], cursor) && cursor <= |original|
    requires Adaptable(head + Join(original[cursor..]), hunks[0])
    requires Start(hunks[0]) + |Old(hunks[0])| <= |original|
    ensures (var h, text := hunks[0], head + Join(original[cursor..]);
             var next := Start(h) + |Old(h)|;
             var done := head + Join(Slice(original, cursor, Start(h))) + Join(New(h));
             SameThroughout(original, hunks, cursor, head) <==>
               AdaptOne(text, h) == done + Join(original[next..]) && SameThroughout(original, hunks[1..], next, done))
  {
    hide Old, New, Join, Slice, Start, Adaptable, AdaptOne, Matches, Same;
    var h, text := hunks[0], head + Join(original[cursor..]);
    MatchCounted(original, h, cursor);
    var next, done := Start(h) + |Old(h)|, head + Join(Slice(original, cursor, Start(h))) + Join(New(h));
    assert hunks[..0] == [];
    SameNone(original, cursor, head, text);
    forall k: nat | k < |hunks|
      ensures Same(original, hunks[..k + 1], cursor, head, text)
        <==> Same(original, hunks[1..][..k], next, done, AdaptOne(text, h))
    {
      assert hunks[..k + 1][0] == h && hunks[..k + 1][1..] == hunks[1..][..k];
      SameFront(original, hunks[..k + 1], cursor, head, text);
    }
    assert hunks[1..][..0] == [];
    SameNone(original, next, done, AdaptOne(text, h));
    if SameThroughout(original, hunks, cursor, head) {
      assert Same(original, hunks[..0 + 1], cursor, head, text);
    }
    if AdaptOne(text, h) == done + Join(original[next..]) && SameThroughout(original, hunks[1..], next, done) {
      forall k | 0 <= k <= |hunks| ensures Same(original, hunks[..k], cursor, head, text) {
        if k > 0 {
          assert Same(original, hunks[1..][..k - 1], next, done, AdaptOne(text, h));
          assert hunks[..k - 1 + 1] == hunks[..k];
        }
      }
    }
  }

  /** A hunk the applier by content refuses parts them. */
  lemma RefusedParts(original: seq<Text>, hunks: seq<Hunk>, cursor: nat, head: Text)
    requires hunks != [] && cursor <= |original|
    requires !Adaptable(head + Join(original[cursor..]), hunks[0])
    ensures !SameThroughout(original, hunks, cursor, head)
  {
    var text := head + Join(original[cursor..]);
    assert hunks[..1][0] == hunks[0];
    hide Splice, Join, Adaptable;
    assert Adapt(text, hunks[..1]) == Err;
    assert !Same(original, hunks[..1], cursor, head, text);
  }

  lemma {:induction false} AgreeFromExactly(original: seq<Text>, hunks: seq<Hunk>, cursor: nat, head: Text)
    requires Splice(original, hunks, cursor).Ok? && cursor <= |original|
    ensures SameThroughout(original, hunks, cursor, head) <==> StepsAgree(original, hunks, cursor, head)
    decreases |hunks|
  {
    hide *;
    if hunks == [] {
      StepsNone(original, cursor, head);
    } else {
      var h, text := hunks[0], head + Join(original[cursor..]);
      SpliceStep(original, hunks, cursor);
      StepsStep(original, hunks, cursor, head);
      if !Adaptable(text, h) {
        RefusedParts(original, hunks, cursor, head);
      } else {
        AdaptableParts(text, h);
        OldInText(original, h, cursor, head);
        var before := head + Join(Slice(original, cursor, Start(h)));
        ReplaceAgrees(text, |before|, Join(Old(h)), Join(New(h)));
        ThroughoutStep(original, hunks, cursor, head);
        AgreeFromExactly(original, hunks[1..], Start(h) + |Old(h)|, before + Join(New(h)));
      }
    }
  }

  lemma AdaptableParts(text: Text, h: Hunk)
    requires Adaptable(text, h)
    ensures Join(Old(h)) != [] && Count(text, Join(Old(h)), 0) == 1
    ensures AdaptOne(text, h) == ReplaceAt(text, First(text, Join(Old(h)), 0), Join(Old(h)), Join(New(h)))
  {
  }

  lemma StepsNone(original: seq<Text>, cursor: nat, head: Text)
    requires cursor <= |original|
    ensures Splice(original, [], cursor).Ok? && StepsAgree(original, [], cursor, head)
    ensures SameThroughout(original, [], cursor, head)
  {
    var none: seq<Hunk> := [];
    assert none[..0] == [];
    SameNone(original, cursor, head, head + Join(original[cursor..]));
    hide Same;
  }

  lemma StepsStep(original: seq<Text>, hunks: seq<Hunk>, cursor: nat, head: Text)
    requires hunks != [] && Splice(original, hunks, cursor).Ok? && cursor <= |original|
    ensures Matches(original, hunks[0], cursor)
    ensures Splice(original, hunks[1..], Start(hunks[0]) + |Old(hunks[0])|).Ok?
    ensures (var h, text := hunks[0], head + Join(original[cursor..]);
             var before, next := head + Join(Slice(original, cursor, Start(h))), Start(h) + |Old(h)|;
             && (!Adaptable(text, h) ==> !StepsAgree(original, hunks, cursor, head))
             && (Adaptable(text, h) && next <= |original| && Occurs(text, Join(Old(h)), |before|) ==>
                   (StepsAgree(original, hunks, cursor, head) <==>
                      Slides(text, |before|, Join(Old(h)), Join(New(h)))
                      && StepsAgree(original, hunks[1..], next, before + Join(New(h))))))
  {
    SpliceStep(original, hunks, cursor);
    hide Splice, Slides, Join, Matches, Slice, Start, Old, New;
  }

  /** Where the positional applier accepts, replacing by content comes to the same text after every
      hunk exactly when each hunk's old text is counted once, and its new text can be moved over
      what lies between the first place where the old one stands and the one the position names. */
  lemma AgreeExactly(original: seq<Text>, hunks: seq<Hunk>)
    requires Splice(original, hunks, 0).Ok?
    ensures SameThroughout(original, hunks, 0, []) <==> StepsAgree(original, hunks, 0, [])
  {
    AgreeFromExactly(original, hunks, 0, []);
  }

  const OVERLAPPED: seq<Text> := ["x", "x", "x"]
  const OVERLAPPING: Hunk := Hunk(2, 2, 2, [Keep("x"), Remove("x"), Insert("y")])

  lemma OfStep(entries: seq<Entry>)
    requires entries != []
    ensures OldOf(entries) == (if entries[0].Insert? then [] else [entries[0].line]) + OldOf(entries[1..])
    ensures NewOf(entries) == (if entries[0].Remove? then [] else [entries[0].line]) + NewOf(entries[1..])
  {
  }

  lemma OverlapParts()
    ensures Old(OVERLAPPING) == ["x", "x"] && New(OVERLAPPING) == ["x", "y"]
    ensures Join(OVERLAPPED) == "xxx" && Join(["x", "x"]) == "xx" && Join(["x", "y"]) == "xy"
  {
    hide Join;
    var e := OVERLAPPING.entries;
    assert e[1..] == [Remove("x"), Insert("y")] && e[1..][1..] == [Insert("y")] && e[1..][1..][1..] == [];
    OfStep(e);
    OfStep(e[1..]);
    OfStep(e[1..][1..]);
    assert OldOf([]) == [] && NewOf([]) == [];
    hide OldOf, NewOf;
    assert ["x"] + (["x"] + []) == ["x", "x"] && ["x"] + (["y"] + []) == ["x", "y"];
    JoinPair("x", "x");
    JoinPair("x", "y");
    JoinConcat(["x"], ["x", "x"]);
    JoinPair("x", "");
    assert ["x"] + ["x", "x"] == OVERLAPPED;
  }

  lemma JoinPair(a: Text, b: Text)
    ensures Join([a]) == a && Join([a, b]) == a + b
  {
    assert [a][1..] == [] && [a, b][1..] == [b] && [b][1..] == [];
    assert a + [] == a && b + [] == b;
  }

  /** Such a hunk: counting does not see overlaps, so both appliers accept it, and they disagree. */
  lemma OverlapDisagrees()
    ensures Splice(OVERLAPPED, [OVERLAPPING], 0) == Ok(["x", "x", "y"])
    ensures Adapt(Join(OVERLAPPED), [OVERLAPPING]) == Ok("xyx")
  {
    var h := OVERLAPPING;
    OverlapParts();
    hide Old, New, Join;
    assert [h][1..] == [];
    assert Splice(OVERLAPPED, [h], 0) == Ok(["x", "x", "y"]) by {
      hide Adapt;
      assert OVERLAPPED[3..] == [];
      assert OVERLAPPED[1..3] == ["x", "x"] && OVERLAPPED[0..1] == ["x"];
      assert Splice(OVERLAPPED, [], 3) == Ok([]);
      assert ["x"] + ["x", "y"] + [] == ["x", "x", "y"];
    }
    assert Adapt("xxx", [h]) == Ok("xyx") by {
      hide Splice;
      assert Occurs("xxx", "xx", 0);
      assert Count("xxx", "xx", 2) == 0;
      assert First("xxx", "xx", 0) == 0;
      assert "xxx"[..0] + "xy" + "xxx"[2..] == "xyx";
      assert Adapt("xyx", []) == Ok("xyx");
    }
  }
}
