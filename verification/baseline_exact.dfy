/** For which defaults everything a capture records can be staged: exactly those in which a bar
    that a later one hides under its identifier takes nothing from its own projection that the
    later one would not pass on. */
module BaselineExact {
  import opened BaselineSettings

  // ---------------------------------------------------------------- defaults without bars

  /** No list of bars is reached below. */
  ghost predicate Plain(default: Json, key: string)
    decreases default
  {
    Topological(key) ||
    match default
    case Object(fields) => forall k <- fields :: Plain(fields[k], k)
    case List(_) => key != "barConfigs"
    case _ => true
  }

  predicate Unclean(value: Json) {
    value.Text? && ('/' in value.text || '\\' in value.text || '\n' in value.text)
  }

  /** The projection onto plain defaults, which never raises. */
  function Lay(value: Json, default: Json, key: string): Json
    decreases default
  {
    if Topological(key) then default
    else if default.Object? then
      Object(map k | k in default.fields :: Lay(Get(value, k, default.fields[k]), default.fields[k], k))
    else if default.List? || !SameType(value, default) || Unclean(value) then default
    else value
  }

  lemma {:induction false} PlainPortable(value: Json, default: Json, key: string)
    requires Plain(default, key)
    ensures Portable(value, default, key) == Some(Lay(value, default, key))
    decreases default
  {
    if !Topological(key) && default.Object? {
      forall k | k in default.fields
        ensures Portable(Get(value, k, default.fields[k]), default.fields[k], k)
          == Some(Lay(Get(value, k, default.fields[k]), default.fields[k], k))
      {
        PlainPortable(Get(value, k, default.fields[k]), default.fields[k], k);
      }
      hide Topological, Get, Plain;
      ObjectPortable(value, default, key);
      assert Portable(value, default, key).value.fields == Lay(value, default, key).fields;
    }
  }

  lemma LayObject(value: Json, default: Json, key: string)
    requires !Topological(key) && default.Object?
    ensures Lay(value, default, key).Object? && Lay(value, default, key).fields.Keys == default.fields.Keys
    ensures forall k <- default.fields ::
      Lay(value, default, key).fields[k] == Lay(Get(value, k, default.fields[k]), default.fields[k], k)
  {
    hide Topological, Get;
  }

  lemma SameObject(a: Json, b: Json)
    requires a.Object? && b.Object? && a.fields.Keys == b.fields.Keys
    requires forall k <- a.fields :: a.fields[k] == b.fields[k]
    ensures a == b
  {
    assert a.fields == b.fields;
  }

  lemma {:induction false} LaySelf(default: Json, key: string)
    ensures Lay(default, default, key) == default
    decreases default
  {
    if !Topological(key) && default.Object? {
      LayObject(default, default, key);
      forall k | k in default.fields ensures Lay(default, default, key).fields[k] == default.fields[k] {
        LaySelf(default.fields[k], k);
      }
      hide Lay, Topological;
      SameObject(Lay(default, default, key), default);
    }
  }

  // ---------------------------------------------------------------- what a bar passes on

  /** Nothing is ever taken over. */
  ghost predicate Fixed(default: Json, key: string)
    decreases default
  {
    Topological(key) ||
    match default
    case Object(fields) => forall k <- fields :: Fixed(fields[k], k)
    case List(_) => true
    case Null => true
    case _ => false
  }

  /** Whatever `default` would take from a value it still takes after `later` has taken its part. */
  ghost predicate Absorbs(default: Json, later: Json, key: string)
    decreases default, 1
  {
    Topological(key) ||
    match default
    case Object(fields) => forall k <- fields :: AbsorbsField(default, later, k)
    case List(_) => true
    case Null => true
    case _ => SameType(default, later) && (later == default || Unclean(later))
  }

  ghost predicate AbsorbsField(default: Json, later: Json, k: string)
    requires default.Object? && k in default.fields
    decreases default, 0
  {
    if later.Object? && k in later.fields then Absorbs(default.fields[k], later.fields[k], k)
    else Fixed(default.fields[k], k)
  }

  lemma {:induction false} FixedLay(value: Json, default: Json, key: string)
    requires Fixed(default, key)
    ensures Lay(value, default, key) == default
    decreases default
  {
    if !Topological(key) && default.Object? {
      LayObject(value, default, key);
      forall k | k in default.fields ensures Lay(value, default, key).fields[k] == default.fields[k] {
        FixedLay(Get(value, k, default.fields[k]), default.fields[k], k);
      }
      hide Lay, Topological, Fixed, Get;
      SameObject(Lay(value, default, key), default);
    }
  }

  lemma {:induction false} AbsorbsLater(default: Json, later: Json, key: string)
    requires Absorbs(default, later, key)
    ensures Lay(later, default, key) == default
    decreases default
  {
    if !Topological(key) && default.Object? {
      LayObject(later, default, key);
      forall k | k in default.fields ensures Lay(later, default, key).fields[k] == default.fields[k] {
        if later.Object? && k in later.fields {
          AbsorbsLater(default.fields[k], later.fields[k], k);
        } else {
          LaySelf(default.fields[k], k);
        }
      }
      hide Lay, Topological, Absorbs;
      SameObject(Lay(later, default, key), default);
    }
  }

  /** One field of the projection of a projection. */
  lemma FieldAgain(value: Json, default: Json, later: Json, k: string)
    requires default.Object? && k in default.fields
    requires later.Object? && k in later.fields && Absorbs(default.fields[k], later.fields[k], k)
    requires value.Object? && k in value.fields ==>
      Lay(Lay(value.fields[k], later.fields[k], k), default.fields[k], k) == Lay(value.fields[k], default.fields[k], k)
    ensures Lay(Lay(Get(value, k, later.fields[k]), later.fields[k], k), default.fields[k], k)
      == Lay(Get(value, k, default.fields[k]), default.fields[k], k)
  {
    hide Lay, Absorbs;
    if !(value.Object? && k in value.fields) {
      LaySelf(later.fields[k], k);
      AbsorbsLater(default.fields[k], later.fields[k], k);
      LaySelf(default.fields[k], k);
    }
  }

  lemma {:induction false} AbsorbsLay(value: Json, default: Json, later: Json, key: string)
    requires Absorbs(default, later, key)
    ensures Lay(Lay(value, later, key), default, key) == Lay(value, default, key)
    decreases default
  {
    if !Topological(key) && default.Object? {
      var once := Lay(value, later, key);
      var a, b := Lay(once, default, key), Lay(value, default, key);
      LayObject(once, default, key);
      LayObject(value, default, key);
      forall k | k in default.fields ensures a.fields[k] == b.fields[k] {
        if later.Object? && k in later.fields {
          LayObject(value, later, key);
          if value.Object? && k in value.fields {
            AbsorbsLay(value.fields[k], default.fields[k], later.fields[k], k);
          }
          FieldAgain(value, default, later, k);
        } else {
          FixedLay(Get(once, k, default.fields[k]), default.fields[k], k);
          FixedLay(Get(value, k, default.fields[k]), default.fields[k], k);
        }
      }
      hide Lay, Topological, Absorbs;
      SameObject(a, b);
    }
  }

  // ---------------------------------------------------------------- values that show the opposite

  /** A value of the same type that is taken over and differs. */
  function Other(default: Json): Json {
    match default
    case Bool(flag) => Bool(!flag)
    case Int(number) => Int(number + 1)
    case Float(decimal) => Float(decimal + 1.0)
    case Text(text) => Text(if text == "" then "a" else "")
    case _ => default
  }

  lemma {:induction false} NotFixed(default: Json, key: string) returns (value: Json)
    requires !Fixed(default, key)
    ensures Lay(value, default, key) != default
    decreases default
  {
    value := Other(default);
    if default.Object? {
      var k :| k in default.fields && !Fixed(default.fields[k], k);
      var part := NotFixed(default.fields[k], k);
      value := Object(map[k := part]);
      LayObject(value, default, key);
    }
  }

  lemma {:induction false} NotAbsorbed(default: Json, later: Json, key: string) returns (value: Json)
    requires !Absorbs(default, later, key)
    ensures Lay(Lay(value, later, key), default, key) != Lay(value, default, key)
    decreases default
  {
    if default.Object? {
      var k :| k in default.fields && !AbsorbsField(default, later, k);
      var part := FieldNotAbsorbed(default, later, k);
      value := Object(map[k := part]);
      FieldDiffers(value, default, later, key, k);
    } else if SameType(default, later) {
      value := Null;
    } else {
      value := Other(default);
    }
  }

  /** The field is not what it was after a projection onto the later default. */
  predicate Lost(part: Json, default: Json, later: Json, k: string)
    requires default.Object? && k in default.fields
  {
    if later.Object? && k in later.fields
    then Lay(Lay(part, later.fields[k], k), default.fields[k], k) != Lay(part, default.fields[k], k)
    else Lay(part, default.fields[k], k) != default.fields[k]
  }

  lemma {:induction false} FieldNotAbsorbed(default: Json, later: Json, k: string) returns (part: Json)
    requires default.Object? && k in default.fields && !AbsorbsField(default, later, k)
    ensures Lost(part, default, later, k)
    decreases default, 0
  {
    if later.Object? && k in later.fields {
      part := NotAbsorbed(default.fields[k], later.fields[k], k);
    } else {
      part := NotFixed(default.fields[k], k);
    }
  }

  lemma FieldDiffers(value: Json, default: Json, later: Json, key: string, k: string)
    requires default.Object? && k in default.fields && !Topological(key)
    requires value.Object? && k in value.fields && Lost(value.fields[k], default, later, k)
    ensures Lay(Lay(value, later, key), default, key) != Lay(value, default, key)
  {
    var once, part := Lay(value, later, key), value.fields[k];
    assert Get(once, k, default.fields[k]) ==
      if later.Object? && k in later.fields then Lay(part, later.fields[k], k) else default.fields[k] by {
      if later.Object? {
        LayObject(value, later, key);
      }
    }
    LaySelf(default.fields[k], k);
    LayObject(once, default, key);
    LayObject(value, default, key);
    hide Lay;
  }

  // ---------------------------------------------------------------- two bars of one identifier

  /** The identifier aside, which both bars keep. */
  ghost predicate AbsorbsBar(bar: Json, later: Json) {
    bar.Object? && forall k <- bar.fields :: k != "id" ==> AbsorbsField(bar, later, k)
  }

  ghost predicate Usable(bar: Json) {
    bar.Object? && Hashable(Id(bar)) && Plain(bar, "")
  }

  lemma IdLaid(value: Json, bar: Json)
    requires Usable(bar) && (value == bar || (value.Object? && SameKey(Id(value), Id(bar))))
    ensures Lay(value, bar, "").Object? && Id(Lay(value, bar, "")) == Id(bar)
  {
    PlainPortable(value, bar, "");
    hide Portable, Lay, Plain;
    IdKept(value, bar);
  }

  lemma SameKeys(a: Json, b: Json, c: Json)
    requires SameKey(a, b)
    ensures SameKey(b, a)
    ensures SameKey(a, c) <==> SameKey(b, c)
    ensures SameKey(c, a) <==> SameKey(c, b)
  {
  }

  lemma SameKeyTurned(a: Json, b: Json)
    ensures SameKey(a, b) <==> SameKey(b, a)
  {
  }

  lemma BarFieldAgain(value: Json, bar: Json, later: Json, k: string)
    requires Usable(bar) && Usable(later) && SameKey(Id(later), Id(bar)) && AbsorbsBar(bar, later)
    requires value.Object? && SameKey(Id(value), Id(bar)) && k in bar.fields
    ensures Lay(Lay(value, later, ""), bar, "").fields.Keys == Lay(value, bar, "").fields.Keys == bar.fields.Keys
    ensures Lay(Lay(value, later, ""), bar, "").fields[k] == Lay(value, bar, "").fields[k]
  {
    PlainKeys();
    hide Topological, SameKey, Hashable, Plain;
    var once := Lay(value, later, "");
    LayObject(once, bar, "");
    LayObject(value, bar, "");
    LayObject(value, later, "");
    if k == "id" {
      SameKeys(Id(later), Id(bar), Id(value));
      IdLaid(value, later);
      IdLaid(once, bar);
      IdLaid(value, bar);
    } else if k in later.fields {
      if k in value.fields {
        AbsorbsLay(value.fields[k], bar.fields[k], later.fields[k], k);
      }
      hide Lay, Absorbs;
      FieldAgain(value, bar, later, k);
    } else {
      FixedLay(Get(once, k, bar.fields[k]), bar.fields[k], k);
      FixedLay(Get(value, k, bar.fields[k]), bar.fields[k], k);
    }
  }

  lemma BarAgain(value: Json, bar: Json, later: Json)
    requires Usable(bar) && Usable(later) && SameKey(Id(later), Id(bar)) && AbsorbsBar(bar, later)
    requires value.Object? && SameKey(Id(value), Id(bar))
    ensures Lay(Lay(value, later, ""), bar, "") == Lay(value, bar, "")
  {
    var a, b := Lay(Lay(value, later, ""), bar, ""), Lay(value, bar, "");
    PlainKeys();
    LayObject(Lay(value, later, ""), bar, "");
    LayObject(value, bar, "");
    hide *;
    forall k | k in bar.fields ensures a.fields[k] == b.fields[k] {
      BarFieldAgain(value, bar, later, k);
    }
    SameObject(a, b);
  }

  /** A user who has neither bar. */
  lemma BarUntouched(bar: Json, later: Json)
    requires Usable(bar) && Usable(later) && SameKey(Id(later), Id(bar)) && AbsorbsBar(bar, later)
    ensures Lay(later, bar, "") == bar
  {
    PlainKeys();
    LayObject(later, bar, "");
    hide Topological, SameKey, Hashable, Plain;
    forall k | k in bar.fields ensures Lay(later, bar, "").fields[k] == bar.fields[k] {
      if k == "id" {
        IdLaid(later, bar);
      } else if k in later.fields {
        AbsorbsLater(bar.fields[k], later.fields[k], k);
      } else {
        LaySelf(bar.fields[k], k);
      }
    }
    hide Lay;
    SameObject(Lay(later, bar, ""), bar);
  }

  /** A user's bar that shows it when a bar does take something the later one does not pass on. */
  lemma BarNotAbsorbed(bar: Json, later: Json) returns (value: Json)
    requires Usable(bar) && Usable(later) && SameKey(Id(later), Id(bar)) && !AbsorbsBar(bar, later)
    ensures value.Object? && Id(value) == Id(bar)
    ensures Lay(Lay(value, later, ""), bar, "") != Lay(value, bar, "")
  {
    PlainKeys();
    var k :| k in bar.fields && k != "id" && !AbsorbsField(bar, later, k);
    hide Topological, SameKey, Hashable, Plain, Absorbs, Fixed, Lay;
    var part := FieldNotAbsorbed(bar, later, k);
    value := Object(map["id" := Id(bar), k := part]);
    FieldDiffers(value, bar, later, "", k);
  }

  // ---------------------------------------------------------------- lists of bars

  /** The later bar of the same identifier that no other one hides. */
  ghost predicate Hides(bars: seq<Json>, i: nat, j: nat)
    requires i < |bars| && j < |bars|
  {
    && i <= j && SameKey(Id(bars[i]), Id(bars[j]))
    && forall k | j < k < |bars| :: !SameKey(Id(bars[j]), Id(bars[k]))
  }

  ghost predicate Absorbed(bars: seq<Json>) {
    forall i, j | 0 <= i < j < |bars| && Hides(bars, i, j) :: AbsorbsBar(bars[i], bars[j])
  }

  lemma SelfAbsorbed(bar: Json)
    requires bar.Object?
    ensures AbsorbsBar(bar, bar)
  {
    forall k | k in bar.fields ensures AbsorbsField(bar, bar, k) {
      AbsorbsSelf(bar.fields[k], k);
    }
  }

  lemma {:induction false} AbsorbsSelf(default: Json, key: string)
    ensures Absorbs(default, default, key)
    decreases default
  {
    if default.Object? {
      forall k | k in default.fields ensures AbsorbsField(default, default, k) {
        AbsorbsSelf(default.fields[k], k);
      }
    }
  }

  lemma {:induction false} Hider(bars: seq<Json>, i: nat, from: nat) returns (j: nat)
    requires i <= from < |bars| && SameKey(Id(bars[i]), Id(bars[from]))
    ensures j < |bars| && Hides(bars, i, j)
    decreases |bars| - from
  {
    hide SameKey;
    if k :| from < k < |bars| && SameKey(Id(bars[from]), Id(bars[k])) {
      SameKeys(Id(bars[from]), Id(bars[i]), Id(bars[k])) by {
        SameKeys(Id(bars[i]), Id(bars[from]), Id(bars[i]));
      }
      j := Hider(bars, i, k);
    } else {
      j := from;
    }
  }

  lemma {:induction false} BarLast(items: seq<Json>, j: nat, id: Json, otherwise: Json)
    requires j < |items| && items[j].Object? && SameKey(Id(items[j]), id)
    requires forall k | j < k < |items| :: !SameKey(Id(items[k]), id)
    ensures Bar(items, id, otherwise) == items[j]
  {
    hide SameKey;
    if j < |items| - 1 {
      BarLast(items[..|items| - 1], j, id, otherwise);
    }
  }

  lemma {:induction false} BarEither(items: seq<Json>, a: Json, b: Json, x: Json, y: Json)
    requires SameKey(a, b)
    ensures (Bar(items, a, x) == x && Bar(items, b, y) == y)
      || (Bar(items, a, x) == Bar(items, b, y) && Bar(items, a, x).Object? && SameKey(Id(Bar(items, a, x)), a))
  {
    hide SameKey;
    if items != [] {
      SameKeys(a, b, Id(items[|items| - 1]));
      BarEither(items[..|items| - 1], a, b, x, y);
    }
  }

  /** The projections of a list of bars. */
  function Laid(items: seq<Json>, bars: seq<Json>): seq<Json> {
    seq(|bars|, i requires 0 <= i < |bars| => Lay(Bar(items, Id(bars[i]), bars[i]), bars[i], ""))
  }

  ghost predicate AllUsable(bars: seq<Json>) {
    forall bar <- bars :: Usable(bar)
  }

  ghost predicate Readable(items: seq<Json>) {
    forall v <- items :: v.Object? ==> Hashable(Id(v))
  }

  lemma LaidPortable(items: seq<Json>, bars: seq<Json>)
    requires AllUsable(bars) && Readable(items)
    ensures Portable(List(items), List(bars), "barConfigs") == Some(List(Laid(items, bars)))
  {
    hide Portable, Lay, Bar, Plain, Hashable, Id;
    forall i | 0 <= i < |bars|
      ensures Portable(Bar(items, Id(bars[i]), bars[i]), bars[i], "") == Some(Laid(items, bars)[i])
    {
      assert Usable(bars[i]);
      PlainPortable(Bar(items, Id(bars[i]), bars[i]), bars[i], "");
    }
    BarsAccepted(List(items), bars, Laid(items, bars));
  }

  lemma LaidBar(items: seq<Json>, bars: seq<Json>, i: nat)
    requires AllUsable(bars) && i < |bars|
    ensures Laid(items, bars)[i].Object? && Id(Laid(items, bars)[i]) == Id(bars[i])
  {
    BarMatches(items, Id(bars[i]), bars[i]);
    hide Lay, Bar, SameKey, Id;
    assert Usable(bars[i]);
    IdLaid(Bar(items, Id(bars[i]), bars[i]), bars[i]);
  }

  lemma LaidReadable(items: seq<Json>, bars: seq<Json>)
    requires AllUsable(bars)
    ensures Readable(Laid(items, bars))
  {
    hide Hashable, Id;
    forall v | v in Laid(items, bars) ensures v.Object? && Hashable(Id(v)) {
      var i :| 0 <= i < |bars| && Laid(items, bars)[i] == v;
      LaidBar(items, bars, i);
      assert Usable(bars[i]);
    }
  }

  /** In the second projection a bar meets the first projection of the bar that hides it. */
  lemma LaidAgain(items: seq<Json>, bars: seq<Json>, i: nat, j: nat)
    requires AllUsable(bars) && i < |bars| && j < |bars| && Hides(bars, i, j)
    ensures Laid(Laid(items, bars), bars)[i]
      == Lay(Lay(Bar(items, Id(bars[j]), bars[j]), bars[j], ""), bars[i], "")
  {
    hide Lay, SameKey, AllUsable, Id, Bar;
    var r := Laid(items, bars);
    forall k: nat | k < |bars| ensures r[k].Object? && Id(r[k]) == Id(bars[k]) {
      LaidBar(items, bars, k);
    }
    SameKeys(Id(bars[i]), Id(bars[j]), Id(bars[j]));
    forall k | j < k < |r| ensures !SameKey(Id(r[k]), Id(bars[i])) {
      SameKeys(Id(bars[j]), Id(bars[i]), Id(bars[k]));
      SameKeyTurned(Id(bars[i]), Id(bars[k]));
    }
    BarLast(r, j, Id(bars[i]), bars[i]);
  }

  lemma AbsorbedAgain(items: seq<Json>, bars: seq<Json>)
    requires AllUsable(bars) && Absorbed(bars)
    ensures Laid(Laid(items, bars), bars) == Laid(items, bars)
  {
    hide Lay, SameKey, Usable, AbsorbsBar, Id, Bar;
    forall i: nat | i < |bars| ensures Laid(Laid(items, bars), bars)[i] == Laid(items, bars)[i] {
      AbsorbedBar(items, bars, i);
    }
  }

  lemma AbsorbedBar(items: seq<Json>, bars: seq<Json>, i: nat)
    requires AllUsable(bars) && Absorbed(bars) && i < |bars|
    ensures Laid(Laid(items, bars), bars)[i] == Laid(items, bars)[i]
  {
    assert Usable(bars[i]);
    SelfAbsorbed(bars[i]);
    hide Lay, SameKey, AbsorbsBar, Id, Bar, Plain, Hashable;
    SameKeySelf(Id(bars[i]));
    var j := Hider(bars, i, i);
    assert Usable(bars[j]);
    LaidAgain(items, bars, i, j);
    var x, y := Bar(items, Id(bars[i]), bars[i]), Bar(items, Id(bars[j]), bars[j]);
    BarEither(items, Id(bars[i]), Id(bars[j]), bars[i], bars[j]);
    SameKeys(Id(bars[i]), Id(bars[j]), Id(bars[i]));
    if x == bars[i] && y == bars[j] {
      LaySelf(bars[i], "");
      LaySelf(bars[j], "");
      BarUntouched(bars[i], bars[j]);
    } else {
      BarAgain(x, bars[i], bars[j]);
    }
  }

  lemma NotAbsorbedAgain(bars: seq<Json>) returns (items: seq<Json>)
    requires AllUsable(bars) && !Absorbed(bars)
    ensures Readable(items) && Laid(Laid(items, bars), bars) != Laid(items, bars)
  {
    hide Lay, SameKey, AbsorbsBar, Id, Plain, Hashable;
    var i: nat, j: nat :| i < j < |bars| && Hides(bars, i, j) && !AbsorbsBar(bars[i], bars[j]);
    assert Usable(bars[i]) && Usable(bars[j]);
    SameKeys(Id(bars[i]), Id(bars[j]), Id(bars[i]));
    var value := BarNotAbsorbed(bars[i], bars[j]);
    items := [value];
    LaidAgain(items, bars, i, j);
    SameKeySelf(Id(bars[i]));
    BarLast(items, 0, Id(bars[i]), bars[i]);
    BarLast(items, 0, Id(bars[j]), bars[j]);
    hide Bar;
    assert Laid(items, bars)[i] == Lay(value, bars[i], "");
  }

  // ---------------------------------------------------------------- all defaults

  /** Bars hold no list of bars themselves. */
  ghost predicate Flat(default: Json, key: string)
    decreases default
  {
    Topological(key) ||
    match default
    case Object(fields) => forall k <- fields :: Flat(fields[k], k)
    case List(items) => key == "barConfigs" ==> forall d <- items :: Plain(d, "")
    case _ => true
  }

  /** Bars are objects with usable identifiers, and each that a later one hides is absorbed by it. */
  ghost predicate Settled(default: Json, key: string)
    decreases default
  {
    Topological(key) ||
    match default
    case Object(fields) => forall k <- fields :: Settled(fields[k], k)
    case List(items) =>
      key == "barConfigs" ==> (forall d <- items :: d.Object? && Hashable(Id(d))) && Absorbed(items)
    case _ => true
  }

  ghost predicate Repeats(value: Json, default: Json, key: string) {
    Portable(value, default, key).Some? ==>
      Portable(Portable(value, default, key).value, default, key) == Portable(value, default, key)
  }

  lemma BarsRepeat(value: Json, bars: seq<Json>)
    requires AllUsable(bars) && Absorbed(bars)
    ensures Repeats(value, List(bars), "barConfigs")
  {
    PlainKeys();
    hide Topological, Absorbed, Usable, Laid;
    var items := if value.List? then value.items else bars;
    if value.List? && !Readable(value.items) {
      assert Portable(value, List(bars), "barConfigs") == None;
    } else if value.List? {
      LaidPortable(items, bars);
      LaidReadable(items, bars);
      LaidPortable(Laid(items, bars), bars);
      AbsorbedAgain(items, bars);
    } else {
      assert Portable(value, List(bars), "barConfigs") == Some(List(bars));
      DefaultBars(bars);
    }
  }

  /** A list of bars is its own projection if its hidden bars are absorbed. */
  lemma DefaultBars(bars: seq<Json>)
    requires AllUsable(bars) && Absorbed(bars)
    ensures Portable(List(bars), List(bars), "barConfigs") == Some(List(bars))
  {
    hide *;
    var none := Laid([], bars);
    LaidNone(bars);
    LaidReadable([], bars);
    LaidPortable(none, bars);
    AbsorbedAgain([], bars);
  }

  lemma LaidNone(bars: seq<Json>)
    ensures Laid([], bars) == bars
  {
    forall i | 0 <= i < |bars| ensures Laid([], bars)[i] == bars[i] {
      LaySelf(bars[i], "");
    }
  }

  lemma {:induction false} SettledRepeats(value: Json, default: Json, key: string)
    requires Flat(default, key) && Settled(default, key)
    ensures Repeats(value, default, key)
    decreases default
  {
    if Topological(key) || (!default.Object? && !(default.List? && key == "barConfigs")) {
      KeptRepeats(value, default, key);
    } else if default.Object? {
      forall k | k in default.fields
        ensures Repeats(Get(value, k, default.fields[k]), default.fields[k], k)
      {
        SettledRepeats(Get(value, k, default.fields[k]), default.fields[k], k);
      }
      hide Settled, Flat;
      ObjectRepeats(value, default, key);
    } else {
      BarsRepeat(value, default.items);
    }
  }

  lemma KeptRepeats(value: Json, default: Json, key: string)
    requires Topological(key) || (!default.Object? && !(default.List? && key == "barConfigs"))
    ensures Repeats(value, default, key)
  {
    hide Topological;
  }

  lemma ObjectRepeats(value: Json, default: Json, key: string)
    requires default.Object? && !Topological(key)
    requires forall k <- default.fields :: Repeats(Get(value, k, default.fields[k]), default.fields[k], k)
    ensures Repeats(value, default, key)
  {
    hide Portable, Topological;
    if Portable(value, default, key).Some? {
      ObjectPortable(value, default, key);
      var r := Portable(value, default, key).value;
      forall k | k in default.fields
        ensures Portable(Get(r, k, default.fields[k]), default.fields[k], k) == Some(r.fields[k])
      {
        assert Repeats(Get(value, k, default.fields[k]), default.fields[k], k);
      }
      ObjectPortable(r, default, key);
      SameObject(Portable(r, default, key).value, r);
    }
  }

  /** Settings under which the default is recorded as it is. */
  function Neutral(default: Json): Json {
    match default
    case Object(fields) => Object(map k | k in fields :: Neutral(fields[k]))
    case List(_) => Null
    case _ => List([])
  }

  lemma {:induction false} NeutralPortable(default: Json, key: string)
    ensures Portable(Neutral(default), default, key) == Some(default)
    decreases default
  {
    if !Topological(key) && default.Object? {
      forall k | k in default.fields
        ensures Portable(Get(Neutral(default), k, default.fields[k]), default.fields[k], k) == Some(default.fields[k])
      {
        NeutralPortable(default.fields[k], k);
      }
      hide Portable, Topological, Neutral;
      ObjectPortable(Neutral(default), default, key);
      SameObject(Portable(Neutral(default), default, key).value, default);
    } else {
      hide Topological;
    }
  }

  lemma {:induction false} UnsettledFails(default: Json, key: string) returns (value: Json)
    requires Flat(default, key) && !Settled(default, key)
    ensures !Repeats(value, default, key)
    decreases default
  {
    if default.Object? {
      var k :| k in default.fields && !Settled(default.fields[k], k);
      var part := UnsettledFails(default.fields[k], k);
      hide Settled, Flat;
      value := FieldFails(default, key, k, part);
    } else if forall d <- default.items :: Usable(d) {
      var items := NotAbsorbedAgain(default.items);
      value := List(items);
      LaidPortable(items, default.items);
      LaidReadable(items, default.items);
      LaidPortable(Laid(items, default.items), default.items);
    } else {
      value := Null;
      UnusableFails(default.items);
    }
  }

  lemma UnusableFails(bars: seq<Json>)
    requires exists d <- bars :: !d.Object? || !Hashable(Id(d))
    ensures !Repeats(Null, List(bars), "barConfigs")
  {
    PlainKeys();
    hide Topological, Bar, Hashable;
  }

  lemma FieldFails(default: Json, key: string, k: string, part: Json) returns (value: Json)
    requires default.Object? && !Topological(key) && k in default.fields && !Repeats(part, default.fields[k], k)
    ensures !Repeats(value, default, key)
  {
    value := Object(map j | j in default.fields :: if j == k then part else Neutral(default.fields[j]));
    hide Portable, Topological, Neutral;
    forall j | j in default.fields
      ensures Portable(Get(value, j, default.fields[j]), default.fields[j], j).Some?
    {
      NeutralPortable(default.fields[j], j);
    }
    ObjectPortable(value, default, key);
    var r := Portable(value, default, key).value;
    ObjectPortable(r, default, key);
  }

  // ---------------------------------------------------------------- capture and stage

  /** Whatever a capture records can be staged under the same policy, if and only if in every list
      of bars these are objects with usable identifiers, and each bar hidden by a later one of its
      identifier is absorbed by it. */
  lemma StageableExactly(policy: Json)
    requires Flat(policy, "")
    ensures Settled(policy, "") <==>
      forall settings :: Captured(settings, policy).Some? ==> Stageable(Captured(settings, policy).value, policy)
  {
    if Settled(policy, "") {
      forall settings | Captured(settings, policy).Some?
        ensures Stageable(Captured(settings, policy).value, policy)
      {
        SettledRepeats(settings, policy, "");
      }
    } else {
      var settings := UnsettledFails(policy, "");
      assert Captured(settings, policy).Some? && !Stageable(Captured(settings, policy).value, policy);
    }
    hide Portable, Settled, Flat;
  }

  /** A bar of a name and an identifier. */
  ghost predicate Small(bar: Json) {
    && bar.Object? && bar.fields.Keys == {"id", "name"} && Hashable(bar.fields["id"])
    && !bar.fields["name"].Object? && !bar.fields["name"].List? && !bar.fields["name"].Null?
  }

  lemma SmallUsable(bar: Json)
    requires Small(bar)
    ensures Usable(bar)
  {
    hide Topological;
    assert Plain(bar.fields["id"], "id") && Plain(bar.fields["name"], "name");
  }

  lemma SmallKept(bar: Json, value: Json)
    requires Small(bar) && Small(value) && value.fields["id"] == bar.fields["id"]
    requires !SameType(value.fields["name"], bar.fields["name"])
    ensures Lay(value, bar, "") == bar
  {
    PlainKeys();
    hide Topological;
    LayObject(value, bar, "");
    assert Lay(value.fields["id"], bar.fields["id"], "id") == bar.fields["id"];
    assert Lay(value.fields["name"], bar.fields["name"], "name") == bar.fields["name"];
    hide Lay;
    SameObject(Lay(value, bar, ""), bar);
  }

  lemma SmallHidden(bar: Json, later: Json)
    requires Small(bar) && Small(later) && later.fields["id"] == bar.fields["id"]
    requires !SameType(later.fields["name"], bar.fields["name"])
    ensures !Absorbed([bar, later])
  {
    PlainKey("name");
    hide Topological;
    assert !SameType(bar.fields["name"], later.fields["name"]);
    assert !Absorbs(bar.fields["name"], later.fields["name"], "name");
    assert !AbsorbsField(bar, later, "name");
    var bars := [bar, later];
    assert Hides(bars, 0, 1) && !AbsorbsBar(bars[0], bars[1]);
  }

  lemma SmallLaid(bar: Json, later: Json)
    requires Small(bar) && Small(later) && later.fields["id"] == bar.fields["id"]
    requires !SameType(later.fields["name"], bar.fields["name"])
    ensures Laid([bar, later], [bar, later]) == [bar, later]
  {
    var bars := [bar, later];
    SmallKept(bar, later);
    LaySelf(later, "");
    SameKeySelf(Id(bar));
    BarLast(bars, 1, Id(bar), bar);
    BarLast(bars, 1, Id(later), later);
    hide Lay, Bar, SameKey, Small;
  }

  lemma SmallFlat(bar: Json, later: Json)
    requires Small(bar) && Small(later)
    ensures Flat(List([bar, later]), "barConfigs") && AllUsable([bar, later])
    ensures Settled(List([bar, later]), "barConfigs") ==> Absorbed([bar, later])
    ensures Readable([bar, later])
  {
    SmallUsable(bar);
    SmallUsable(later);
    PlainKeys();
    hide Topological, Absorbed, Plain, Small;
  }

  /** Being its own projection is not enough: two bars under one identifier whose names are of
      different types leave each other as they are, and some settings have a capture that cannot
      be staged. */
  lemma OwnProjectionFails(bar: Json, later: Json)
    requires Small(bar) && Small(later) && later.fields["id"] == bar.fields["id"]
    requires !SameType(later.fields["name"], bar.fields["name"])
    ensures Portable(List([bar, later]), List([bar, later]), "barConfigs") == Some(List([bar, later]))
    ensures exists settings :: !Repeats(settings, List([bar, later]), "barConfigs")
  {
    hide *;
    SmallFlat(bar, later);
    SmallHidden(bar, later);
    SmallLaid(bar, later);
    LaidPortable([bar, later], [bar, later]);
    var settings := UnsettledFails(List([bar, later]), "barConfigs");
  }
}
