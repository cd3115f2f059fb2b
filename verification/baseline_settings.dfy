/** The projection of a user's settings onto the repository's defaults. */
module BaselineSettings {
  datatype Option<+T> = None | Some(value: T)

  datatype Json =
    | Null
    | Bool(flag: bool)
    | Int(number: int)
    | Float(decimal: real)
    | Text(text: string)
    | List(items: seq<Json>)
    | Object(fields: map<string, Json>)

  // ---------------------------------------------------------------- keys

  function Lower(s: string): string {
    seq(|s|, i requires 0 <= i < |s| => if 'A' <= s[i] <= 'Z' then (s[i] as int + 32) as char else s[i])
  }

  predicate Contains(s: string, word: string) {
    |word| <= |s| && (s[..|word|] == word || (s != "" && Contains(s[1..], word)))
  }

  /** Keys that name paths or outputs; they always keep the default. */
  predicate Topological(key: string) {
    exists word <- ["path", "file", "screen", "monitor"] :: Contains(Lower(key), word)
  }

  function Get(value: Json, key: string, otherwise: Json): Json {
    if value.Object? && key in value.fields then value.fields[key] else otherwise
  }

  /** Lists and objects cannot be dictionary keys. */
  predicate Hashable(id: Json) {
    !id.List? && !id.Object?
  }

  /** Equality of dictionary keys: true is 1, false is 0, and 1 is 1.0. */
  function Numeric(id: Json): Option<real> {
    match id
    case Bool(flag) => Some(if flag then 1.0 else 0.0)
    case Int(number) => Some(number as real)
    case Float(decimal) => Some(decimal)
    case _ => None
  }

  predicate SameKey(a: Json, b: Json) {
    a == b || (Numeric(a).Some? && Numeric(a) == Numeric(b))
  }

  predicate SameType(a: Json, b: Json) {
    match a
    case Null => b.Null?
    case Bool(_) => b.Bool?
    case Int(_) => b.Int?
    case Float(_) => b.Float?
    case Text(_) => b.Text?
    case List(_) => b.List?
    case Object(_) => b.Object?
  }

  function Id(bar: Json): Json {
    Get(bar, "id", Null)
  }

  /** The last object of the list under that identifier, or `otherwise`. */
  function Bar(items: seq<Json>, id: Json, otherwise: Json): Json {
    if items == [] then otherwise
    else
      var last := items[|items| - 1];
      if last.Object? && SameKey(Id(last), id) then last else Bar(items[..|items| - 1], id, otherwise)
  }

  // ---------------------------------------------------------------- the projection

  /** `None` stands for an error raised on the way. */
  function Portable(value: Json, default: Json, key: string): Option<Json>
    decreases default
  {
    if Topological(key) then Some(default)
    else if default.Object? then
      if exists k <- default.fields :: Portable(Get(value, k, default.fields[k]), default.fields[k], k).None? then None
      else Some(Object(map k | k in default.fields ::
                         Portable(Get(value, k, default.fields[k]), default.fields[k], k).value))
    else if default.List? then
      if key == "barConfigs" && value.List? then
        if exists v <- value.items :: v.Object? && !Hashable(Id(v)) then None
        else if (exists d <- default.items ::
                   !d.Object? || !Hashable(Id(d)) || Portable(Bar(value.items, Id(d), d), d, "").None?)
        then None
        else Some(List(seq(|default.items|, i requires 0 <= i < |default.items| =>
                             var d := default.items[i];
                             assert d in default.items;
                             Portable(Bar(value.items, Id(d), d), d, "").value)))
      else Some(default)
    else if !SameType(value, default) then Some(default)
    else if value.Text? && ('/' in value.text || '\\' in value.text || '\n' in value.text) then Some(default)
    else Some(value)
  }

  // ---------------------------------------------------------------- identifiers of bars

  ghost predicate DistinctIds(bars: seq<Json>) {
    forall i, j | 0 <= i < j < |bars| :: !SameKey(Id(bars[i]), Id(bars[j]))
  }

  /** Wherever the defaults list bars, these are objects with distinct usable identifiers. */
  ghost predicate Keyed(default: Json, key: string)
    decreases default
  {
    Topological(key) ||
    match default
    case Object(fields) => forall k <- fields :: Keyed(fields[k], k)
    case List(items) =>
      key == "barConfigs" ==>
        && (forall d <- items :: d.Object? && Hashable(Id(d)) && Keyed(d, ""))
        && DistinctIds(items)
    case _ => true
  }

  lemma {:induction false} BarFound(bars: seq<Json>, j: nat, otherwise: Json)
    requires j < |bars| && (forall b <- bars :: b.Object?) && DistinctIds(bars)
    ensures Bar(bars, Id(bars[j]), otherwise) == bars[j]
  {
    var front, last := bars[..|bars| - 1], bars[|bars| - 1];
    assert last in bars && forall b <- front :: b in bars;
    if j < |front| {
      assert !SameKey(Id(bars[j]), Id(last));
      BarFound(front, j, otherwise);
    }
  }

  lemma {:induction false} BarMatches(bars: seq<Json>, id: Json, otherwise: Json)
    ensures Bar(bars, id, otherwise) == otherwise
      || (Bar(bars, id, otherwise).Object? && SameKey(Id(Bar(bars, id, otherwise)), id))
  {
    if bars != [] {
      BarMatches(bars[..|bars| - 1], id, otherwise);
    }
  }

  lemma {:induction false} WithoutLetter(s: string, word: string, k: nat)
    requires k < |word| && word[k] !in s
    ensures !Contains(s, word)
  {
    if |word| <= |s| {
      assert s[..|word|][k] == s[k];
      WithoutLetter(s[1..], word, k);
    }
  }

  lemma Shorter(s: string, word: string)
    requires |s| < |word|
    ensures !Contains(s, word)
  {
  }

  lemma TopologicalIs(key: string)
    ensures Topological(key)
      <==> (var s := Lower(key); Contains(s, "path") || Contains(s, "file") || Contains(s, "screen") || Contains(s, "monitor"))
  {
    hide Contains, Lower;
    var words := ["path", "file", "screen", "monitor"];
    assert words[0] in words && words[1] in words && words[2] in words && words[3] in words;
  }

  lemma LowerIs(key: string, s: string)
    requires |key| == |s|
    requires forall i | 0 <= i < |s| :: s[i] == if 'A' <= key[i] <= 'Z' then (key[i] as int + 32) as char else key[i]
    ensures Lower(key) == s
  {
  }

  lemma PlainKey(key: string)
    requires key in ["", "id", "name", "barConfigs"]
    ensures !Topological(key)
  {
    TopologicalIs(key);
    hide Contains, Topological;
    if key == "barConfigs" {
      LowerIs(key, "barconfigs");
      hide *;
      WithoutLetter("barconfigs", "path", 0);
      WithoutLetter("barconfigs", "file", 2);
      WithoutLetter("barconfigs", "screen", 3);
      WithoutLetter("barconfigs", "monitor", 0);
    } else if key == "name" {
      LowerIs(key, "name");
      hide *;
      WithoutLetter("name", "path", 0);
      WithoutLetter("name", "file", 0);
      WithoutLetter("name", "screen", 0);
      WithoutLetter("name", "monitor", 1);
    } else {
      var s := Lower(key);
      assert |s| < 4;
      hide *;
      Shorter(s, "path");
      Shorter(s, "file");
      Shorter(s, "screen");
      Shorter(s, "monitor");
    }
  }

  lemma PlainKeys()
    ensures !Topological("") && !Topological("id") && !Topological("barConfigs")
  {
    PlainKey("");
    PlainKey("id");
    PlainKey("barConfigs");
  }

  lemma ScalarKept(value: Json, default: Json, key: string)
    requires !Topological(key) && !default.Object? && !default.List? && SameKey(value, default)
    ensures Portable(value, default, key) == Some(default)
  {
    hide Topological;
  }

  lemma ObjectPortable(value: Json, default: Json, key: string)
    requires !Topological(key) && default.Object?
    ensures Portable(value, default, key).Some? ==>
      var r := Portable(value, default, key).value;
      && r.Object? && r.fields.Keys == default.fields.Keys
      && forall k <- default.fields ::
           Portable(Get(value, k, default.fields[k]), default.fields[k], k) == Some(r.fields[k])
    ensures (forall k <- default.fields :: Portable(Get(value, k, default.fields[k]), default.fields[k], k).Some?)
      ==> Portable(value, default, key).Some?
  {
    hide Topological, Get;
  }

  /** The identifier of a bar is that of its default, whichever bar was laid over it. */
  lemma IdKept(value: Json, default: Json)
    requires default.Object? && Hashable(Id(default)) && Portable(value, default, "").Some?
    requires value == default || (value.Object? && SameKey(Id(value), Id(default)))
    ensures Portable(value, default, "").value.Object? && Id(Portable(value, default, "").value) == Id(default)
  {
    PlainKeys();
    hide Topological, Portable, SameKey, Hashable;
    ObjectPortable(value, default, "");
    if "id" in default.fields {
      assert SameKey(Get(value, "id", Id(default)), Id(default)) by {
        SameKeySelf(Id(default));
      }
      HashableScalar(Id(default));
      ScalarKept(Get(value, "id", Id(default)), Id(default), "id");
    }
  }

  lemma HashableScalar(id: Json)
    requires Hashable(id)
    ensures !id.Object? && !id.List?
  {
  }

  lemma SameKeySelf(id: Json)
    ensures SameKey(id, id)
  {
  }

  // ---------------------------------------------------------------- lists of bars

  /** What the projection of a list of bars is, bar by bar. */
  lemma BarsPortable(value: Json, bars: seq<Json>)
    requires value.List? && Portable(value, List(bars), "barConfigs").Some?
    ensures (forall d <- bars :: d.Object? && Hashable(Id(d)))
    ensures Portable(value, List(bars), "barConfigs").value.List?
    ensures (var r := Portable(value, List(bars), "barConfigs").value.items;
             && |r| == |bars|
             && forall i | 0 <= i < |bars| :: Portable(Bar(value.items, Id(bars[i]), bars[i]), bars[i], "") == Some(r[i]))
  {
    PlainKeys();
    hide Topological, Hashable, Bar;
    var r := Portable(value, List(bars), "barConfigs").value.items;
    forall i | 0 <= i < |bars|
      ensures Portable(Bar(value.items, Id(bars[i]), bars[i]), bars[i], "") == Some(r[i])
    {
      assert bars[i] in bars;
    }
  }

  lemma BarsAccepted(value: Json, bars: seq<Json>, r: seq<Json>)
    requires value.List? && |r| == |bars|
    requires forall v <- value.items :: v.Object? ==> Hashable(Id(v))
    requires forall d <- bars :: d.Object? && Hashable(Id(d))
    requires forall i | 0 <= i < |bars| :: Portable(Bar(value.items, Id(bars[i]), bars[i]), bars[i], "") == Some(r[i])
    ensures Portable(value, List(bars), "barConfigs") == Some(List(r))
  {
    PlainKeys();
    hide Topological, Hashable, Bar;
    forall d | d in bars ensures Portable(Bar(value.items, Id(d), d), d, "").Some? {
      var i :| 0 <= i < |bars| && bars[i] == d;
    }
    var result := Portable(value, List(bars), "barConfigs");
    assert result.Some? && result.value.List? && |result.value.items| == |r|;
    assert forall i | 0 <= i < |r| :: result.value.items[i] == r[i];
    assert result.value.items == r;
  }

  // ---------------------------------------------------------------- idempotence

  /** Well-keyed defaults are their own projection. */
  lemma {:induction false} DefaultFixed(default: Json, key: string)
    requires Keyed(default, key)
    ensures Portable(default, default, key) == Some(default)
    decreases default
  {
    if !Topological(key) {
      if default.Object? {
        forall k | k in default.fields
          ensures Portable(Get(default, k, default.fields[k]), default.fields[k], k) == Some(default.fields[k])
        {
          DefaultFixed(default.fields[k], k);
        }
        hide Portable, Topological, Keyed;
        ObjectPortable(default, default, key);
        assert Portable(default, default, key).value.fields == default.fields;
      } else if default.List? && key == "barConfigs" {
        var bars := default.items;
        forall i | 0 <= i < |bars|
          ensures Portable(Bar(bars, Id(bars[i]), bars[i]), bars[i], "") == Some(bars[i])
        {
          assert bars[i] in bars;
          BarFound(bars, i, bars[i]);
          DefaultFixed(bars[i], "");
        }
        hide Portable, Bar, SameKey, Topological;
        BarsAccepted(default, bars, bars);
      }
    }
  }

  /** The second projection of a list of bars meets each bar again under its own identifier. */
  lemma BarsAgain(bars: seq<Json>, r: seq<Json>)
    requires |r| == |bars| && DistinctIds(bars)
    requires forall d <- bars :: d.Object? && Hashable(Id(d))
    requires forall i | 0 <= i < |bars| :: r[i].Object? && Id(r[i]) == Id(bars[i])
    requires forall i | 0 <= i < |bars| :: Portable(r[i], bars[i], "") == Some(r[i])
    ensures Portable(List(r), List(bars), "barConfigs") == Some(List(r))
  {
    hide Portable, SameKey, Hashable, Bar, Id;
    forall b | b in r ensures b.Object? && Hashable(Id(b)) {
      var i :| 0 <= i < |r| && r[i] == b;
      assert bars[i] in bars;
    }
    assert DistinctIds(r);
    forall i | 0 <= i < |bars|
      ensures Portable(Bar(r, Id(bars[i]), bars[i]), bars[i], "") == Some(r[i])
    {
      BarFound(r, i, bars[i]);
    }
    BarsAccepted(List(r), bars, r);
  }

  /** Projecting twice is projecting once, for every value, when the defaults' bars have
      distinct identifiers. */
  lemma {:induction false} Idempotent(value: Json, default: Json, key: string)
    requires Keyed(default, key) && Portable(value, default, key).Some?
    ensures Portable(Portable(value, default, key).value, default, key) == Portable(value, default, key)
    decreases default
  {
    var r := Portable(value, default, key).value;
    if r == default {
      DefaultFixed(default, key);
    } else if default.Object? {
      ObjectPortable(value, default, key);
      forall k | k in default.fields
        ensures Portable(Get(r, k, default.fields[k]), default.fields[k], k) == Some(r.fields[k])
      {
        Idempotent(Get(value, k, default.fields[k]), default.fields[k], k);
      }
      hide Portable, Keyed;
      NotTopological(value, default, key);
      ObjectPortable(r, default, key);
      assert Portable(r, default, key).value.fields == r.fields;
    } else if default.List? {
      NotTopological(value, default, key);
      var bars := default.items;
      BarsPortable(value, bars);
      forall i | 0 <= i < |bars|
        ensures r.items[i].Object? && Id(r.items[i]) == Id(bars[i])
        ensures Portable(r.items[i], bars[i], "") == Some(r.items[i])
      {
        assert bars[i] in bars;
        var laid := Bar(value.items, Id(bars[i]), bars[i]);
        BarMatches(value.items, Id(bars[i]), bars[i]);
        Idempotent(laid, bars[i], "");
        IdKept(laid, bars[i]);
      }
      hide Portable, Bar, SameKey, Hashable;
      BarsAgain(bars, r.items);
    }
  }

  lemma NotTopological(value: Json, default: Json, key: string)
    requires Portable(value, default, key).Some? && Portable(value, default, key).value != default
    ensures !Topological(key)
    ensures default.List? ==> key == "barConfigs" && value.List?
  {
    hide Topological;
  }

  // ---------------------------------------------------------------- capture and stage

  /** What a capture records of the user's settings. */
  function Captured(settings: Json, policy: Json): Option<Json> {
    Portable(settings, policy, "")
  }

  /** The settings test of a staging run. */
  predicate Stageable(settings: Json, policy: Json) {
    Portable(settings, policy, "") == Some(settings)
  }

  /** Whatever a capture writes passes the test of a staging run under the same policy. */
  lemma CapturedIsStageable(settings: Json, policy: Json)
    requires Keyed(policy, "") && Captured(settings, policy).Some?
    ensures Stageable(Captured(settings, policy).value, policy)
  {
    Idempotent(settings, policy, "");
  }

  /** Defaults whose bars are not their own projection cannot be staged, although a capture
      records just them for a user whose bar setting is not a list. */
  lemma UnfixedBarsFail(bars: seq<Json>)
    requires Portable(List(bars), List(bars), "barConfigs") != Some(List(bars))
    ensures (var policy := Object(map["barConfigs" := List(bars)]);
             && Captured(Object(map["barConfigs" := Null]), policy) == Some(policy)
             && !Stageable(policy, policy))
  {
    var policy, settings := Object(map["barConfigs" := List(bars)]), Object(map["barConfigs" := Null]);
    PlainKeys();
    hide Topological, Bar;
    assert Portable(Null, List(bars), "barConfigs") == Some(List(bars));
    ObjectPortable(settings, policy, "");
    ObjectPortable(policy, policy, "");
    hide Portable, Topological;
    assert settings.fields["barConfigs"] == Null && policy.fields.Keys == {"barConfigs"};
    assert Get(settings, "barConfigs", List(bars)) == Null;
    assert Get(policy, "barConfigs", List(bars)) == List(bars);
    assert forall k <- policy.fields :: k == "barConfigs";
    assert Portable(settings, policy, "").Some?;
    assert Portable(settings, policy, "").value.fields == policy.fields;
  }

  lemma LetterKept()
    ensures Portable(Text("b"), Text("a"), "name") == Some(Text("b"))
    ensures Text("b") != Text("a")
  {
    assert "b"[0] != "a"[0];
    PlainKey("name");
    hide Topological;
    assert '/' !in "b" && '\\' !in "b" && '\n' !in "b";
  }

  /** Two bars under one identifier, one written 1 and the other true, are such defaults. */
  lemma DuplicateIdsFail()
    ensures (var bars := [Object(map["id" := Int(1), "name" := Text("a")]),
                          Object(map["id" := Bool(true), "name" := Text("b")])];
             && !DistinctIds(bars)
             && Portable(List(bars), List(bars), "barConfigs") != Some(List(bars)))
  {
    var one, other := Object(map["id" := Int(1), "name" := Text("a")]), Object(map["id" := Bool(true), "name" := Text("b")]);
    var bars := [one, other];
    assert SameKey(Id(bars[0]), Id(bars[1]));
    assert Bar(bars, Id(bars[0]), bars[0]) == other;
    PlainKeys();
    PlainKey("name");
    LetterKept();
    hide Topological, Bar;
    assert "name" in one.fields && Get(other, "name", one.fields["name"]) == Text("b");
    if Portable(List(bars), List(bars), "barConfigs") == Some(List(bars)) {
      BarsPortable(List(bars), bars);
      assert Portable(other, one, "") == Some(one);
      ObjectPortable(other, one, "");
    }
  }
}
