/** Which candidate source lock is accepted against the trusted one, and what a chain of
    accepted locks can and cannot change. */
module CandidateLock {
  datatype Option<+T> = None | Some(value: T)

  datatype Json =
    | Null
    | Bool(flag: bool)
    | Number(number: int)
    | Text(text: string)
    | List(items: seq<Json>)
    | Object(fields: map<string, Json>)

  type Lock = map<string, Json>

  const FAMILY := 4

  const MUTABLE: set<string> :=
    {"version", "tag", "commit", "url", "archive", "sha256", "cargoLockSha256", "adaptedInputs",
     "fontsWorkflowSource", "noticeSha256", "fontsCommit", "languageData", "resourceManifestSha256"}

  /** A field of an object; `Null` when there is none. */
  function Get(value: Json, key: string): Json {
    if value.Object? && key in value.fields then value.fields[key] else Null
  }

  predicate Truthy(value: Json) {
    match value
    case Null => false
    case Bool(flag) => flag
    case Number(number) => number != 0
    case Text(text) => text != ""
    case List(items) => items != []
    case Object(fields) => fields != map[]
  }

  predicate IsHex(value: Json, length: nat) {
    value.Text? && |value.text| == length && forall c <- value.text :: '0' <= c <= '9' || 'a' <= c <= 'f'
  }

  // ---------------------------------------------------------------- stable versions

  predicate Digits(s: string) {
    forall c <- s :: '0' <= c <= '9'
  }

  /** A decimal without leading zeros, of at most nine digits. */
  predicate Component(s: string) {
    s == "0" || (1 <= |s| <= 9 && Digits(s) && s[0] != '0')
  }

  function Value(s: string): int {
    if s == "" then 0 else Value(s[..|s| - 1]) * 10 + (s[|s| - 1] as int - '0' as int)
  }

  function Split(s: string): seq<string> {
    if s == "" then [""]
    else
      var rest := Split(s[1..]);
      if s[0] == '.' then [""] + rest
      else if rest == [] then [[s[0]]] else [[s[0]] + rest[0]] + rest[1..]
  }

  predicate Stable(version: string) {
    |Split(version)| == 3 && forall p <- Split(version) :: Component(p)
  }

  datatype Version = Version(major: int, minor: int, patch: int)

  function Parse(version: string): Version
    requires Stable(version)
  {
    var p := Split(version);
    Version(Value(p[0]), Value(p[1]), Value(p[2]))
  }

  predicate Below(a: Version, b: Version) {
    a.major < b.major || (a.major == b.major && (a.minor < b.minor || (a.minor == b.minor && a.patch < b.patch)))
  }

  lemma {:induction false} ValueSigns(s: string)
    requires Digits(s)
    ensures Value(s) >= 0
    ensures s != "" && s[0] != '0' ==> Value(s) > 0
  {
    if s != "" {
      var front, last := s[..|s| - 1], s[|s| - 1];
      assert forall c <- front :: c in s;
      assert last in s;
      ValueSigns(front);
    }
  }

  /** Digits without a leading zero are determined by the number they stand for. */
  lemma {:induction false} ValueInjective(a: string, b: string)
    requires Digits(a) && Digits(b)
    requires (a != "" ==> a[0] != '0') && (b != "" ==> b[0] != '0')
    requires Value(a) == Value(b)
    ensures a == b
    decreases |a|
  {
    ValueSigns(a);
    ValueSigns(b);
    if a != "" && b != "" {
      var fa, fb, la, lb := a[..|a| - 1], b[..|b| - 1], a[|a| - 1], b[|b| - 1];
      assert a == fa + [la] && b == fb + [lb];
      assert la in a && lb in b;
      assert forall c <- fa :: c in a;
      assert forall c <- fb :: c in b;
      assert Value(fa) == Value(fb) && la == lb;
      ValueInjective(fa, fb);
    }
  }

  lemma ComponentInjective(a: string, b: string)
    requires Component(a) && Component(b) && Value(a) == Value(b)
    ensures a == b
  {
    assert Value("0") == 0;
    if a != "0" {
      ValueSigns(a);
    }
    if b != "0" {
      ValueSigns(b);
    }
    if a != "0" && b != "0" {
      ValueInjective(a, b);
    }
  }

  lemma {:induction false} SplitInjective(a: string, b: string)
    requires Split(a) == Split(b)
    ensures a == b
  {
    SplitSome(a);
    SplitSome(b);
    if a != "" && b != "" {
      SplitSome(a[1..]);
      SplitSome(b[1..]);
      var ra, rb := Split(a[1..]), Split(b[1..]);
      assert Split(a)[0] == (if a[0] == '.' then "" else [a[0]] + ra[0]);
      assert Split(b)[0] == (if b[0] == '.' then "" else [b[0]] + rb[0]);
      assert Split(a)[0] == Split(b)[0];
      assert a[0] != '.' ==> Split(a)[0][0] == a[0];
      assert b[0] != '.' ==> Split(b)[0][0] == b[0];
      assert a[0] == b[0];
      assert ra == rb by {
        if a[0] == '.' {
          assert Split(a)[1..] == ra && Split(b)[1..] == rb;
        } else {
          assert Split(a)[0][1..] == ra[0] && Split(b)[0][1..] == rb[0];
          assert Split(a)[1..] == ra[1..] && Split(b)[1..] == rb[1..];
          assert ra == [ra[0]] + ra[1..] && rb == [rb[0]] + rb[1..];
        }
      }
      SplitInjective(a[1..], b[1..]);
      assert a == [a[0]] + a[1..] && b == [b[0]] + b[1..];
    } else {
      SplitLong(a);
      SplitLong(b);
    }
  }

  lemma SplitSome(s: string)
    ensures Split(s) != []
  {
  }

  lemma SplitLong(s: string)
    ensures s != "" ==> Split(s) != [""]
  {
    if s != "" {
      SplitSome(s[1..]);
    }
  }

  /** Two stable versions of equal numbers are the same text. */
  lemma ParseInjective(a: string, b: string)
    requires Stable(a) && Stable(b) && Parse(a) == Parse(b)
    ensures a == b
  {
    var p, q := Split(a), Split(b);
    forall i | 0 <= i < 3 ensures p[i] == q[i] {
      assert p[i] in p && q[i] in q;
      ComponentInjective(p[i], q[i]);
    }
    assert p == q;
    SplitInjective(a, b);
  }

  // ---------------------------------------------------------------- acceptance

  function Url(repository: string, commit: string): string {
    "https://codeload.github.com/storytold/" + repository + "/tar.gz/" + commit
  }

  /** A pinned resource record of `repository`. */
  predicate Record(value: Json, repository: string) {
    && value.Object? && value.fields.Keys == {"commit", "file", "url", "sha256"}
    && IsHex(Get(value, "commit"), 40) && IsHex(Get(value, "sha256"), 64)
    && Get(value, "file") == Text(repository + "-" + Get(value, "commit").text + ".tar.gz")
    && Get(value, "url") == Text(Url(repository, Get(value, "commit").text))
  }

  function Fonts(lock: Lock): seq<Json> {
    if "fonts" in lock && lock["fonts"].List? then lock["fonts"].items else []
  }

  function Apps(lock: Lock): seq<Json> {
    if "applications" in lock && lock["applications"].List? then lock["applications"].items else []
  }

  /** The first record of a commit. */
  function FontOf(fonts: seq<Json>, commit: Json): Option<Json> {
    if fonts == [] then None
    else if Get(fonts[0], "commit") == commit then Some(fonts[0]) else FontOf(fonts[1..], commit)
  }

  predicate FontsAccepted(base: seq<Json>, fonts: seq<Json>) {
    && (forall r <- fonts :: Record(r, "craft-fonts"))
    && (forall r <- fonts :: var before := FontOf(base, Get(r, "commit")); before.None? || before.value == r)
    && (forall i, j | 0 <= i < j < |fonts| :: Get(fonts[i], "commit") != Get(fonts[j], "commit"))
  }

  /** The reviewed part is untouched and the version does not fall; the inputs of a version stay. */
  predicate Reviewed(prior: Json, next: Json) {
    && prior.Object? && next.Object? && prior.fields.Keys == next.fields.Keys
    && (forall k <- prior.fields :: k !in MUTABLE ==> prior.fields[k] == next.fields[k])
    && Get(next, "version").Text? && Stable(Get(next, "version").text)
    && Get(prior, "version").Text? && Stable(Get(prior, "version").text)
    && !Below(Parse(Get(next, "version").text), Parse(Get(prior, "version").text))
    && (Get(next, "version") == Get(prior, "version") ==> forall k <- MUTABLE :: Get(next, k) == Get(prior, k))
  }

  /** Every input is pinned to the commit of the release. */
  predicate Provenance(prior: Json, next: Json) {
    && IsHex(Get(next, "commit"), 40) && Get(prior, "upstream").Text? && Get(next, "version").Text?
    && Get(next, "tag") == Text("v" + Get(next, "version").text)
    && Get(next, "url") == Text(Url(Get(prior, "upstream").text, Get(next, "commit").text))
    && Get(next, "archive") == Text(Get(prior, "upstream").text + "-" + Get(next, "commit").text + ".tar.gz")
    && Get(next, "adaptedInputs").Object? && Get(prior, "adaptedInputs").Object?
    && Get(next, "adaptedInputs").fields.Keys == Get(prior, "adaptedInputs").fields.Keys
    && (forall k <- Get(next, "adaptedInputs").fields :: IsHex(Get(next, "adaptedInputs").fields[k], 64))
    && IsHex(Get(next, "sha256"), 64) && IsHex(Get(next, "cargoLockSha256"), 64) && IsHex(Get(next, "noticeSha256"), 64)
    && (Get(next, "version") != Get(prior, "version") && Truthy(Get(next, "fontsWorkflowSource")) ==>
          && Get(Get(next, "fontsWorkflowSource"), "commit") == Get(next, "commit")
          && IsHex(Get(Get(next, "fontsWorkflowSource"), "sha256"), 64))
  }

  predicate Resources(prior: Json, next: Json, fonts: seq<Json>) {
    && (Truthy(Get(next, "languageData")) ==>
          && Record(Get(next, "languageData"), "craft-i18n")
          && (var before := Get(prior, "languageData");
              (Truthy(before) && Get(before, "commit") == Get(Get(next, "languageData"), "commit"))
              ==> before == Get(next, "languageData")))
    && Get(next, "fontsCommit").Text?
    && (exists r :: r in fonts && Get(r, "commit") == Get(next, "fontsCommit"))
    && (Truthy(Get(next, "resourceManifestSha256")) ==> IsHex(Get(next, "resourceManifestSha256"), 64))
  }

  /** Applications are compared pair by pair, as far as both lists go. */
  predicate AppsAccepted(prior: seq<Json>, next: seq<Json>, fonts: seq<Json>) {
    && |next| == FAMILY
    && forall i | 0 <= i < |prior| && i < |next| ::
         Reviewed(prior[i], next[i]) && Provenance(prior[i], next[i]) && Resources(prior[i], next[i], fonts)
  }

  predicate Recipe(base: Lock, value: Lock) {
    && base.Keys == value.Keys
    && "rpmRelease" in value && base["rpmRelease"].Number? && value["rpmRelease"].Number?
    && value["rpmRelease"].number >= base["rpmRelease"].number
    && (forall k <- base :: k !in {"applications", "rpmRelease", "fonts"} ==> base[k] == value[k])
    && "applications" in value && value["applications"].List?
    && "fonts" in value && value["fonts"].List?
  }

  /** The candidate `value` is accepted against the trusted lock `base`. */
  predicate Accepted(base: Lock, value: Lock) {
    && Recipe(base, value)
    && FontsAccepted(Fonts(base), Fonts(value))
    && AppsAccepted(Apps(base), Apps(value), Fonts(value))
  }

  // ---------------------------------------------------------------- chains

  /** Each lock was accepted against the one before it, from a start that lists the whole family. */
  ghost predicate Chain(locks: seq<Lock>) {
    && locks != [] && |Apps(locks[0])| == FAMILY
    && forall i | 0 <= i < |locks| - 1 :: Accepted(locks[i], locks[i + 1])
  }

  lemma ChainFamily(locks: seq<Lock>, i: nat)
    requires Chain(locks) && i < |locks|
    ensures |Apps(locks[i])| == FAMILY
  {
    if i > 0 {
      assert Accepted(locks[i - 1], locks[i - 1 + 1]);
    }
  }

  ghost predicate HasVersion(lock: Lock, a: nat) {
    a < |Apps(lock)| && Get(Apps(lock)[a], "version").Text? && Stable(Get(Apps(lock)[a], "version").text)
  }

  function VersionOf(lock: Lock, a: nat): Version
    requires HasVersion(lock, a)
  {
    Parse(Get(Apps(lock)[a], "version").text)
  }

  lemma NotBelowTransitive(a: Version, b: Version, c: Version)
    requires !Below(b, a) && !Below(c, b)
    ensures !Below(c, a)
    ensures a == c ==> a == b
  {
  }

  /** Accepting a lock with the same version leaves the whole application record as it was. */
  lemma SameVersionStep(prior: Json, next: Json)
    requires Reviewed(prior, next) && Get(next, "version") == Get(prior, "version")
    ensures prior == next
  {
    hide Stable, Parse, Below;
    forall k | k in prior.fields ensures prior.fields[k] == next.fields[k] {
      if k in MUTABLE {
        assert Get(next, k) == Get(prior, k);
      }
    }
    assert prior.fields == next.fields;
  }

  lemma PairAccepted(locks: seq<Lock>, i: nat, a: nat)
    requires Chain(locks) && i + 1 < |locks| && a < FAMILY
    ensures |Apps(locks[i])| == |Apps(locks[i + 1])| == FAMILY
    ensures Reviewed(Apps(locks[i])[a], Apps(locks[i + 1])[a])
    ensures HasVersion(locks[i], a) && HasVersion(locks[i + 1], a)
    ensures !Below(VersionOf(locks[i + 1], a), VersionOf(locks[i], a))
  {
    ChainFamily(locks, i);
    ChainFamily(locks, i + 1);
    assert Accepted(locks[i], locks[i + 1]);
    hide Stable, Parse, Below, Provenance, Resources, FontsAccepted, Recipe;
  }

  /** Along a chain versions never fall, and equal versions at any two points mean the same
      application record, pinned inputs included. */
  lemma {:induction false} VersionFixesInputs(locks: seq<Lock>, i: nat, j: nat, a: nat)
    requires Chain(locks) && i < j < |locks| && a < FAMILY
    ensures HasVersion(locks[i], a) && HasVersion(locks[j], a)
    ensures !Below(VersionOf(locks[j], a), VersionOf(locks[i], a))
    ensures VersionOf(locks[i], a) == VersionOf(locks[j], a) ==> Apps(locks[i])[a] == Apps(locks[j])[a]
    decreases j - i
  {
    hide Chain, Reviewed, Below, Stable, Parse, Apps;
    PairAccepted(locks, j - 1, a);
    if VersionOf(locks[j - 1], a) == VersionOf(locks[j], a) {
      ParseInjective(Get(Apps(locks[j - 1])[a], "version").text, Get(Apps(locks[j])[a], "version").text);
      SameVersionStep(Apps(locks[j - 1])[a], Apps(locks[j])[a]);
    }
    if i < j - 1 {
      VersionFixesInputs(locks, i, j - 1, a);
      NotBelowTransitive(VersionOf(locks[i], a), VersionOf(locks[j - 1], a), VersionOf(locks[j], a));
    }
  }

  /** What no accepted lock changes: the recipe, and the reviewed part of every application.
      The package release never falls. */
  lemma {:induction false} RecipeKept(locks: seq<Lock>, i: nat, j: nat)
    requires Chain(locks) && i < j < |locks|
    ensures locks[i].Keys == locks[j].Keys
    ensures forall k <- locks[i] :: k !in {"applications", "rpmRelease", "fonts"} ==> locks[i][k] == locks[j][k]
    ensures "rpmRelease" in locks[i] && locks[i]["rpmRelease"].Number? && locks[j]["rpmRelease"].Number?
    ensures locks[i]["rpmRelease"].number <= locks[j]["rpmRelease"].number
    decreases j - i
  {
    assert Accepted(locks[j - 1], locks[j - 1 + 1]);
    hide FontsAccepted, AppsAccepted;
    if i < j - 1 {
      RecipeKept(locks, i, j - 1);
    }
  }

  lemma ReviewedKeeps(prior: Json, next: Json, k: string)
    requires Reviewed(prior, next) && k !in MUTABLE
    ensures Get(prior, k) == Get(next, k)
  {
    hide Stable, Parse, Below;
  }

  lemma {:induction false} IdentityKept(locks: seq<Lock>, i: nat, j: nat, a: nat, k: string)
    requires Chain(locks) && i < j < |locks| && a < FAMILY && k !in MUTABLE
    ensures a < |Apps(locks[i])| && a < |Apps(locks[j])|
    ensures Get(Apps(locks[i])[a], k) == Get(Apps(locks[j])[a], k)
    decreases j - i
  {
    hide *;
    PairAccepted(locks, j - 1, a);
    ReviewedKeeps(Apps(locks[j - 1])[a], Apps(locks[j])[a], k);
    if i < j - 1 {
      IdentityKept(locks, i, j - 1, a, k);
    }
  }

  // ---------------------------------------------------------------- fonts

  lemma {:induction false} FontFound(fonts: seq<Json>, commit: Json)
    ensures FontOf(fonts, commit).Some?
      ==> FontOf(fonts, commit).value in fonts && Get(FontOf(fonts, commit).value, "commit") == commit
    ensures (exists r :: r in fonts && Get(r, "commit") == commit) ==> FontOf(fonts, commit).Some?
  {
    if fonts != [] {
      FontFound(fonts[1..], commit);
      assert fonts == [fonts[0]] + fonts[1..];
    }
  }

  /** The record of a font commit stays what it was as long as the commit stays listed. */
  lemma {:induction false} ListedFontKept(locks: seq<Lock>, i: nat, j: nat, commit: Json)
    requires Chain(locks) && i <= j < |locks|
    requires forall k | i <= k <= j :: FontOf(Fonts(locks[k]), commit).Some?
    ensures FontOf(Fonts(locks[i]), commit) == FontOf(Fonts(locks[j]), commit)
    decreases j - i
  {
    hide Fonts;
    if i < j {
      ListedFontKept(locks, i, j - 1, commit);
      assert Accepted(locks[j - 1], locks[j - 1 + 1]);
      FontFound(Fonts(locks[j]), commit);
    }
  }

  function Listing(lock: Lock, font: Json): Lock {
    lock["fonts" := List(Fonts(lock) + [font])]
  }

  function FontRecord(commit: string, sha256: string): Json {
    Object(map["commit" := Text(commit), "file" := Text("craft-fonts" + "-" + commit + ".tar.gz"),
               "url" := Text(Url("craft-fonts", commit)), "sha256" := Text(sha256)])
  }

  lemma ReviewedAgain(prior: Json, next: Json)
    requires Reviewed(prior, next)
    ensures Reviewed(next, next)
  {
    hide Stable, Parse;
  }

  lemma ProvenanceAgain(prior: Json, next: Json)
    requires Reviewed(prior, next) && Provenance(prior, next)
    ensures Provenance(next, next)
  {
    hide Stable, Parse, IsHex, Below;
    assert "upstream" !in MUTABLE && Get(prior, "upstream") == Get(next, "upstream");
  }

  lemma ResourcesAgain(prior: Json, next: Json, fonts: seq<Json>)
    requires Resources(prior, next, fonts)
    ensures Resources(next, next, fonts)
  {
    hide IsHex, Record;
  }

  lemma FontsAgain(base: seq<Json>, fonts: seq<Json>)
    requires FontsAccepted(base, fonts)
    ensures FontsAccepted(fonts, fonts)
  {
    hide Record;
    forall r | r in fonts ensures FontOf(fonts, Get(r, "commit")) == Some(r) {
      FontFound(fonts, Get(r, "commit"));
    }
  }

  /** The applications from that place on stand the comparison with themselves. */
  predicate SelfAccepted(value: Lock, from: nat)
    requires |Apps(value)| == FAMILY
  {
    forall i | from <= i < FAMILY ::
      && Reviewed(Apps(value)[i], Apps(value)[i]) && Provenance(Apps(value)[i], Apps(value)[i])
      && Resources(Apps(value)[i], Apps(value)[i], Fonts(value))
  }

  /** An accepted lock is accepted against itself exactly if its applications beyond those of the
      trusted lock, which were compared with nothing, are; so always if that one lists all four. */
  lemma AcceptedAgain(base: Lock, value: Lock)
    requires Accepted(base, value)
    ensures Accepted(value, value) <==> SelfAccepted(value, |Apps(base)|)
    ensures |Apps(base)| >= FAMILY ==> Accepted(value, value)
  {
    hide Reviewed, Provenance, Resources, FontsAccepted;
    FontsAgain(Fonts(base), Fonts(value));
    forall i | 0 <= i < FAMILY && i < |Apps(base)|
      ensures Reviewed(Apps(value)[i], Apps(value)[i]) && Provenance(Apps(value)[i], Apps(value)[i])
        && Resources(Apps(value)[i], Apps(value)[i], Fonts(value))
    {
      ReviewedAgain(Apps(base)[i], Apps(value)[i]);
      ProvenanceAgain(Apps(base)[i], Apps(value)[i]);
      ResourcesAgain(Apps(base)[i], Apps(value)[i], Fonts(value));
    }
  }

  lemma FontRecordValid(commit: string, sha256: string)
    requires IsHex(Text(commit), 40) && IsHex(Text(sha256), 64)
    ensures Record(FontRecord(commit, sha256), "craft-fonts")
    ensures Get(FontRecord(commit, sha256), "commit") == Text(commit)
    ensures Get(FontRecord(commit, sha256), "sha256") == Text(sha256)
  {
  }

  lemma {:induction false} FontOfFront(fonts: seq<Json>, font: Json, commit: Json)
    requires FontOf(fonts, commit).Some? || Get(font, "commit") != commit
    ensures FontOf(fonts + [font], commit) == FontOf(fonts, commit)
  {
    if fonts != [] && Get(fonts[0], "commit") != commit {
      assert (fonts + [font])[1..] == fonts[1..] + [font];
      FontOfFront(fonts[1..], font, commit);
    }
  }

  lemma ResourcesMore(prior: Json, next: Json, fonts: seq<Json>, font: Json)
    requires Resources(prior, next, fonts)
    ensures Resources(prior, next, fonts + [font])
  {
    hide IsHex, Record;
    var r :| r in fonts && Get(r, "commit") == Get(next, "fontsCommit");
    assert r in fonts + [font];
  }

  /** A font the list lacks may be added, and what was added may go. */
  lemma FontsMore(fonts: seq<Json>, font: Json)
    requires FontsAccepted(fonts, fonts) && Record(font, "craft-fonts")
    requires FontOf(fonts, Get(font, "commit")).None?
    ensures FontsAccepted(fonts, fonts + [font]) && FontsAccepted(fonts + [font], fonts)
  {
    hide Record;
    FontFound(fonts, Get(font, "commit"));
    forall r | r in fonts ensures FontOf(fonts + [font], Get(r, "commit")) == FontOf(fonts, Get(r, "commit")) {
      FontFound(fonts, Get(r, "commit"));
      FontOfFront(fonts, font, Get(r, "commit"));
    }
  }

  lemma ListingParts(lock: Lock, font: Json)
    ensures Fonts(Listing(lock, font)) == Fonts(lock) + [font] && Apps(Listing(lock, font)) == Apps(lock)
    ensures Recipe(lock, lock) ==> Recipe(lock, Listing(lock, font)) && Recipe(Listing(lock, font), lock)
  {
    assert "fonts" in lock ==> Listing(lock, font).Keys == lock.Keys;
  }

  lemma MoreFonts(lock: Lock, font: Json)
    requires Accepted(lock, lock) && Record(font, "craft-fonts") && FontOf(Fonts(lock), Get(font, "commit")).None?
    ensures Accepted(lock, Listing(lock, font)) && Accepted(Listing(lock, font), lock)
  {
    hide Record, Reviewed, Provenance, Resources, Recipe, FontsAccepted, Listing;
    ListingParts(lock, font);
    FontsMore(Fonts(lock), font);
    forall i | 0 <= i < |Apps(lock)| && i < FAMILY
      ensures Resources(Apps(lock)[i], Apps(lock)[i], Fonts(lock) + [font])
    {
      ResourcesMore(Apps(lock)[i], Apps(lock)[i], Fonts(lock), font);
    }
  }

  lemma ThreeChain(a: Lock, b: Lock, c: Lock)
    requires Accepted(a, b) && Accepted(b, c) && |Apps(a)| == FAMILY
    ensures Chain([a, b, c])
  {
    hide Accepted, Apps;
    var locks := [a, b, c];
    forall i | 0 <= i < |locks| - 1 ensures Accepted(locks[i], locks[i + 1]) {
      assert i == 0 || i == 1;
    }
  }

  /** That condition is needed: a commit that leaves the list can come back with other bytes.
      It holds of every accepted lock and every commit the lock does not list. */
  lemma UnlistedFontChanges(lock: Lock, commit: string, before: string, after: string)
    requires Accepted(lock, lock) && |Apps(lock)| == FAMILY && FontOf(Fonts(lock), Text(commit)).None?
    requires IsHex(Text(commit), 40) && IsHex(Text(before), 64) && IsHex(Text(after), 64) && before != after
    ensures (var first, last := Listing(lock, FontRecord(commit, before)), Listing(lock, FontRecord(commit, after));
             && Chain([first, lock, last])
             && FontOf(Fonts(first), Text(commit)) == Some(FontRecord(commit, before))
             && FontOf(Fonts(last), Text(commit)) == Some(FontRecord(commit, after))
             && FontRecord(commit, before) != FontRecord(commit, after))
  {
    FontRecordValid(commit, before);
    FontRecordValid(commit, after);
    hide Accepted, IsHex, Record, FontRecord, Listing;
    var one, other := FontRecord(commit, before), FontRecord(commit, after);
    MoreFonts(lock, one);
    MoreFonts(lock, other);
    ListingParts(lock, one);
    ListingParts(lock, other);
    LastFont(Fonts(lock), one);
    LastFont(Fonts(lock), other);
    ThreeChain(Listing(lock, one), lock, Listing(lock, other));
  }

  lemma {:induction false} LastFont(fonts: seq<Json>, font: Json)
    requires FontOf(fonts, Get(font, "commit")).None?
    ensures FontOf(fonts + [font], Get(font, "commit")) == Some(font)
  {
    if fonts != [] {
      assert (fonts + [font])[1..] == fonts[1..] + [font];
      LastFont(fonts[1..], font);
    }
  }
}
