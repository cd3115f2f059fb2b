/** The file that remembers icon positions for one screen in one set of connected outputs. */
module OutputIdentity {
  import opened Base64Url

  type Name = Bytes
  type Order = (Name, Name) -> bool

  const COLON: Byte := 58

  /** The desktop's case-sensitive string order; only its being a total order matters. */
  ghost predicate TotalOrder(le: Order) {
    && (forall a, b :: le(a, b) || le(b, a))
    && (forall a, b :: le(a, b) && le(b, a) ==> a == b)
    && (forall a, b, c :: le(a, b) && le(b, c) ==> le(a, c))
  }

  // ---------------------------------------------------------------- sorting without duplicates

  function Insert(x: Name, s: seq<Name>, le: Order): seq<Name> {
    if s == [] then [x]
    else if s[0] == x then s
    else if le(x, s[0]) then [x] + s
    else [s[0]] + Insert(x, s[1..], le)
  }

  /** The list of outputs after its duplicates are removed and it is sorted. */
  function Arranged(screens: seq<Name>, le: Order): seq<Name> {
    if screens == [] then [] else Insert(screens[0], Arranged(screens[1..], le), le)
  }

  ghost predicate Below(x: Name, s: seq<Name>, le: Order) {
    forall n <- s :: x != n && le(x, n)
  }

  ghost predicate Ascending(s: seq<Name>, le: Order) {
    s == [] || (Below(s[0], s[1..], le) && Ascending(s[1..], le))
  }

  function Members(s: seq<Name>): set<Name> {
    set n | n in s
  }

  lemma MembersFront(s: seq<Name>)
    requires s != []
    ensures Members(s) == {s[0]} + Members(s[1..])
  {
    assert s == [s[0]] + s[1..];
  }

  lemma {:induction false} InsertMembers(x: Name, s: seq<Name>, le: Order)
    ensures Members(Insert(x, s, le)) == Members(s) + {x}
  {
    if s != [] {
      MembersFront(s);
      if s[0] != x && le(x, s[0]) {
        MembersFront([x] + s);
        assert ([x] + s)[1..] == s;
      } else if s[0] != x {
        InsertMembers(x, s[1..], le);
        var t := [s[0]] + Insert(x, s[1..], le);
        MembersFront(t);
        assert t[1..] == Insert(x, s[1..], le);
      }
    }
  }

  lemma BelowMembers(x: Name, s: seq<Name>, le: Order)
    ensures Below(x, s, le) <==> forall n <- Members(s) :: x != n && le(x, n)
  {
    forall n ensures n in Members(s) <==> n in s {
    }
    hide Members;
  }

  lemma BelowFront(x: Name, s: seq<Name>, le: Order)
    requires TotalOrder(le) && s != [] && x != s[0] && le(x, s[0]) && Below(s[0], s[1..], le)
    ensures Below(x, s, le)
  {
    assert s == [s[0]] + s[1..];
    forall n | n in s ensures x != n && le(x, n) {
      assert n == s[0] || n in s[1..];
    }
  }

  lemma {:induction false} InsertAscends(x: Name, s: seq<Name>, le: Order)
    requires TotalOrder(le) && Ascending(s, le)
    ensures Ascending(Insert(x, s, le), le)
  {
    hide TotalOrder, Below;
    if s != [] && s[0] != x {
      if le(x, s[0]) {
        BelowFront(x, s, le);
        assert ([x] + s)[1..] == s;
      } else {
        InsertAscends(x, s[1..], le);
        var rest := Insert(x, s[1..], le);
        assert le(s[0], x) by {
          Total(s[0], x, le);
        }
        InsertMembers(x, s[1..], le);
        BelowMembers(s[0], s[1..], le);
        BelowMembers(s[0], rest, le);
        assert ([s[0]] + rest)[1..] == rest;
      }
    } else {
      Single(x, le);
    }
  }

  lemma Total(a: Name, b: Name, le: Order)
    requires TotalOrder(le)
    ensures le(a, b) || le(b, a)
    ensures le(a, b) && le(b, a) ==> a == b
  {
  }

  lemma Single(x: Name, le: Order)
    ensures Ascending([x], le)
  {
  }

  lemma {:induction false} ArrangedAscends(screens: seq<Name>, le: Order)
    requires TotalOrder(le)
    ensures Ascending(Arranged(screens, le), le)
    ensures Members(Arranged(screens, le)) == Members(screens)
  {
    if screens != [] {
      ArrangedAscends(screens[1..], le);
      InsertAscends(screens[0], Arranged(screens[1..], le), le);
      InsertMembers(screens[0], Arranged(screens[1..], le), le);
      MembersFront(screens);
    }
  }

  lemma LeastFirst(a: seq<Name>, b: seq<Name>, le: Order)
    requires TotalOrder(le) && Ascending(a, le) && Ascending(b, le)
    requires Members(a) == Members(b) && a != [] && b != []
    ensures a[0] == b[0] && Members(a[1..]) == Members(b[1..])
  {
    hide TotalOrder, Members, Below;
    MembersFront(a);
    MembersFront(b);
    BelowMembers(a[0], a[1..], le);
    BelowMembers(b[0], b[1..], le);
    Total(a[0], b[0], le);
  }

  lemma NoMembers(s: seq<Name>)
    requires Members(s) == {}
    ensures s == []
  {
    if s != [] {
      MembersFront(s);
    }
  }

  /** A set of outputs has one ascending list. */
  lemma {:induction false} AscendingUnique(a: seq<Name>, b: seq<Name>, le: Order)
    requires TotalOrder(le) && Ascending(a, le) && Ascending(b, le) && Members(a) == Members(b)
    ensures a == b
  {
    if a == [] {
      NoMembers(b);
    } else {
      assert a[0] in Members(b);
      LeastFirst(a, b, le);
      AscendingUnique(a[1..], b[1..], le);
      assert a == [a[0]] + a[1..] && b == [b[0]] + b[1..];
    }
  }

  // ---------------------------------------------------------------- length-prefixed names

  function Decimal(n: nat): Bytes {
    if n < 10 then [48 + n] else Decimal(n / 10) + [48 + n % 10]
  }

  function Number(digits: Bytes): int {
    if digits == [] then 0 else Number(digits[..|digits| - 1]) * 10 + digits[|digits| - 1] - 48
  }

  lemma {:induction false} DecimalReads(n: nat)
    ensures Number(Decimal(n)) == n
    ensures COLON !in Decimal(n)
  {
    if n < 10 {
      assert Decimal(n)[..0] == [];
    } else {
      DecimalReads(n / 10);
      assert Decimal(n)[..|Decimal(n)| - 1] == Decimal(n / 10);
    }
  }

  function Tagged(name: Name): Bytes {
    Decimal(|name|) + [COLON] + name
  }

  function Identity(outputs: seq<Name>): Bytes {
    if outputs == [] then [] else Identity(outputs[..|outputs| - 1]) + Tagged(outputs[|outputs| - 1])
  }

  lemma ColonSplits(la: Bytes, lb: Bytes, ta: Bytes, tb: Bytes)
    requires COLON !in la && COLON !in lb
    requires la + ([COLON] + ta) == lb + ([COLON] + tb)
    ensures la == lb && ta == tb
  {
    var all := la + ([COLON] + ta);
    assert all[|la|] == COLON && all[|lb|] == COLON;
    assert all[..|la|] == la && all[..|lb|] == lb;
    forall i | 0 <= i < |la| ensures all[i] != COLON {
      assert all[i] == la[i] && la[i] in la;
    }
    forall i | 0 <= i < |lb| ensures all[i] != COLON {
      assert all[i] == lb[i] && lb[i] in lb;
    }
    assert all[|la| + 1..] == ta && all[|lb| + 1..] == tb;
  }

  lemma LengthSplits(a: Bytes, b: Bytes, restA: Bytes, restB: Bytes)
    requires |a| == |b| && a + restA == b + restB
    ensures a == b && restA == restB
  {
    assert (a + restA)[..|a|] == a && (b + restB)[..|b|] == b;
    assert (a + restA)[|a|..] == restA && (b + restB)[|b|..] == restB;
  }

  lemma TaggedGroups(a: Name, rest: Bytes)
    ensures Tagged(a) + rest == Decimal(|a|) + ([COLON] + (a + rest))
  {
    Regrouped(Decimal(|a|), [COLON], a, rest);
  }

  lemma Regrouped<T>(a: seq<T>, b: seq<T>, c: seq<T>, d: seq<T>)
    ensures a + b + c + d == a + (b + (c + d))
  {
    assert a + b + c == a + (b + c);
    assert b + c + d == b + (c + d);
    assert a + (b + c) + d == a + (b + c + d);
  }

  /** The colon ends the length, and the length ends the name. */
  lemma TaggedSplits(a: Name, b: Name, restA: Bytes, restB: Bytes)
    requires Tagged(a) + restA == Tagged(b) + restB
    ensures a == b && restA == restB
  {
    hide *;
    DecimalReads(|a|);
    DecimalReads(|b|);
    TaggedGroups(a, restA);
    TaggedGroups(b, restB);
    ColonSplits(Decimal(|a|), Decimal(|b|), a + restA, b + restB);
    LengthSplits(a, b, restA, restB);
  }

  lemma IdentityBack(outputs: seq<Name>, last: Name)
    ensures Identity(outputs + [last]) == Identity(outputs) + Tagged(last)
  {
    assert (outputs + [last])[..|outputs|] == outputs;
  }

  lemma {:induction false} IdentityFront(outputs: seq<Name>)
    requires outputs != []
    ensures Identity(outputs) == Tagged(outputs[0]) + Identity(outputs[1..])
  {
    hide *;
    var first, last, rest := outputs[0], outputs[|outputs| - 1], outputs[..|outputs| - 1];
    assert outputs == rest + [last];
    IdentityEmpty([]);
    if |outputs| == 1 {
      IdentityBack(rest, last);
      assert rest == [] && outputs[1..] == [] && [] + Tagged(first) == Tagged(first) + [];
    } else {
      assert outputs[1..] == rest[1..] + [last];
      IdentityFront(rest);
      IdentityBack(rest, last);
      IdentityBack(rest[1..], last);
    }
  }

  lemma IdentityEmpty(outputs: seq<Name>)
    ensures Identity(outputs) == [] <==> outputs == []
  {
  }

  /** The identity can be read back in one way only, whatever bytes the names hold. */
  lemma {:induction false} IdentityInjective(a: seq<Name>, b: seq<Name>)
    ensures Identity(a) == Identity(b) <==> a == b
  {
    if Identity(a) == Identity(b) {
      IdentityEmpty(a);
      IdentityEmpty(b);
      if a != [] {
        IdentityFront(a);
        IdentityFront(b);
        hide *;
        TaggedSplits(a[0], b[0], Identity(a[1..]), Identity(b[1..]));
        IdentityInjective(a[1..], b[1..]);
        assert a == [a[0]] + a[1..] && b == [b[0]] + b[1..];
      }
    }
  }

  /** Two configurations have one identity exactly when the same outputs are connected,
      in whatever order and how often they are listed. */
  lemma SameIdentity(a: seq<Name>, b: seq<Name>, le: Order)
    requires TotalOrder(le)
    ensures Identity(Arranged(a, le)) == Identity(Arranged(b, le)) <==> Members(a) == Members(b)
  {
    ArrangedAscends(a, le);
    ArrangedAscends(b, le);
    IdentityInjective(Arranged(a, le), Arranged(b, le));
    hide *;
    if Members(a) == Members(b) {
      AscendingUnique(Arranged(a, le), Arranged(b, le), le);
    }
  }

  // ---------------------------------------------------------------- the file name

  type Hash = Bytes -> string

  const HEX_LENGTH := 64

  function FileName(key: string, screen: Name): string {
    "desktop-layout-" + key + "-" + Encode(screen) + ".conf"
  }

  /** `hash` stands for the hexadecimal SHA-256 and `profile` for the directory prefix. */
  method PositionFile(profile: string, screen: Name, screens: seq<Name>, le: Order, hash: Hash) returns (path: string)
    ensures path == profile + FileName(hash(Identity(Arranged(screens, le))), screen)
  {
    var outputs := Arranged(screens, le);
    var identity: Bytes := [];
    for i := 0 to |outputs|
      invariant identity == Identity(outputs[..i])
    {
      assert outputs[..i + 1][..i] == outputs[..i];
      identity := identity + (Decimal(|outputs[i]|) + [COLON] + outputs[i]);
    }
    assert outputs[..|outputs|] == outputs;
    path := profile + FileName(hash(identity), screen);
  }

  lemma FileNameSplits(key: string, other: string, screen: Name, another: Name)
    requires |key| == HEX_LENGTH && |other| == HEX_LENGTH
    ensures FileName(key, screen) == FileName(other, another) <==> key == other && screen == another
  {
    EncodeInjective(screen, another);
    hide Encode;
    var a, b := FileName(key, screen), FileName(other, another);
    if a == b {
      assert a[15..15 + HEX_LENGTH] == key && b[15..15 + HEX_LENGTH] == other;
      assert a[16 + HEX_LENGTH..|a| - 5] == Encode(screen) && b[16 + HEX_LENGTH..|b| - 5] == Encode(another);
    }
  }

  /** Position files do not alias: unless the hash collides on the two identities, the paths are
      equal exactly when the screen and the set of connected outputs are. */
  lemma PositionFilesDistinct(profile: string, screen: Name, screens: seq<Name>,
                              another: Name, others: seq<Name>, le: Order, hash: Hash)
    requires TotalOrder(le)
    requires forall x :: |hash(x)| == HEX_LENGTH
    requires hash(Identity(Arranged(screens, le))) == hash(Identity(Arranged(others, le)))
      ==> Identity(Arranged(screens, le)) == Identity(Arranged(others, le))
    ensures profile + FileName(hash(Identity(Arranged(screens, le))), screen)
         == profile + FileName(hash(Identity(Arranged(others, le))), another)
      <==> screen == another && Members(screens) == Members(others)
  {
    var a, b := hash(Identity(Arranged(screens, le))), hash(Identity(Arranged(others, le)));
    SameIdentity(screens, others, le);
    FileNameSplits(a, b, screen, another);
    hide *;
    var left, right := FileName(a, screen), FileName(b, another);
    assert (profile + left)[|profile|..] == left && (profile + right)[|profile|..] == right;
  }
}
