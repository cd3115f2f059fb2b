/** Finding the one encrypted container under a mounted root file system.

    The input is the parsed inverse dependency tree: the root's device on top, what it
    rests on below. */
module EncryptedRoot {
  const MAX_DEPTH := 16
  const MAX_VISITS := 64

  datatype Option<+T> = None | Some(value: T)

  /** A record field: a string, or anything else. */
  datatype Field = Text(text: string) | NotText

  /** `crypt` and `luks` say whether type and fstype have those values; a record without
      children has an empty list of them. */
  datatype Node =
    | Record(crypt: bool, luks: bool, path: Field, uuid: Field, children: Children)
    | NotRecord
  datatype Children = List(nodes: seq<Node>) | NotList

  datatype Identity = Identity(path: string, uuid: string)

  // ---------------------------------------------------------------- identities

  predicate PathChar(c: char) {
    'A' <= c <= 'Z' || 'a' <= c <= 'z' || '0' <= c <= '9' || c in "_./-"
  }

  predicate HexChar(c: char) {
    'A' <= c <= 'F' || 'a' <= c <= 'f' || '0' <= c <= '9' || c == '-'
  }

  function Lower(s: string): string {
    seq(|s|, i requires 0 <= i < |s| => if 'A' <= s[i] <= 'Z' then (s[i] as int + 32) as char else s[i])
  }

  /** The identity of a container record, if both its fields are well formed. */
  function IdentityOf(node: Node): Option<Identity> {
    if && node.Record? && node.path.Text? && node.uuid.Text?
       && |node.path.text| > 5 && node.path.text[..5] == "/dev/" && (forall c <- node.path.text[5..] :: PathChar(c))
       && |node.uuid.text| == 36 && (forall c <- node.uuid.text :: HexChar(c))
    then Some(Identity(node.path.text, Lower(node.uuid.text)))
    else None
  }

  // ---------------------------------------------------------------- the pruned tree

  predicate Encrypted(node: Node, encrypted: bool) {
    encrypted || (node.Record? && node.crypt)
  }

  /** A container at or below an encrypted layer; the walk stops here. */
  predicate Locked(node: Node, encrypted: bool) {
    node.Record? && node.luks && Encrypted(node, encrypted)
  }

  function Below(node: Node): seq<Node> {
    if node.Record? && node.children.List? then node.children.nodes else []
  }

  /** The number of records the walk looks at. */
  function Size(node: Node, encrypted: bool): (n: nat)
    ensures n >= 1
    decreases node, |Below(node)| + 1
  {
    if Locked(node, encrypted) then 1 else 1 + SizeTo(node, encrypted, |Below(node)|)
  }

  function SizeTo(node: Node, encrypted: bool, count: nat): nat
    requires count <= |Below(node)|
    decreases node, count
  {
    if count == 0 then 0
    else SizeTo(node, encrypted, count - 1) + Size(Below(node)[count - 1], Encrypted(node, encrypted))
  }

  /** Every branch ends in a well-formed locked record, no deeper than allowed. */
  predicate Protected(node: Node, encrypted: bool, depth: nat)
    decreases node
  {
    && depth <= MAX_DEPTH
    && node.Record?
    && if Locked(node, encrypted) then IdentityOf(node).Some?
       else
         && Below(node) != []
         && forall i | 0 <= i < |Below(node)| :: Protected(Below(node)[i], Encrypted(node, encrypted), depth + 1)
  }

  /** The identities met by the walk, in its order. */
  function Found(node: Node, encrypted: bool): seq<Identity>
    decreases node, |Below(node)| + 1
  {
    if Locked(node, encrypted)
    then if IdentityOf(node).Some? then [IdentityOf(node).value] else []
    else FoundTo(node, encrypted, |Below(node)|)
  }

  function FoundTo(node: Node, encrypted: bool, count: nat): seq<Identity>
    requires count <= |Below(node)|
    decreases node, count
  {
    if count == 0 then []
    else FoundTo(node, encrypted, count - 1) + Found(Below(node)[count - 1], Encrypted(node, encrypted))
  }

  lemma SizeGrows(node: Node, encrypted: bool, few: nat, many: nat)
    requires few <= many <= |Below(node)|
    ensures SizeTo(node, encrypted, few) <= SizeTo(node, encrypted, many)
    decreases many
  {
    if few < many {
      SizeGrows(node, encrypted, few, many - 1);
    }
  }

  lemma SizeIs(node: Node, encrypted: bool)
    ensures Size(node, encrypted) == if Locked(node, encrypted) then 1 else 1 + SizeTo(node, encrypted, |Below(node)|)
  {
  }

  lemma ProtectedIs(node: Node, encrypted: bool, depth: nat)
    ensures Protected(node, encrypted, depth) <==>
      && depth <= MAX_DEPTH && node.Record?
      && (Locked(node, encrypted) ==> IdentityOf(node).Some?)
      && (!Locked(node, encrypted) ==>
            && Below(node) != []
            && forall i | 0 <= i < |Below(node)| :: Protected(Below(node)[i], Encrypted(node, encrypted), depth + 1))
  {
  }

  lemma FoundIs(node: Node, encrypted: bool)
    ensures Locked(node, encrypted) && IdentityOf(node).Some? ==> Found(node, encrypted) == [IdentityOf(node).value]
    ensures !Locked(node, encrypted) ==> Found(node, encrypted) == FoundTo(node, encrypted, |Below(node)|)
  {
  }

  // ---------------------------------------------------------------- the walk

  /** The walk with its counter and its list of candidates. */
  class Walker {
    var visited: nat
    var candidates: seq<Identity>

    constructor ()
      ensures visited == 0 && candidates == []
    {
      visited, candidates := 0, [];
    }

    /** The walk goes through exactly when the branch is protected and the counter stays within
        bounds; it then has counted the pruned tree and collected its identities. */
    method Walk(node: Node, encrypted: bool, depth: nat) returns (raised: bool)
      modifies this
      decreases node, 1
      ensures !raised <==> Protected(node, encrypted, depth) && old(visited) + Size(node, encrypted) <= MAX_VISITS
      ensures !raised ==> visited == old(visited) + Size(node, encrypted)
      ensures !raised ==> candidates == old(candidates) + Found(node, encrypted)
    {
      visited := visited + 1;
      if depth > MAX_DEPTH || visited > MAX_VISITS || !node.Record? {
        return true;
      }
      hide Found, IdentityOf, Size, Protected;
      SizeIs(node, encrypted);
      FoundIs(node, encrypted);
      ProtectedIs(node, encrypted, depth);
      var within := encrypted || node.crypt;
      if within && node.luks {
        var identity := IdentityOf(node);
        if identity.None? {
          return true;
        }
        candidates := candidates + [identity.value];
        return false;
      }
      if !node.children.List? {
        return true;
      }
      if node.children.nodes == [] {
        return true;
      }
      raised := WalkChildren(node, encrypted, depth);
    }

    method WalkChildren(node: Node, encrypted: bool, depth: nat) returns (raised: bool)
      requires !Locked(node, encrypted) && visited <= MAX_VISITS
      modifies this
      decreases node, 0
      ensures !raised <==>
        && (forall i | 0 <= i < |Below(node)| :: Protected(Below(node)[i], Encrypted(node, encrypted), depth + 1))
        && old(visited) + SizeTo(node, encrypted, |Below(node)|) <= MAX_VISITS
      ensures !raised ==> visited == old(visited) + SizeTo(node, encrypted, |Below(node)|)
      ensures !raised ==> candidates == old(candidates) + FoundTo(node, encrypted, |Below(node)|)
    {
      hide Found, Size, Protected, IdentityOf, Locked;
      var children, within := Below(node), Encrypted(node, encrypted);
      for i := 0 to |children|
        invariant visited == old(visited) + SizeTo(node, encrypted, i) <= MAX_VISITS
        invariant candidates == old(candidates) + FoundTo(node, encrypted, i)
        invariant forall j | 0 <= j < i :: Protected(children[j], within, depth + 1)
      {
        var failed := Walk(children[i], within, depth + 1);
        if failed {
          SizeGrows(node, encrypted, i + 1, |children|);
          return true;
        }
      }
      return false;
    }
  }

  /** The list without repetitions, in order of first occurrence. */
  function Unique(s: seq<Identity>): seq<Identity> {
    if s == [] then []
    else
      var before, last := Unique(s[..|s| - 1]), s[|s| - 1];
      if last in before then before else before + [last]
  }

  lemma {:induction false} UniqueKeeps(s: seq<Identity>, x: Identity)
    ensures x in Unique(s) <==> x in s
  {
    if s != [] {
      var rest, last := s[..|s| - 1], s[|s| - 1];
      assert s == rest + [last];
      UniqueKeeps(rest, x);
    }
  }

  lemma {:induction false} UniqueOne(s: seq<Identity>, x: Identity)
    requires s != [] && forall y <- s :: y == x
    ensures Unique(s) == [x]
  {
    var rest, last := s[..|s| - 1], s[|s| - 1];
    assert last in s;
    if rest == [] {
      assert Unique(rest) == [] && [] + [x] == [x];
    } else {
      assert forall y <- rest :: y in s;
      UniqueOne(rest, x);
    }
  }

  /** What the whole tree must be for `identity` to be the answer. */
  ghost predicate Answer(devices: Children, identity: Identity) {
    && devices.List? && |devices.nodes| == 1
    && Protected(devices.nodes[0], false, 0)
    && Size(devices.nodes[0], false) <= MAX_VISITS
    && forall x <- Found(devices.nodes[0], false) :: x == identity
  }

  lemma {:induction false} ProtectedFinds(node: Node, encrypted: bool, depth: nat)
    requires Protected(node, encrypted, depth)
    ensures Found(node, encrypted) != []
    decreases node
  {
    if !Locked(node, encrypted) {
      var n := |Below(node)|;
      ProtectedFinds(Below(node)[n - 1], Encrypted(node, encrypted), depth + 1);
    }
  }

  method EncryptedRootDevice(devices: Children) returns (result: Option<Identity>)
    ensures result.Some? ==> Answer(devices, result.value)
    ensures result.None? ==> forall identity :: !Answer(devices, identity)
  {
    if !devices.List? || |devices.nodes| != 1 {
      return None;
    }
    var root := devices.nodes[0];
    var walker := new Walker();
    var raised := walker.Walk(root, false, 0);
    if raised {
      return None;
    }
    assert walker.candidates == Found(root, false);
    ProtectedFinds(root, false, 0);
    forall x ensures x in Unique(walker.candidates) <==> x in walker.candidates {
      UniqueKeeps(walker.candidates, x);
    }
    var candidates := Unique(walker.candidates);
    if |candidates| != 1 {
      var found := walker.candidates;
      forall identity ensures !Answer(devices, identity) {
        if Answer(devices, identity) {
          UniqueOne(found, identity);
        }
      }
      return None;
    }
    assert forall x <- Found(root, false) :: x in candidates && x == candidates[0];
    return Some(candidates[0]);
  }

  // ---------------------------------------------------------------- every path from the root

  /** A dependency path from `node` down to a record that rests on nothing. */
  ghost predicate Path(path: seq<Node>, node: Node) {
    && path != [] && path[0] == node
    && (forall i | 0 <= i < |path| - 1 :: path[i + 1] in Below(path[i]))
    && Below(path[|path| - 1]) == []
  }

  ghost predicate LockedAt(path: seq<Node>, encrypted: bool, i: nat)
    requires i < |path|
  {
    && path[i].Record? && path[i].luks
    && (encrypted || exists j | 0 <= j <= i :: path[j].Record? && path[j].crypt)
  }

  /** The first container on the path with an encrypted layer at or above it is at `k`. */
  ghost predicate FirstLocked(path: seq<Node>, encrypted: bool, k: nat) {
    && k < |path| && LockedAt(path, encrypted, k)
    && forall i | 0 <= i < k :: !LockedAt(path, encrypted, i)
  }

  ghost predicate PathLeadsTo(path: seq<Node>, encrypted: bool, depth: nat, identity: Identity) {
    exists k: nat :: k < |path| && FirstLocked(path, encrypted, k) && depth + k <= MAX_DEPTH && IdentityOf(path[k]) == Some(identity)
  }

  ghost predicate AllLeadTo(node: Node, encrypted: bool, depth: nat, identity: Identity) {
    forall path: seq<Node> | Path(path, node) :: PathLeadsTo(path, encrypted, depth, identity)
  }

  lemma {:induction false} SomePath(node: Node) returns (path: seq<Node>)
    ensures Path(path, node)
    decreases node
  {
    path := [node];
    if Below(node) != [] {
      var rest := SomePath(Below(node)[0]);
      path := [node] + rest;
    }
  }

  /** A step down shifts every index by one and carries the encrypted layer along. */
  lemma LockedBelow(node: Node, rest: seq<Node>, encrypted: bool, i: nat)
    requires i < |rest|
    ensures LockedAt([node] + rest, encrypted, i + 1) <==> LockedAt(rest, Encrypted(node, encrypted), i)
  {
    var path, within := [node] + rest, Encrypted(node, encrypted);
    if LockedAt(path, encrypted, i + 1) && !within {
      var j :| 0 <= j <= i + 1 && path[j].Record? && path[j].crypt;
      assert rest[j - 1] == path[j];
    }
    if LockedAt(rest, within, i) && !encrypted {
      if node.Record? && node.crypt {
        assert path[0] == node;
      } else {
        var j :| 0 <= j <= i && rest[j].Record? && rest[j].crypt;
        assert path[j + 1] == rest[j];
      }
    }
    assert path[i + 1] == rest[i];
  }

  lemma FirstBelow(node: Node, rest: seq<Node>, encrypted: bool, k: nat)
    requires !Locked(node, encrypted)
    ensures FirstLocked([node] + rest, encrypted, k + 1) <==> FirstLocked(rest, Encrypted(node, encrypted), k)
    ensures !FirstLocked([node] + rest, encrypted, 0)
  {
    var path := [node] + rest;
    forall i | 0 <= i < |rest|
      ensures LockedAt(path, encrypted, i + 1) <==> LockedAt(rest, Encrypted(node, encrypted), i)
    {
      LockedBelow(node, rest, encrypted, i);
    }
    assert path[0] == node && !LockedAt(path, encrypted, 0);
    hide LockedAt;
    if FirstLocked(path, encrypted, k + 1) {
      forall i | 0 <= i < k ensures !LockedAt(rest, Encrypted(node, encrypted), i) {
        assert !LockedAt(path, encrypted, i + 1);
      }
    }
    if FirstLocked(rest, Encrypted(node, encrypted), k) {
      forall i | 0 <= i < k + 1 ensures !LockedAt(path, encrypted, i) {
        if i > 0 {
          assert !LockedAt(rest, Encrypted(node, encrypted), i - 1);
        }
      }
    }
  }

  lemma LeadsBelow(node: Node, rest: seq<Node>, encrypted: bool, depth: nat, identity: Identity)
    requires !Locked(node, encrypted)
    ensures PathLeadsTo([node] + rest, encrypted, depth, identity)
      <==> PathLeadsTo(rest, Encrypted(node, encrypted), depth + 1, identity)
  {
    var path, within := [node] + rest, Encrypted(node, encrypted);
    hide FirstLocked, Locked, Encrypted;
    if PathLeadsTo(path, encrypted, depth, identity) {
      var k: nat :| k < |path| && FirstLocked(path, encrypted, k) && depth + k <= MAX_DEPTH && IdentityOf(path[k]) == Some(identity);
      FirstBelow(node, rest, encrypted, if k == 0 then 0 else k - 1);
      assert k > 0 && path[k] == rest[k - 1];
      assert FirstLocked(rest, within, k - 1);
    }
    if PathLeadsTo(rest, within, depth + 1, identity) {
      var k: nat :| k < |rest| && FirstLocked(rest, within, k) && depth + 1 + k <= MAX_DEPTH && IdentityOf(rest[k]) == Some(identity);
      FirstBelow(node, rest, encrypted, k);
      assert path[k + 1] == rest[k];
      assert FirstLocked(path, encrypted, k + 1);
    }
  }

  lemma PathBelow(node: Node, child: Node, rest: seq<Node>)
    requires child in Below(node) && Path(rest, child)
    ensures Path([node] + rest, node)
  {
    var path := [node] + rest;
    forall i | 0 <= i < |path| - 1 ensures path[i + 1] in Below(path[i]) {
      if i > 0 {
        assert path[i] == rest[i - 1] && path[i + 1] == rest[i];
      }
    }
  }

  lemma PathRest(path: seq<Node>, node: Node)
    requires Path(path, node) && Below(node) != []
    ensures |path| > 1 && path[1] in Below(node) && Path(path[1..], path[1]) && path == [node] + path[1..]
  {
    var rest := path[1..];
    forall i | 0 <= i < |rest| - 1 ensures rest[i + 1] in Below(rest[i]) {
      assert rest[i + 1] == path[i + 2] && rest[i] == path[i + 1];
    }
  }

  /** Under a locked record only its own identity counts. */
  lemma LockedLeads(node: Node, encrypted: bool, depth: nat, identity: Identity)
    requires Locked(node, encrypted)
    ensures AllLeadTo(node, encrypted, depth, identity)
      <==> depth <= MAX_DEPTH && IdentityOf(node) == Some(identity)
  {
    forall path: seq<Node> | Path(path, node)
      ensures PathLeadsTo(path, encrypted, depth, identity)
        <==> depth <= MAX_DEPTH && IdentityOf(node) == Some(identity)
    {
      assert LockedAt(path, encrypted, 0);
      assert FirstLocked(path, encrypted, 0);
      hide LockedAt;
    }
    var path := SomePath(node);
  }

  lemma {:induction false} FoundIn(node: Node, encrypted: bool, count: nat, x: Identity)
    requires count <= |Below(node)|
    ensures x in FoundTo(node, encrypted, count)
      <==> exists i :: 0 <= i < count && x in Found(Below(node)[i], Encrypted(node, encrypted))
  {
    hide Found, Below, Encrypted;
    if count > 0 {
      FoundIn(node, encrypted, count - 1, x);
    }
  }

  /** A branch is protected by one identity alone exactly when every path through it leads there. */
  ghost predicate OnlyFinds(node: Node, encrypted: bool, depth: nat, identity: Identity) {
    Protected(node, encrypted, depth) && forall x <- Found(node, encrypted) :: x == identity
  }

  lemma OnlyFindsBelow(node: Node, encrypted: bool, depth: nat, identity: Identity)
    requires !Locked(node, encrypted)
    ensures OnlyFinds(node, encrypted, depth, identity) <==>
      && depth <= MAX_DEPTH && Below(node) != []
      && forall i | 0 <= i < |Below(node)| :: OnlyFinds(Below(node)[i], Encrypted(node, encrypted), depth + 1, identity)
  {
    var n, within := |Below(node)|, Encrypted(node, encrypted);
    forall x ensures x in Found(node, encrypted) <==> exists i :: 0 <= i < n && x in Found(Below(node)[i], within) {
      FoundIn(node, encrypted, n, x);
    }
    hide Found, FoundTo, IdentityOf;
    if OnlyFinds(node, encrypted, depth, identity) {
      forall i | 0 <= i < n ensures OnlyFinds(Below(node)[i], within, depth + 1, identity) {
        forall x | x in Found(Below(node)[i], within) ensures x == identity {
          assert x in Found(node, encrypted);
        }
      }
    }
    if depth <= MAX_DEPTH && n > 0
       && forall i | 0 <= i < n :: OnlyFinds(Below(node)[i], within, depth + 1, identity)
    {
      assert Protected(node, encrypted, depth);
      forall x | x in Found(node, encrypted) ensures x == identity {
        var i :| 0 <= i < n && x in Found(Below(node)[i], within);
        assert OnlyFinds(Below(node)[i], within, depth + 1, identity);
      }
    }
  }

  lemma LockedFinds(node: Node, encrypted: bool, depth: nat, identity: Identity)
    requires Locked(node, encrypted)
    ensures OnlyFinds(node, encrypted, depth, identity) <==> depth <= MAX_DEPTH && IdentityOf(node) == Some(identity)
  {
    hide IdentityOf;
    if IdentityOf(node).Some? {
      assert Found(node, encrypted) == [IdentityOf(node).value];
      assert IdentityOf(node).value in Found(node, encrypted);
    }
  }

  lemma {:induction false} PathsExactly(node: Node, encrypted: bool, depth: nat, identity: Identity)
    ensures OnlyFinds(node, encrypted, depth, identity) <==> AllLeadTo(node, encrypted, depth, identity)
    decreases node
  {
    if Locked(node, encrypted) {
      LockedLeads(node, encrypted, depth, identity);
      LockedFinds(node, encrypted, depth, identity);
    } else {
      OnlyFindsBelow(node, encrypted, depth, identity);
      LeadsThroughBelow(node, encrypted, depth, identity);
      forall i | 0 <= i < |Below(node)|
        ensures OnlyFinds(Below(node)[i], Encrypted(node, encrypted), depth + 1, identity)
          <==> AllLeadTo(Below(node)[i], Encrypted(node, encrypted), depth + 1, identity)
      {
        PathsExactly(Below(node)[i], Encrypted(node, encrypted), depth + 1, identity);
      }
      hide OnlyFinds, AllLeadTo;
    }
  }

  lemma LeadsThroughBelow(node: Node, encrypted: bool, depth: nat, identity: Identity)
    requires !Locked(node, encrypted)
    ensures AllLeadTo(node, encrypted, depth, identity) <==>
      && depth <= MAX_DEPTH && Below(node) != []
      && forall i | 0 <= i < |Below(node)| :: AllLeadTo(Below(node)[i], Encrypted(node, encrypted), depth + 1, identity)
  {
    hide PathLeadsTo, Path, Below, Locked;
    var within := Encrypted(node, encrypted);
    if AllLeadTo(node, encrypted, depth, identity) {
      NotAlone(node, encrypted, depth, identity);
      forall i, rest: seq<Node> | 0 <= i < |Below(node)| && Path(rest, Below(node)[i])
        ensures PathLeadsTo(rest, within, depth + 1, identity)
      {
        PathBelow(node, Below(node)[i], rest);
        LeadsBelow(node, rest, encrypted, depth, identity);
      }
    }
    if && depth <= MAX_DEPTH && Below(node) != []
       && forall i | 0 <= i < |Below(node)| :: AllLeadTo(Below(node)[i], within, depth + 1, identity)
    {
      forall path: seq<Node> | Path(path, node) ensures PathLeadsTo(path, encrypted, depth, identity) {
        PathRest(path, node);
        LeadsBelow(node, path[1..], encrypted, depth, identity);
      }
    }
  }

  /** An unlocked record must rest on something within the depth. */
  lemma NotAlone(node: Node, encrypted: bool, depth: nat, identity: Identity)
    requires !Locked(node, encrypted) && AllLeadTo(node, encrypted, depth, identity)
    ensures Below(node) != [] && depth <= MAX_DEPTH
  {
    var path := SomePath(node);
    var k: nat :| k < |path| && FirstLocked(path, encrypted, k) && depth + k <= MAX_DEPTH && IdentityOf(path[k]) == Some(identity);
    assert !LockedAt(path, encrypted, 0);
    assert k > 0 && path[0 + 1] in Below(path[0]);
  }

  /** The answer is sound and complete: it is `identity` exactly when there is one root record, the
      pruned tree has at most 64 records, and on every dependency path the first container under an
      encrypted layer lies within depth 16 and has that identity. */
  lemma AnswerExactly(devices: Children, identity: Identity)
    ensures Answer(devices, identity) <==>
      && devices.List? && |devices.nodes| == 1
      && Size(devices.nodes[0], false) <= MAX_VISITS
      && AllLeadTo(devices.nodes[0], false, 0, identity)
  {
    if devices.List? && |devices.nodes| == 1 {
      PathsExactly(devices.nodes[0], false, 0, identity);
    }
  }
}
