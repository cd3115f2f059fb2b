/** The desktop's assignment of icons to outputs: an in-memory map beside a settings file.

    Names of files and of outputs are their UTF-8 bytes. */
module DesktopLayout {
  import opened Base64Url

  type Name = Bytes

  const SLASH: Byte := 47
  const DOT: Byte := 46

  predicate ValidName(name: Name) {
    name != [] && name != [DOT] && name != [DOT, DOT] && SLASH !in name && 0 !in name
  }

  function KeyFor(name: Name): string {
    Encode(name)
  }

  // ---------------------------------------------------------------- state machine

  /** `owners` is the map in memory, `items` the settings group on disk. */
  datatype Layout = Layout(owners: map<Name, Name>, items: map<string, Name>)

  /** `saved` is what the environment decides: whether the atomic sync of that call succeeds. */
  datatype Op =
    | Owner(name: Name, screens: seq<Name>, primary: Name, saved: bool)
    | Assign(names: seq<Name>, screen: Name, available: seq<Name>, saved: bool)
    | Renamed(before: Name, after: Name, saved: bool)

  function Preference(owners: map<Name, Name>, name: Name): Name {
    if name in owners then owners[name] else []
  }

  function Fallback(screens: seq<Name>, primary: Name): Name {
    if primary in screens then primary else if screens == [] then [] else screens[0]
  }

  function Shown(owners: map<Name, Name>, name: Name, screens: seq<Name>, primary: Name): Name {
    var preferred := Preference(owners, name);
    if preferred != [] && preferred in screens then preferred else Fallback(screens, primary)
  }

  predicate Assignable(names: seq<Name>, screen: Name, available: seq<Name>) {
    screen != [] && screen in available && names != [] && forall n <- names :: ValidName(n)
  }

  predicate Movable(owners: map<Name, Name>, before: Name, after: Name) {
    before != after && ValidName(after) && before in owners
  }

  /** All `names` now belong to `screen`, in memory. */
  function Placed(owners: map<Name, Name>, names: seq<Name>, screen: Name): map<Name, Name> {
    map n | n in owners.Keys + (set m | m in names) :: if n in names then screen else owners[n]
  }

  /** All `names` now belong to `screen`, on disk. */
  function Stored(items: map<string, Name>, names: seq<Name>, screen: Name): map<string, Name> {
    map k | k in items.Keys + (set m | m in names :: KeyFor(m)) ::
      if exists m :: m in names && k == KeyFor(m) then screen else items[k]
  }

  function Assigned(l: Layout, names: seq<Name>, screen: Name, available: seq<Name>, saved: bool): Layout {
    if Assignable(names, screen, available) && saved
    then Layout(Placed(l.owners, names, screen), Stored(l.items, names, screen)) else l
  }

  function Next(l: Layout, op: Op): Layout {
    match op
    case Owner(name, screens, primary, saved) =>
      var fallback := Fallback(screens, primary);
      if Preference(l.owners, name) == [] && fallback != []
      then Assigned(l, [name], fallback, screens, saved) else l
    case Assign(names, screen, available, saved) =>
      Assigned(l, names, screen, available, saved)
    case Renamed(before, after, saved) =>
      if Movable(l.owners, before, after) && saved
      then Layout((l.owners - {before})[after := l.owners[before]],
                  l.items[KeyFor(after) := l.owners[before]] - {KeyFor(before)}) else l
  }

  function After(l: Layout, ops: seq<Op>): Layout {
    if ops == [] then l else Next(After(l, ops[..|ops| - 1]), ops[|ops| - 1])
  }

  // ---------------------------------------------------------------- loading

  ghost predicate Enumerates(keys: seq<string>, items: map<string, Name>) {
    forall k :: k in keys <==> k in items
  }

  /** What a constructor finds when it meets the keys in this order. */
  function Load(items: map<string, Name>, keys: seq<string>): map<Name, Name>
    requires forall k <- keys :: k in items
  {
    if keys == [] then map[]
    else
      var key := keys[|keys| - 1];
      var name, before := Decode(key), Load(items, keys[..|keys| - 1]);
      if ValidName(name) then before[name := items[key]] else before
  }

  /** Every key that decodes to a usable name is the one key the program writes for it. */
  predicate Canonical(items: map<string, Name>) {
    forall k <- items :: ValidName(Decode(k)) ==> k == KeyFor(Decode(k))
  }

  /** Memory and disk say the same about every name, read through the name's own key. */
  ghost predicate Mirrors(owners: map<Name, Name>, items: map<string, Name>) {
    && (forall n <- owners :: ValidName(n))
    && (forall n | ValidName(n) :: n in owners <==> KeyFor(n) in items)
    && (forall n <- owners :: KeyFor(n) in items && owners[n] == items[KeyFor(n)])
  }

  ghost predicate Agrees(l: Layout) {
    forall keys: seq<string> | Enumerates(keys, l.items) :: Load(l.items, keys) == l.owners
  }

  /** A program started on `items` always holds in memory what a restart would load. */
  ghost predicate AlwaysAgrees(items: map<string, Name>, keys: seq<string>)
    requires Enumerates(keys, items)
  {
    forall ops: seq<Op> :: Agrees(After(Layout(Load(items, keys), items), ops))
  }

  lemma {:induction false} LoadDomain(items: map<string, Name>, keys: seq<string>, n: Name)
    requires forall k <- keys :: k in items
    ensures n in Load(items, keys) <==> ValidName(n) && exists k :: k in keys && Decode(k) == n
  {
    if keys != [] {
      var last, rest := keys[|keys| - 1], keys[..|keys| - 1];
      LoadDomain(items, rest, n);
      assert keys == rest + [last];
    }
  }

  /** Of several keys for one name the value of one of them is loaded. */
  lemma {:induction false} LoadValue(items: map<string, Name>, keys: seq<string>, n: Name) returns (key: string)
    requires forall k <- keys :: k in items
    requires n in Load(items, keys)
    ensures key in keys && Decode(key) == n && Load(items, keys)[n] == items[key]
  {
    var last, rest := keys[|keys| - 1], keys[..|keys| - 1];
    assert keys == rest + [last];
    if ValidName(Decode(last)) && Decode(last) == n {
      key := last;
    } else {
      key := LoadValue(items, rest, n);
    }
  }

  lemma KeyReads(n: Name)
    ensures Decode(KeyFor(n)) == n
  {
    RoundTrip(n);
  }

  lemma LoadMirrors(items: map<string, Name>, keys: seq<string>)
    requires Enumerates(keys, items) && Canonical(items)
    ensures Mirrors(Load(items, keys), items)
  {
    hide ValidName, Decode, KeyFor, Load;
    var loaded := Load(items, keys);
    forall n ensures n in loaded ==> ValidName(n) {
      LoadDomain(items, keys, n);
    }
    forall n | ValidName(n) ensures n in loaded <==> KeyFor(n) in items {
      LoadDomain(items, keys, n);
      KeyReads(n);
    }
    forall n | n in loaded ensures KeyFor(n) in items && loaded[n] == items[KeyFor(n)] {
      LoadDomain(items, keys, n);
      var k := LoadValue(items, keys, n);
    }
  }

  lemma MirrorsUnique(a: map<Name, Name>, b: map<Name, Name>, items: map<string, Name>)
    requires Mirrors(a, items) && Mirrors(b, items)
    ensures a == b
  {
    forall n ensures n in a <==> n in b {
    }
    forall n | n in a ensures a[n] == b[n] {
    }
  }

  lemma KeyAmong(n: Name, names: seq<Name>)
    ensures (exists m :: m in names && KeyFor(n) == KeyFor(m)) <==> n in names
  {
    hide KeyFor;
    if m :| m in names && KeyFor(n) == KeyFor(m) {
      EncodeInjectiveKey(n, m);
    }
  }

  lemma EncodeInjectiveKey(a: Name, b: Name)
    ensures KeyFor(a) == KeyFor(b) <==> a == b
  {
    EncodeInjective(a, b);
  }

  lemma StoredCanonical(items: map<string, Name>, names: seq<Name>, screen: Name)
    requires Canonical(items)
    ensures Canonical(Stored(items, names, screen))
  {
    hide ValidName, Decode, KeyFor;
    var stored := Stored(items, names, screen);
    forall k | k in stored && ValidName(Decode(k)) ensures k == KeyFor(Decode(k)) {
      if k !in items {
        var m :| m in names && k == KeyFor(m);
        KeyReads(m);
      }
    }
  }

  lemma StoredAt(items: map<string, Name>, names: seq<Name>, screen: Name, n: Name)
    ensures KeyFor(n) in Stored(items, names, screen) <==> n in names || KeyFor(n) in items
    ensures n in names ==> Stored(items, names, screen)[KeyFor(n)] == screen
    ensures n !in names && KeyFor(n) in items ==> Stored(items, names, screen)[KeyFor(n)] == items[KeyFor(n)]
  {
    hide KeyFor;
    KeyAmong(n, names);
  }

  lemma StoredMirrors(owners: map<Name, Name>, items: map<string, Name>, names: seq<Name>, screen: Name)
    requires Mirrors(owners, items) && forall n <- names :: ValidName(n)
    ensures Mirrors(Placed(owners, names, screen), Stored(items, names, screen))
  {
    hide ValidName, KeyFor, Stored;
    var placed, stored := Placed(owners, names, screen), Stored(items, names, screen);
    forall n | ValidName(n) ensures n in placed <==> KeyFor(n) in stored {
      StoredAt(items, names, screen, n);
    }
    forall n | n in placed ensures KeyFor(n) in stored && placed[n] == stored[KeyFor(n)] {
      StoredAt(items, names, screen, n);
    }
  }

  lemma MovedMirrors(owners: map<Name, Name>, items: map<string, Name>, before: Name, after: Name)
    requires Mirrors(owners, items) && Canonical(items) && Movable(owners, before, after)
    ensures Mirrors((owners - {before})[after := owners[before]],
                    items[KeyFor(after) := owners[before]] - {KeyFor(before)})
    ensures Canonical(items[KeyFor(after) := owners[before]] - {KeyFor(before)})
  {
    hide ValidName, Decode, KeyFor;
    KeyReads(before);
    KeyReads(after);
    forall n ensures Decode(KeyFor(n)) == n {
      KeyReads(n);
    }
  }

  lemma NextMirrors(l: Layout, op: Op)
    requires Mirrors(l.owners, l.items) && Canonical(l.items)
    ensures Mirrors(Next(l, op).owners, Next(l, op).items) && Canonical(Next(l, op).items)
  {
    hide Mirrors, Canonical, ValidName, KeyFor, Placed, Stored;
    match op
    case Owner(name, screens, primary, saved) =>
      if Assignable([name], Fallback(screens, primary), screens) {
        StoredMirrors(l.owners, l.items, [name], Fallback(screens, primary));
        StoredCanonical(l.items, [name], Fallback(screens, primary));
      }
    case Assign(names, screen, available, saved) =>
      if Assignable(names, screen, available) {
        StoredMirrors(l.owners, l.items, names, screen);
        StoredCanonical(l.items, names, screen);
      }
    case Renamed(before, after, saved) =>
      if Movable(l.owners, before, after) {
        MovedMirrors(l.owners, l.items, before, after);
      }
  }

  lemma {:induction false} RunMirrors(l: Layout, ops: seq<Op>)
    requires Mirrors(l.owners, l.items) && Canonical(l.items)
    ensures Mirrors(After(l, ops).owners, After(l, ops).items) && Canonical(After(l, ops).items)
  {
    if ops != [] {
      RunMirrors(l, ops[..|ops| - 1]);
      NextMirrors(After(l, ops[..|ops| - 1]), ops[|ops| - 1]);
    }
  }

  /** A second key for a known name survives every rename of that name, so the restart
      still shows a name that memory has given up. */
  lemma StrayKeyBreaks(items: map<string, Name>, keys: seq<string>, stray: string)
    requires Enumerates(keys, items) && stray in items
    requires ValidName(Decode(stray)) && stray != KeyFor(Decode(stray))
    ensures !AlwaysAgrees(items, keys)
  {
    hide Decode, KeyFor;
    var before := Decode(stray);
    var after: Name := before + [SLASH + 1];
    assert after[0] == before[0] && ValidName(after);
    var start := Layout(Load(items, keys), items);
    LoadDomain(items, keys, before);
    var op := Renamed(before, after, true);
    var end := Next(start, op);
    KeyReads(after);
    assert stray in end.items && before !in end.owners;
    var order := Listing(end.items.Keys);
    LoadDomain(end.items, order, before);
    assert !Agrees(end);
    assert [op][..0] == [] && After(start, [op]) == Next(After(start, []), op);
  }

  lemma {:induction false} Listing(keys: set<string>) returns (order: seq<string>)
    ensures forall k :: k in order <==> k in keys
  {
    if keys == {} {
      order := [];
    } else {
      var k :| k in keys;
      order := Listing(keys - {k});
      order := order + [k];
    }
  }

  /** Memory equals what a restart loads, after any calls with any mix of sync results and
      for any order of keys, exactly when the file it started on was canonical. */
  lemma AgreementExactly(items: map<string, Name>, keys: seq<string>)
    requires Enumerates(keys, items)
    ensures AlwaysAgrees(items, keys) <==> Canonical(items)
  {
    if Canonical(items) {
      var start := Layout(Load(items, keys), items);
      LoadMirrors(items, keys);
      forall ops: seq<Op> ensures Agrees(After(start, ops)) {
        RunMirrors(start, ops);
        AgreesWhenMirrored(After(start, ops));
      }
    } else {
      var stray :| stray in items && ValidName(Decode(stray)) && stray != KeyFor(Decode(stray));
      StrayKeyBreaks(items, keys, stray);
    }
  }

  lemma AgreesWhenMirrored(l: Layout)
    requires Mirrors(l.owners, l.items) && Canonical(l.items)
    ensures Agrees(l)
  {
    forall keys: seq<string> | Enumerates(keys, l.items) ensures Load(l.items, keys) == l.owners {
      LoadMirrors(l.items, keys);
      MirrorsUnique(Load(l.items, keys), l.owners, l.items);
    }
  }

  /** A file this program alone has written is canonical, so the condition above holds for it. */
  lemma WrittenCanonical(ops: seq<Op>)
    ensures Canonical(After(Layout(map[], map[]), ops).items)
  {
    RunMirrors(Layout(map[], map[]), ops);
  }

  // ---------------------------------------------------------------- what the user sees

  /** Exactly one connected output is shown for a name whenever any is connected. */
  lemma ShownConnected(owners: map<Name, Name>, name: Name, screens: seq<Name>, primary: Name)
    ensures screens != [] ==> Shown(owners, name, screens, primary) in screens
    ensures screens == [] ==> Shown(owners, name, screens, primary) == []
    ensures Preference(owners, name) in screens && Preference(owners, name) != []
      ==> Shown(owners, name, screens, primary) == Preference(owners, name)
  {
  }

  /** The calls that decide anew where `name` belongs. */
  predicate Touches(op: Op, name: Name) {
    (op.Assign? && name in op.names) || (op.Renamed? && (op.before == name || op.after == name))
  }

  lemma PreferenceStep(l: Layout, op: Op, name: Name)
    requires Preference(l.owners, name) != [] && !Touches(op, name)
    ensures Preference(Next(l, op).owners, name) == Preference(l.owners, name)
  {
    hide ValidName, KeyFor, Stored;
  }

  /** A saved preference survives disconnection: whatever outputs come and go and whichever is
      primary, it is the output shown as soon as it is connected again. */
  lemma {:induction false} PreferenceSurvives(l: Layout, ops: seq<Op>, name: Name, screens: seq<Name>, primary: Name)
    requires Preference(l.owners, name) != []
    requires forall op <- ops :: !Touches(op, name)
    ensures Preference(After(l, ops).owners, name) == Preference(l.owners, name)
    ensures Preference(l.owners, name) in screens
      ==> Shown(After(l, ops).owners, name, screens, primary) == Preference(l.owners, name)
  {
    if ops != [] {
      hide Next, Touches, Preference, Shown;
      PreferenceSurvives(l, ops[..|ops| - 1], name, screens, primary);
      PreferenceStep(After(l, ops[..|ops| - 1]), ops[|ops| - 1], name);
    }
    ShownConnected(After(l, ops).owners, name, screens, primary);
  }

  /** The first placement is a preference too: an icon nobody moved stays where it was first
      shown, when that could be saved. */
  lemma FirstPlacementSticks(l: Layout, name: Name, first: seq<Name>, primary: Name,
                             ops: seq<Op>, screens: seq<Name>, other: Name)
    requires ValidName(name) && Shown(l.owners, name, first, primary) != []
    requires Preference(l.owners, name) == []
    requires forall op <- ops :: !Touches(op, name)
    requires Shown(l.owners, name, first, primary) in screens
    ensures Shown(After(Next(l, Owner(name, first, primary, true)), ops).owners, name, screens, other)
      == Shown(l.owners, name, first, primary)
  {
    var shown := Shown(l.owners, name, first, primary);
    assert Assignable([name], shown, first);
    assert Preference(Next(l, Owner(name, first, primary, true)).owners, name) == shown by {
      assert name in [name];
    }
    hide *;
    PreferenceSurvives(Next(l, Owner(name, first, primary, true)), ops, name, screens, other);
  }

  // ---------------------------------------------------------------- the object

  datatype Write = Put(value: Name) | Drop

  function Written(items: map<string, Name>, pending: map<string, Write>): map<string, Name> {
    map k | k in items.Keys + pending.Keys && (k in pending ==> pending[k].Put?) ::
      if k in pending then pending[k].value else items[k]
  }

  class SettingsFile {
    var items: map<string, Name>

    constructor ()
      ensures items == map[]
    {
      items := map[];
    }
  }

  /** Pending writes to one settings file; a sync applies all of them or none. */
  class Settings {
    const file: SettingsFile
    var pending: map<string, Write>
    var failed: bool

    constructor (file: SettingsFile)
      ensures this.file == file && pending == map[] && !failed
    {
      this.file, pending, failed := file, map[], false;
    }

    method SetValue(key: string, value: Name)
      modifies this`pending
      ensures pending == old(pending)[key := Put(value)]
    {
      pending := pending[key := Put(value)];
    }

    method Remove(key: string)
      modifies this`pending
      ensures pending == old(pending)[key := Drop]
    {
      pending := pending[key := Drop];
    }

    method Sync()
      modifies this, file
      ensures failed ==> file.items == old(file.items)
      ensures !failed ==> file.items == Written(old(file.items), old(pending))
    {
      failed := *;
      if !failed {
        file.items := Written(file.items, pending);
      }
      pending := map[];
    }
  }

  /** The pending writes of an assignment. */
  function Puts(names: seq<Name>, screen: Name): (p: map<string, Write>)
    ensures forall k :: k in p <==> exists n :: n in names && k == KeyFor(n)
    ensures forall k <- p :: p[k] == Put(screen)
  {
    if names == [] then map[]
    else
      var last, rest := names[|names| - 1], names[..|names| - 1];
      assert names == rest + [last];
      Puts(rest, screen)[KeyFor(last) := Put(screen)]
  }

  lemma PutsStore(items: map<string, Name>, names: seq<Name>, screen: Name)
    ensures Written(items, Puts(names, screen)) == Stored(items, names, screen)
  {
    hide *;
    var p := Puts(names, screen);
    assert forall k :: k in p <==> exists n :: n in names && k == KeyFor(n);
    assert forall k <- p :: p[k] == Put(screen);
    forall k
      ensures k in Written(items, p) <==> k in Stored(items, names, screen)
      ensures k in Written(items, p) ==> Written(items, p)[k] == Stored(items, names, screen)[k]
    {
      WrittenItem(items, p, k);
      StoredItem(items, names, screen, k);
    }
  }

  lemma WrittenItem(items: map<string, Name>, pending: map<string, Write>, k: string)
    requires forall j <- pending :: pending[j].Put?
    ensures k in Written(items, pending) <==> k in items || k in pending
    ensures k in Written(items, pending)
      ==> Written(items, pending)[k] == if k in pending then pending[k].value else items[k]
  {
  }

  lemma StoredItem(items: map<string, Name>, names: seq<Name>, screen: Name, k: string)
    ensures k in Stored(items, names, screen) <==> k in items || exists n :: n in names && k == KeyFor(n)
    ensures k in Stored(items, names, screen)
      ==> Stored(items, names, screen)[k] == if exists n :: n in names && k == KeyFor(n) then screen else items[k]
  {
    hide KeyFor;
  }

  lemma NextAssign(l: Layout, names: seq<Name>, screen: Name, available: seq<Name>)
    requires Assignable(names, screen, available)
    ensures Next(l, Assign(names, screen, available, false)) == l
    ensures Next(l, Assign(names, screen, available, true))
      == Layout(Placed(l.owners, names, screen), Stored(l.items, names, screen))
  {
  }

  lemma NextRenamed(l: Layout, before: Name, after: Name)
    requires Movable(l.owners, before, after)
    ensures KeyFor(before) != KeyFor(after)
    ensures Next(l, Renamed(before, after, false)) == l
    ensures Next(l, Renamed(before, after, true))
      == Layout((l.owners - {before})[after := l.owners[before]],
                l.items[KeyFor(after) := l.owners[before]] - {KeyFor(before)})
  {
    EncodeInjectiveKey(before, after);
  }

  lemma WrittenMove(items: map<string, Name>, drop: string, put: string, value: Name)
    requires drop != put
    ensures Written(items, map[][put := Put(value)][drop := Drop]) == items[put := value] - {drop}
  {
  }

  lemma PutsStep(names: seq<Name>, screen: Name, i: nat)
    requires i < |names|
    ensures Puts([], screen) == map[] && names[..|names|] == names
    ensures Puts(names[..i + 1], screen) == Puts(names[..i], screen)[KeyFor(names[i]) := Put(screen)]
  {
    assert names[..i + 1][..i] == names[..i];
  }

  lemma PlacedNone(owners: map<Name, Name>, screen: Name)
    ensures Placed(owners, [], screen) == owners
  {
  }

  lemma PlacedStep(owners: map<Name, Name>, names: seq<Name>, screen: Name, i: nat)
    requires i < |names|
    ensures Placed(owners, names[..i + 1], screen) == Placed(owners, names[..i], screen)[names[i] := screen]
  {
    assert names[..i + 1] == names[..i] + [names[i]];
  }

  class DesktopOutputLayout {
    const file: SettingsFile
    var owners: map<Name, Name>

    constructor (file: SettingsFile, childKeys: seq<string>)
      requires Enumerates(childKeys, file.items)
      ensures this.file == file && owners == Load(file.items, childKeys)
    {
      this.file := file;
      var found: map<Name, Name> := map[];
      for i := 0 to |childKeys|
        invariant found == Load(file.items, childKeys[..i])
      {
        var key := childKeys[i];
        assert childKeys[..i + 1][..i] == childKeys[..i];
        var name := Decode(key);
        if ValidName(name) {
          found := found[name := file.items[key]];
        }
      }
      assert childKeys[..|childKeys|] == childKeys;
      owners := found;
    }

    static method AllValid(names: seq<Name>) returns (valid: bool)
      ensures valid <==> forall n <- names :: ValidName(n)
    {
      for i := 0 to |names|
        invariant forall j | 0 <= j < i :: ValidName(names[j])
      {
        if !ValidName(names[i]) {
          return false;
        }
      }
      return true;
    }

    method Remember(names: seq<Name>, screen: Name)
      modifies this`owners
      ensures owners == Placed(old(owners), names, screen)
    {
      hide *;
      PlacedNone(owners, screen);
      for i := 0 to |names|
        modifies this`owners
        invariant owners == Placed(old(owners), names[..i], screen)
      {
        PlacedStep(old(owners), names, screen, i);
        owners := owners[names[i] := screen];
      }
      assert names[..|names|] == names;
    }

    method Assign(names: seq<Name>, screen: Name, available: seq<Name>) returns (saved: bool)
      modifies this`owners, file
      ensures Layout(owners, file.items) == Next(old(Layout(owners, file.items)), Op.Assign(names, screen, available, saved))
      ensures saved ==> Assignable(names, screen, available)
    {
      if screen == [] || screen !in available || names == [] {
        return false;
      }
      var valid := AllValid(names);
      if !valid {
        return false;
      }
      NextAssign(old(Layout(owners, file.items)), names, screen, available);
      hide *;
      var settings := new Settings(file);
      PutsStep(names, screen, 0);
      for i := 0 to |names|
        modifies settings
        invariant settings.pending == Puts(names[..i], screen)
      {
        PutsStep(names, screen, i);
        settings.SetValue(KeyFor(names[i]), screen);
      }
      PutsStore(file.items, names, screen);
      settings.Sync();
      if settings.failed {
        return false;
      }
      Remember(names, screen);
      return true;
    }

    method Owner(name: Name, screens: seq<Name>, primary: Name) returns (shown: Name, ghost saved: bool)
      modifies this`owners, file
      ensures shown == Shown(old(owners), name, screens, primary)
      ensures Layout(owners, file.items) == Next(old(Layout(owners, file.items)), Op.Owner(name, screens, primary, saved))
    {
      saved := false;
      var preferred := if name in owners then owners[name] else [];
      if preferred != [] && preferred in screens {
        return preferred, saved;
      }
      var fallback := if primary in screens then primary else if screens == [] then [] else screens[0];
      if preferred == [] && fallback != [] {
        saved := Assign([name], fallback, screens);
      }
      return fallback, saved;
    }

    method Renamed(before: Name, after: Name) returns (ghost saved: bool)
      modifies this`owners, file
      ensures Layout(owners, file.items) == Next(old(Layout(owners, file.items)), Op.Renamed(before, after, saved))
    {
      saved := false;
      if before == after || !ValidName(after) || before !in owners {
        return;
      }
      NextRenamed(Layout(owners, file.items), before, after);
      WrittenMove(file.items, KeyFor(before), KeyFor(after), owners[before]);
      hide *;
      var settings := new Settings(file);
      settings.SetValue(KeyFor(after), owners[before]);
      settings.Remove(KeyFor(before));
      settings.Sync();
      if !settings.failed {
        saved := true;
        var taken := owners[before];
        owners := owners - {before};
        owners := owners[after := taken];
      }
    }
  }
}
