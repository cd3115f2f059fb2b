/** Cleanup is crash-idempotent for every accepted ledger, not only the reachable ones:
    cut it off anywhere, rerun it any number of times, and the first completed run leaves
    what one uninterrupted run would have left. */
module OfficeCleanup {
  import opened OfficeModel
  import opened OfficeRemote
  import opened OfficeRelease

  // ----- what a ledger dooms at a time, whatever the remote shows

  function DoomedGenerations(l: Ledger, gens: seq<Generation>, now: Time): seq<Item> {
    if gens == [] then []
    else
      var g := gens[|gens| - 1];
      var rest := DoomedGenerations(l, gens[..|gens| - 1], now);
      if Removable(l, g, now) then rest + [Item(g.releaseId, g.tag, g.tagCommit, false, false)] else rest
  }

  function DoomedDraft(l: Ledger, now: Time): seq<Item> {
    if PendingExpired(l, now)
    then [Item(l.pending.value.releaseId, l.pending.value.tag, l.pending.value.tagCommit, false, true)]
    else []
  }

  function Doom(l: Ledger, now: Time): seq<Item> {
    DoomedGenerations(l, l.generations, now) + DoomedDraft(l, now)
  }

  function Located(items: seq<Item>, releases: map<int, Release>): (r: seq<Item>)
    ensures |r| == |items|
  {
    seq(|items|, i requires 0 <= i < |items| => items[i].(releaseExists := items[i].releaseId in releases))
  }

  function Ids(items: seq<Item>): set<int> {
    set i | 0 <= i < |items| :: items[i].releaseId
  }

  function Tags(items: seq<Item>): set<Tag> {
    set i | 0 <= i < |items| :: items[i].tag
  }

  function WithoutAll(l: Ledger, items: seq<Item>): Ledger
    decreases |items|
  {
    if items == [] then l else WithoutAll(Without(l, items[0]), items[1..])
  }

  predicate Apart(items: seq<Item>) {
    forall i, j :: 0 <= i < j < |items| ==> items[i].releaseId != items[j].releaseId && items[i].tag != items[j].tag
  }

  predicate Accurate(items: seq<Item>, w: World) {
    forall i :: 0 <= i < |items| ==>
      !TagRefused(w, items[i]) && items[i].releaseExists == (items[i].releaseId in w.releases)
  }

  ghost predicate SubMap<K, V>(a: map<K, V>, b: map<K, V>) {
    forall k :: k in a ==> k in b && a[k] == b[k]
  }

  /** A world on the way from `w` to the removal of `items`: only those may be gone. */
  ghost predicate Between(w: World, items: seq<Item>, v: World) {
    && v == w.(releases := v.releases, tags := v.tags)
    && SubMap(v.releases, w.releases) && SubMap(w.releases - Ids(items), v.releases)
    && SubMap(v.tags, w.tags) && SubMap(w.tags - Tags(items), v.tags)
  }

  function Outcome(w: World, items: seq<Item>, l: Ledger): World {
    w.(releases := w.releases - Ids(items), tags := w.tags - Tags(items), ledger := WithoutAll(l, items))
  }

  lemma RemovalSteps(w: World, item: Item, calls: nat)
    requires item.releaseExists == (item.releaseId in w.releases)
    ensures Between(w, [item], Perform(w, Removal(w, item), calls))
    ensures calls >= |Removal(w, item)| ==> Perform(w, Removal(w, item), calls) == Removed(w, item)
  {
    var first := if item.releaseExists then [DeleteRelease(item.releaseId)] else [];
    var second := if item.tag in w.tags then [DeleteTag(item.tag)] else [];
    assert Ids([item]) == {item.releaseId} by { assert [item][0] == item; }
    assert Tags([item]) == {item.tag} by { assert [item][0] == item; }
    PerformConcat(w, first, second, calls);
    assert first == [] || first[1..] == [];
    assert second == [] || second[1..] == [];
    assert w.tags - {item.tag} == if item.tag in w.tags then w.tags - {item.tag} else w.tags;
  }

  lemma IdsSplit(items: seq<Item>)
    requires items != []
    ensures Ids(items) == {items[0].releaseId} + Ids(items[1..])
    ensures Tags(items) == {items[0].tag} + Tags(items[1..])
  {
    var rest := items[1..];
    forall i | 0 <= i < |items| ensures items[i].releaseId in {items[0].releaseId} + Ids(rest) && items[i].tag in {items[0].tag} + Tags(rest) {
      if i > 0 {
        assert rest[i - 1] == items[i];
      }
    }
    forall i | 0 <= i < |rest| ensures rest[i].releaseId in Ids(items) && rest[i].tag in Tags(items) {
      assert rest[i] == items[i + 1];
    }
  }

  lemma StillAccurate(w: World, items: seq<Item>)
    requires items != [] && Apart(items) && Accurate(items, w)
    ensures Apart(items[1..]) && Accurate(items[1..], Removed(w, items[0]))
  {
    var rest := items[1..];
    forall i | 0 <= i < |rest| ensures
      !TagRefused(Removed(w, items[0]), rest[i]) && rest[i].releaseExists == (rest[i].releaseId in Removed(w, items[0]).releases) {
      assert rest[i] == items[i + 1];
    }
    assert forall i, j :: 0 <= i < j < |rest| ==> rest[i] == items[i + 1] && rest[j] == items[j + 1];
  }

  lemma NothingToDelete(w: World, l: Ledger, calls: nat)
    ensures calls == 0 ==> Between(w, [], Perform(w, [CommitLedger(l)], calls))
    ensures calls > 0 ==> Perform(w, [CommitLedger(l)], calls) == Outcome(w, [], l)
  {
    PerformOne(w, CommitLedger(l));
    PerformAll(w, [CommitLedger(l)], if calls == 0 then 1 else calls);
    assert w.releases - Ids([]) == w.releases && w.tags - Tags([]) == w.tags;
  }

  lemma DeletionsStep(w: World, items: seq<Item>, l: Ledger)
    requires items != [] && !TagRefused(w, items[0])
    ensures var rest := Deletions(Removed(w, items[0]), items[1..], Without(l, items[0]));
      Deletions(w, items, l) == Cleaned(Plan(Removal(w, items[0]) + rest.plan.actions, rest.plan.ok), rest.ledger)
  {
  }

  /** The deletion loop, call by call: before the last call only doomed releases and tags
      are gone and the ledger is untouched; with it, all are gone and the ledger forgets them. */
  lemma {:induction false} DeletionsOutcome(w: World, items: seq<Item>, l: Ledger, calls: nat)
    requires Apart(items) && Accurate(items, w)
    ensures var cleaned := Deletions(w, items, l);
      && cleaned.plan.ok && cleaned.ledger == WithoutAll(l, items)
      && (calls < |cleaned.plan.actions| ==> Between(w, items, Perform(w, cleaned.plan.actions, calls)))
      && (calls >= |cleaned.plan.actions| ==> Perform(w, cleaned.plan.actions, calls) == Outcome(w, items, l))
    decreases |items|
  {
    if items == [] {
      NothingToDelete(w, l, calls);
    } else {
      var removal := Removal(w, items[0]);
      var removed := Removed(w, items[0]);
      var rest := Deletions(removed, items[1..], Without(l, items[0]));
      assert !TagRefused(w, items[0]) && items[0].releaseExists == (items[0].releaseId in w.releases);
      DeletionsStep(w, items, l);
      StillAccurate(w, items);
      assert WithoutAll(l, items) == WithoutAll(Without(l, items[0]), items[1..]);
      hide Deletions, Perform, Removal, Between, Outcome, Apart, Accurate, WithoutAll, Removed, Without, TagRefused;
      RemovalSteps(w, items[0], |removal|);
      RemovalSteps(w, items[0], calls);
      PerformConcat(w, removal, rest.plan.actions, calls);
      DeletionsOutcome(removed, items[1..], Without(l, items[0]), if calls <= |removal| then 0 else calls - |removal|);
      if calls < |removal| {
        WiderBetween(w, items, Perform(w, removal, calls));
      } else {
        OutcomeSplit(w, items, l);
        if calls - |removal| < |rest.plan.actions| {
          LaterBetween(w, items, Perform(removed, rest.plan.actions, calls - |removal|));
        }
      }
    }
  }

  lemma WiderBetween(w: World, items: seq<Item>, v: World)
    requires items != [] && Between(w, [items[0]], v)
    ensures Between(w, items, v)
  {
    IdsSplit(items);
    IdsSplit([items[0]]);
    assert items[0] == [items[0]][0];
  }

  lemma LaterBetween(w: World, items: seq<Item>, v: World)
    requires items != [] && Between(Removed(w, items[0]), items[1..], v)
    requires items[0].releaseExists == (items[0].releaseId in w.releases)
    ensures Between(w, items, v)
  {
    IdsSplit(items);
  }

  lemma OutcomeSplit(w: World, items: seq<Item>, l: Ledger)
    requires items != [] && items[0].releaseExists == (items[0].releaseId in w.releases)
    ensures Outcome(Removed(w, items[0]), items[1..], Without(l, items[0])) == Outcome(w, items, l)
  {
    IdsSplit(items);
    assert w.releases - Ids(items) == Removed(w, items[0]).releases - Ids(items[1..]);
    assert w.tags - Tags(items) == Removed(w, items[0]).tags - Tags(items[1..]);
  }

  // ----- the plan is the doom, located on the remote

  lemma {:induction false} PlanLocates(w: World, gens: seq<Generation>, now: Time)
    ensures var plan := PlanOf(w.ledger, gens, Listings(w), now);
      plan.Ok? ==> plan.value == Located(DoomedGenerations(w.ledger, gens, now), w.releases)
  {
    if gens != [] {
      PlanLocates(w, gens[..|gens| - 1], now);
      hide Removable;
    }
  }

  lemma CleanLocates(w: World)
    requires CleanItems(w).Ok?
    ensures CleanItems(w).value == Located(Doom(w.ledger, w.now), w.releases)
  {
    PlanLocates(w, w.ledger.generations, w.now);
  }

  lemma RemovableLater(l: Ledger, g: Generation, now: Time, later: Time)
    requires now <= later && Removable(l, g, now)
    ensures Removable(l, g, later)
  {
  }

  lemma {:induction false} PlanReads(l: Ledger, gens: seq<Generation>, remote: map<int, Listed>, now: Time)
    ensures PlanOf(l, gens, remote, now).Ok? <==> forall g :: g in gens && Removable(l, g, now) ==> !Drifted(remote, g)
  {
    if gens != [] {
      var front, last := gens[..|gens| - 1], gens[|gens| - 1];
      PlanReads(l, front, remote, now);
      assert gens == front + [last];
      hide Removable, Drifted;
      assert forall g :: g in gens <==> g in front || g == last;
    }
  }

  /** If the cleanup can read the remote at a later time, it can also read it now, and can
      still read it after some of the releases are gone. */
  lemma CleanReadsEarlier(w: World, v: World, now: Time, later: Time)
    requires now <= later && SubMap(v.releases, w.releases) && v.ledger == w.ledger
    requires CleanItems(At(w, later)).Ok?
    ensures CleanItems(At(v, now)).Ok?
  {
    PlanReads(w.ledger, w.ledger.generations, Listings(At(w, later)), later);
    PlanReads(v.ledger, v.ledger.generations, Listings(At(v, now)), now);
    hide PlanOf, Valid, Kept;
  }

  lemma {:induction false} DoomGrowsGenerations(l: Ledger, gens: seq<Generation>, now: Time, later: Time)
    requires now <= later
    ensures forall it :: it in DoomedGenerations(l, gens, now) ==> it in DoomedGenerations(l, gens, later)
  {
    if gens != [] {
      DoomGrowsGenerations(l, gens[..|gens| - 1], now, later);
      if Removable(l, gens[|gens| - 1], now) {
        RemovableLater(l, gens[|gens| - 1], now, later);
      }
      hide Removable;
    }
  }

  /** The plan only grows with time. */
  lemma DoomGrows(l: Ledger, now: Time, later: Time)
    requires now <= later
    ensures forall it :: it in Doom(l, now) ==> it in Doom(l, later)
    ensures Ids(Doom(l, now)) <= Ids(Doom(l, later)) && Tags(Doom(l, now)) <= Tags(Doom(l, later))
  {
    DoomGrowsGenerations(l, l.generations, now, later);
    var small, large := Doom(l, now), Doom(l, later);
    forall it | it in small ensures it in large {
    }
    MembersDecide(small, large);
  }

  lemma MembersDecide(small: seq<Item>, large: seq<Item>)
    requires forall it :: it in small ==> it in large
    ensures Ids(small) <= Ids(large) && Tags(small) <= Tags(large)
  {
    forall i | 0 <= i < |small| ensures small[i].releaseId in Ids(large) && small[i].tag in Tags(large) {
      assert small[i] in small;
      var j :| 0 <= j < |large| && large[j] == small[i];
    }
  }

  /** Only tracked items are doomed: withdrawn generations and the draft, after 48 hours. */
  lemma {:induction false} DoomedGenerationsTracked(l: Ledger, gens: seq<Generation>, now: Time)
    ensures forall it :: it in DoomedGenerations(l, gens, now) <==>
      exists g :: g in gens && Removable(l, g, now) && it == Item(g.releaseId, g.tag, g.tagCommit, false, false)
  {
    if gens != [] {
      var front, last := gens[..|gens| - 1], gens[|gens| - 1];
      DoomedGenerationsTracked(l, front, now);
      hide Removable;
      var mine := Item(last.releaseId, last.tag, last.tagCommit, false, false);
      assert gens == front + [last];
      forall it | it in DoomedGenerations(l, gens, now)
        ensures exists g :: g in gens && Removable(l, g, now) && it == Item(g.releaseId, g.tag, g.tagCommit, false, false) {
        if it in DoomedGenerations(l, front, now) {
          var g :| g in front && Removable(l, g, now) && it == Item(g.releaseId, g.tag, g.tagCommit, false, false);
          assert g in gens;
        } else {
          assert last in gens && it == mine;
        }
      }
      forall g | g in gens && Removable(l, g, now)
        ensures Item(g.releaseId, g.tag, g.tagCommit, false, false) in DoomedGenerations(l, gens, now) {
        assert g in front || g == last;
      }
    }
  }

  // ----- what the ledger keeps

  function Keeping(gens: seq<Generation>, gone: set<Tag>): seq<Generation> {
    if gens == [] then []
    else
      var rest := Keeping(gens[..|gens| - 1], gone);
      if gens[|gens| - 1].tag in gone then rest else rest + [gens[|gens| - 1]]
  }

  function GenerationTags(items: seq<Item>): set<Tag> {
    set i | 0 <= i < |items| && !items[i].pending :: items[i].tag
  }

  predicate HasDraft(items: seq<Item>) {
    exists i :: 0 <= i < |items| && items[i].pending
  }

  function Settled(l: Ledger, items: seq<Item>): Ledger {
    l.(generations := Keeping(l.generations, GenerationTags(items)),
       pending := if HasDraft(items) then None else l.pending)
  }

  lemma {:induction false} DroppingKeeps(gens: seq<Generation>, tag: Tag)
    ensures Dropping(gens, tag) == Keeping(gens, {tag})
  {
    if gens != [] {
      DroppingKeeps(gens[..|gens| - 1], tag);
    }
  }

  lemma {:induction false} KeepingTwice(gens: seq<Generation>, a: set<Tag>, b: set<Tag>)
    ensures Keeping(Keeping(gens, a), b) == Keeping(gens, a + b)
  {
    if gens != [] {
      var front, last := gens[..|gens| - 1], gens[|gens| - 1];
      KeepingTwice(front, a, b);
      var kept := Keeping(front, a);
      assert (kept + [last])[..|kept|] == kept;
    }
  }

  lemma {:induction false} KeepingNothing(gens: seq<Generation>)
    ensures Keeping(gens, {}) == gens
  {
    if gens != [] {
      KeepingNothing(gens[..|gens| - 1]);
    }
  }

  lemma {:induction false} KeepingMembers(gens: seq<Generation>, gone: set<Tag>)
    ensures forall g :: g in Keeping(gens, gone) <==> g in gens && g.tag !in gone
    ensures Distinct(gens) ==> Distinct(Keeping(gens, gone))
  {
    if gens != [] {
      var front, last := gens[..|gens| - 1], gens[|gens| - 1];
      KeepingMembers(front, gone);
      assert gens == front + [last];
      assert forall g :: g in gens <==> g in front || g == last;
      if Distinct(gens) {
        var kept := Keeping(front, gone);
        forall i | 0 <= i < |kept| ensures kept[i].tag != last.tag && kept[i].releaseId != last.releaseId {
          assert kept[i] in front;
        }
      }
    }
  }

  lemma {:induction false} WithoutAllSettles(l: Ledger, items: seq<Item>)
    ensures WithoutAll(l, items) == Settled(l, items)
    decreases |items|
  {
    if items == [] {
      assert GenerationTags(items) == {};
      KeepingNothing(l.generations);
    } else {
      var first, rest := items[0], items[1..];
      WithoutAllSettles(Without(l, first), rest);
      DroppingKeeps(l.generations, first.tag);
      SettlingParts(items);
      KeepingTwice(l.generations, {first.tag}, GenerationTags(rest));
      if first.pending {
        assert GenerationTags(items) == GenerationTags(rest);
      } else {
        assert GenerationTags(items) == {first.tag} + GenerationTags(rest);
      }
    }
  }

  lemma SettlingParts(items: seq<Item>)
    requires items != []
    ensures GenerationTags(items) == (if items[0].pending then {} else {items[0].tag}) + GenerationTags(items[1..])
    ensures HasDraft(items) <==> items[0].pending || HasDraft(items[1..])
  {
    var rest := items[1..];
    forall i | 0 <= i < |items| && !items[i].pending
      ensures items[i].tag in (if items[0].pending then {} else {items[0].tag}) + GenerationTags(rest) {
      assert i > 0 ==> rest[i - 1] == items[i];
    }
    forall i | 0 <= i < |rest| && !rest[i].pending ensures rest[i].tag in GenerationTags(items) {
      assert rest[i] == items[i + 1];
    }
    if HasDraft(items) && !items[0].pending {
      var i :| 0 <= i < |items| && items[i].pending;
      assert rest[i - 1] == items[i];
    }
    if HasDraft(rest) {
      var i :| 0 <= i < |rest| && rest[i].pending;
      assert items[i + 1] == rest[i];
    }
  }

  /** Locating items on the remote changes neither what they name nor what they leave. */
  lemma LocatedSame(items: seq<Item>, releases: map<int, Release>)
    ensures Ids(Located(items, releases)) == Ids(items) && Tags(Located(items, releases)) == Tags(items)
    ensures GenerationTags(Located(items, releases)) == GenerationTags(items)
    ensures HasDraft(Located(items, releases)) <==> HasDraft(items)
    ensures Apart(items) ==> Apart(Located(items, releases))
  {
    var at := Located(items, releases);
    assert forall i :: 0 <= i < |items| ==>
      at[i].releaseId == items[i].releaseId && at[i].tag == items[i].tag && at[i].pending == items[i].pending;
    forall i | 0 <= i < |items| && items[i].pending ensures HasDraft(at) {
      assert at[i].pending;
    }
    forall i | 0 <= i < |at| && at[i].pending ensures HasDraft(items) {
      assert items[i].pending;
    }
  }

  lemma SameMembers(a: seq<Item>, b: seq<Item>, c: seq<Item>)
    requires forall it :: it in c <==> it in a || it in b
    ensures Ids(c) == Ids(a) + Ids(b) && Tags(c) == Tags(a) + Tags(b)
    ensures GenerationTags(c) == GenerationTags(a) + GenerationTags(b)
    ensures HasDraft(c) <==> HasDraft(a) || HasDraft(b)
  {
    assert forall i :: 0 <= i < |c| ==> c[i] in c;
    assert forall i :: 0 <= i < |a| ==> a[i] in a && a[i] in c;
    assert forall i :: 0 <= i < |b| ==> b[i] in b && b[i] in c;
  }

  // ----- crash and rerun

  /** The draft is not one of the published generations. */
  predicate DraftApart(l: Ledger) {
    l.pending.Some? ==> forall g :: g in l.generations ==>
      g.tag != l.pending.value.tag && g.releaseId != l.pending.value.releaseId
  }

  predicate Pins(w: World, items: seq<Item>) {
    forall it :: it in items ==> it.tag in w.tags ==> w.tags[it.tag] == it.tagCommit
  }

  /** Nothing would stop a cleanup at `now`: the ledger is accepted, the remote shows the
      doomed items unchanged, and the channel is verified. */
  predicate Cleanable(w: World, now: Time) {
    && Valid(w.ledger) && DraftApart(w.ledger)
    && CleanItems(At(w, now)).Ok?
    && ChannelAssured(w.ledger, w.pointer)
    && Pins(w, Doom(w.ledger, now))
  }

  ghost function Cleaning(w: World, now: Time, calls: nat): World {
    Perform(At(w, now), Clean(At(w, now), true, true).plan.actions, calls)
  }

  /** A cleanup at `now` that is not interrupted. */
  ghost function Finished(w: World, now: Time): World {
    Cleaning(w, now, |Clean(At(w, now), true, true).plan.actions|)
  }

  lemma DoomedMembers(l: Ledger, now: Time)
    ensures forall it :: it in Doom(l, now) <==>
      (exists g :: g in l.generations && Removable(l, g, now) && it == Item(g.releaseId, g.tag, g.tagCommit, false, false))
      || it in DoomedDraft(l, now)
  {
    DoomedGenerationsTracked(l, l.generations, now);
  }

  lemma {:induction false} DoomedGenerationsApart(l: Ledger, gens: seq<Generation>, now: Time)
    requires Distinct(gens)
    ensures Apart(DoomedGenerations(l, gens, now))
  {
    if gens != [] {
      var front, last := gens[..|gens| - 1], gens[|gens| - 1];
      DoomedGenerationsApart(l, front, now);
      DoomedGenerationsTracked(l, front, now);
      var d := DoomedGenerations(l, front, now);
      hide Removable;
      forall i | 0 <= i < |d| ensures d[i].tag != last.tag && d[i].releaseId != last.releaseId {
        assert d[i] in d;
      }
    }
  }

  lemma DoomApart(l: Ledger, now: Time)
    requires Valid(l) && DraftApart(l)
    ensures Apart(Doom(l, now))
    ensures forall it :: it in Doom(l, now) ==> Owned(it.tag)
  {
    var d := DoomedGenerations(l, l.generations, now);
    DoomedGenerationsApart(l, l.generations, now);
    DoomedGenerationsTracked(l, l.generations, now);
    hide Removable;
    assert forall i :: 0 <= i < |d| ==> d[i] in d;
  }

  lemma DoomAccurate(w: World, now: Time)
    requires Cleanable(w, now)
    ensures var items := Located(Doom(w.ledger, now), w.releases);
      CleanItems(At(w, now)) == Ok(items) && Apart(items) && Accurate(items, At(w, now))
  {
    var doom := Doom(w.ledger, now);
    CleanLocates(At(w, now));
    DoomApart(w.ledger, now);
    LocatedSame(doom, w.releases);
    hide Doom, CleanItems, Valid, ChannelAssured;
    assert forall i :: 0 <= i < |doom| ==> doom[i] in doom;
  }

  /** One cleanup, whole or cut: either it only removed doomed things, or it is complete. */
  lemma OneCleaning(w: World, now: Time, calls: nat)
    requires Cleanable(w, now)
    ensures var doom := Doom(w.ledger, now);
      && Clean(At(w, now), true, true).plan.ok
      && (Between(At(w, now), doom, Cleaning(w, now, calls)) || Cleaning(w, now, calls) == Outcome(At(w, now), doom, w.ledger))
      && Finished(w, now) == Outcome(At(w, now), doom, w.ledger)
  {
    var doom := Doom(w.ledger, now);
    var items := Located(doom, w.releases);
    DoomAccurate(w, now);
    LocatedSame(doom, w.releases);
    WithoutAllSettles(w.ledger, items);
    WithoutAllSettles(w.ledger, doom);
    hide Doom, CleanItems, Located, WithoutAll, Settled, ChannelAssured, Valid;
    if items == [] {
      NoDoom(w, now, items);
    } else {
      DeletionsOutcome(At(w, now), items, w.ledger, calls);
      DeletionsOutcome(At(w, now), items, w.ledger, |Clean(At(w, now), true, true).plan.actions|);
    }
    hide Deletions;
  }

  lemma NoDoom(w: World, now: Time, items: seq<Item>)
    requires items == []
    ensures Between(At(w, now), items, At(w, now)) && Outcome(At(w, now), items, w.ledger) == At(w, now)
  {
    assert w.releases - Ids(items) == w.releases && w.tags - Tags(items) == w.tags;
  }

  // ----- after a completed cleanup, the later doom is what was left of it

  lemma {:induction false} OfferedKeeping(gens: seq<Generation>, gone: set<Tag>)
    requires forall g :: g in gens && g.tag in gone ==> Withdrawn(g)
    ensures Offered(Keeping(gens, gone)) == Offered(gens)
  {
    if gens != [] {
      var front, last := gens[..|gens| - 1], gens[|gens| - 1];
      assert forall g :: g in front ==> g in gens;
      OfferedKeeping(front, gone);
      var kept := Keeping(front, gone);
      assert (kept + [last])[..|kept|] == kept;
    }
  }

  lemma DoomedTagsWithdrawn(l: Ledger, now: Time)
    requires Valid(l)
    ensures forall g :: g in l.generations ==> (g.tag in GenerationTags(Doom(l, now)) <==> Removable(l, g, now))
  {
    DoomedMembers(l, now);
    var doom := Doom(l, now);
    hide Removable, Doom;
    forall g | g in l.generations ensures g.tag in GenerationTags(doom) <==> Removable(l, g, now) {
      if Removable(l, g, now) {
        var it := Item(g.releaseId, g.tag, g.tagCommit, false, false);
        assert it in doom;
        var i :| 0 <= i < |doom| && doom[i] == it;
        assert doom[i].tag in GenerationTags(doom);
      }
      if g.tag in GenerationTags(doom) {
        var i :| 0 <= i < |doom| && !doom[i].pending && doom[i].tag == g.tag;
        assert doom[i] in doom;
        var h :| h in l.generations && Removable(l, h, now) && doom[i] == Item(h.releaseId, h.tag, h.tagCommit, false, false);
        assert h == g;
      }
    }
  }

  lemma RemovableAfter(l: Ledger, now: Time, g: Generation, later: Time)
    requires Valid(l)
    ensures Removable(Settled(l, Doom(l, now)), g, later) <==> Removable(l, g, later)
  {
    DoomedTagsWithdrawn(l, now);
    assert forall h :: h in l.generations && h.tag in GenerationTags(Doom(l, now)) ==> Withdrawn(h);
    OfferedKeeping(l.generations, GenerationTags(Doom(l, now)));
    hide Doom, Valid;
  }

  lemma DoomSplits(l: Ledger, now: Time, later: Time)
    requires Valid(l) && now <= later
    ensures var after := Settled(l, Doom(l, now));
      forall it :: it in Doom(l, later) <==> it in Doom(l, now) || it in Doom(after, later)
  {
    var after := Settled(l, Doom(l, now));
    DoomedMembers(l, now);
    DoomedMembers(l, later);
    DoomedMembers(after, later);
    DoomedTagsWithdrawn(l, now);
    KeepingMembers(l.generations, GenerationTags(Doom(l, now)));
    forall g ensures Removable(after, g, later) <==> Removable(l, g, later) {
      RemovableAfter(l, now, g, later);
    }
    DraftSplits(l, now, later);
    DoomGrows(l, now, later);
    hide Removable, Doom, Valid, DoomedDraft;
    forall it ensures it in Doom(l, later) <==> it in Doom(l, now) || it in Doom(after, later) {
    }
  }

  lemma DraftSplits(l: Ledger, now: Time, later: Time)
    requires Valid(l) && now <= later
    ensures var after := Settled(l, Doom(l, now));
      && after.pending == (if PendingExpired(l, now) then None else l.pending)
      && forall it :: it in DoomedDraft(l, later) <==> it in DoomedDraft(l, now) || it in DoomedDraft(after, later)
  {
    var doom := Doom(l, now);
    DoomedGenerationsTracked(l, l.generations, now);
    hide Removable, Valid;
    if PendingExpired(l, now) {
      assert doom[|doom| - 1].pending;
    } else {
      assert forall i :: 0 <= i < |doom| ==> doom[i] in DoomedGenerations(l, l.generations, now);
    }
  }

  lemma SettledValid(l: Ledger, now: Time)
    requires Valid(l) && DraftApart(l)
    ensures Valid(Settled(l, Doom(l, now))) && DraftApart(Settled(l, Doom(l, now)))
  {
    var after := Settled(l, Doom(l, now));
    DoomedTagsWithdrawn(l, now);
    KeepingMembers(l.generations, GenerationTags(Doom(l, now)));
    hide Doom;
    assert forall i :: 0 <= i < |after.generations| ==> after.generations[i] in after.generations;
    if l.current.Some? {
      var i :| 0 <= i < |l.generations| && l.generations[i].tag == l.current.value;
      assert !Removable(l, l.generations[i], now);
      assert l.generations[i] in after.generations;
    }
  }

  /** A cleanup that was cut off or completed earlier leaves a world a later cleanup can
      finish, and the finish is the one an uninterrupted later cleanup would reach. */
  lemma CleanResumes(w: World, now: Time, calls: nat, later: Time)
    requires now <= later && Cleanable(w, later)
    ensures Cleanable(Cleaning(w, now, calls), later)
    ensures Finished(Cleaning(w, now, calls), later) == Finished(w, later)
  {
    CleanableEarlier(w, now, later);
    OneCleaning(w, now, calls);
    var v := Cleaning(w, now, calls);
    hide Cleaning, Finished;
    if v.ledger == w.ledger && Between(At(w, now), Doom(w.ledger, now), v) {
      CutResumes(w, v, now, later);
    } else {
      DoneResumes(w, v, now, later);
    }
  }

  lemma CleanableEarlier(w: World, now: Time, later: Time)
    requires now <= later && Cleanable(w, later)
    ensures Cleanable(w, now)
  {
    CleanReadsEarlier(w, w, now, later);
    DoomGrows(w.ledger, now, later);
    hide CleanItems, Doom, Valid, ChannelAssured;
  }

  lemma CutOutcome(w: World, v: World, first: seq<Item>, whole: seq<Item>, later: Time)
    requires Between(w, first, v) && Ids(first) <= Ids(whole) && Tags(first) <= Tags(whole)
    ensures Outcome(At(v, later), whole, v.ledger) == Outcome(At(w, later), whole, w.ledger)
  {
    hide WithoutAll;
    assert v.releases - Ids(whole) == w.releases - Ids(whole);
    assert v.tags - Tags(whole) == w.tags - Tags(whole);
  }

  lemma CutCleanable(w: World, v: World, now: Time, later: Time)
    requires now <= later && Cleanable(w, later) && Between(At(w, now), Doom(w.ledger, now), v)
    ensures Cleanable(v, later)
  {
    CleanReadsEarlier(w, v, later, later);
    hide CleanItems, Doom, Valid, ChannelAssured, DraftApart;
  }

  lemma CutResumes(w: World, v: World, now: Time, later: Time)
    requires now <= later && Cleanable(w, later) && Between(At(w, now), Doom(w.ledger, now), v)
    ensures Cleanable(v, later) && Finished(v, later) == Finished(w, later)
  {
    CutCleanable(w, v, now, later);
    DoomGrows(w.ledger, now, later);
    OneCleaning(w, later, 0);
    OneCleaning(v, later, 0);
    CutOutcome(At(w, now), v, Doom(w.ledger, now), Doom(w.ledger, later), later);
    assert v.ledger == w.ledger;
    hide CleanItems, Doom, Finished, Cleaning, Cleanable, Outcome;
  }

  lemma DoneOutcome(w: World, v: World, first: seq<Item>, rest: seq<Item>, whole: seq<Item>, later: Time)
    requires v == Outcome(w, first, w.ledger)
    requires Ids(whole) == Ids(first) + Ids(rest) && Tags(whole) == Tags(first) + Tags(rest)
    requires GenerationTags(whole) == GenerationTags(first) + GenerationTags(rest)
    requires HasDraft(whole) <==> HasDraft(first) || HasDraft(rest)
    ensures Outcome(At(v, later), rest, v.ledger) == Outcome(At(w, later), whole, w.ledger)
  {
    WithoutAllSettles(w.ledger, first);
    WithoutAllSettles(v.ledger, rest);
    WithoutAllSettles(w.ledger, whole);
    KeepingTwice(w.ledger.generations, GenerationTags(first), GenerationTags(rest));
    hide WithoutAll, Keeping, GenerationTags, HasDraft, Ids, Tags;
    assert v.releases - Ids(rest) == w.releases - Ids(whole);
    assert v.tags - Tags(rest) == w.tags - Tags(whole);
  }

  lemma DoneResumes(w: World, v: World, now: Time, later: Time)
    requires now <= later && Cleanable(w, later) && v == Outcome(At(w, now), Doom(w.ledger, now), w.ledger)
    ensures Cleanable(v, later) && Finished(v, later) == Finished(w, later)
  {
    var first, whole := Doom(w.ledger, now), Doom(w.ledger, later);
    WithoutAllSettles(w.ledger, first);
    var rest := Doom(v.ledger, later);
    assert Valid(w.ledger);
    hide Doom, Outcome, Cleanable, Finished, Cleaning, Valid, WithoutAll;
    DoomSplits(w.ledger, now, later);
    assert v.ledger == Settled(w.ledger, first) by {
      OutcomeLedger(At(w, now), first);
    }
    SameMembers(first, rest, whole);
    DoneCleanable(w, v, now, later);
    OneCleaning(w, later, 0);
    OneCleaning(v, later, 0);
    DoneOutcome(At(w, now), v, first, rest, whole, later);
  }

  lemma OutcomeLedger(w: World, items: seq<Item>)
    ensures Outcome(w, items, w.ledger).ledger == WithoutAll(w.ledger, items)
  {
  }

  /** A cleanup can read every generation left after an earlier one. */
  lemma DoneReads(w: World, v: World, now: Time, later: Time)
    requires now <= later && Cleanable(w, later) && v == Outcome(At(w, now), Doom(w.ledger, now), w.ledger)
    requires v.ledger == Settled(w.ledger, Doom(w.ledger, now))
    ensures PlanOf(v.ledger, v.ledger.generations, Listings(At(v, later)), later).Ok?
  {
    var l, after := w.ledger, v.ledger;
    KeepingMembers(l.generations, GenerationTags(Doom(l, now)));
    PlanReads(l, l.generations, Listings(At(w, later)), later);
    PlanReads(after, after.generations, Listings(At(v, later)), later);
    hide Doom, Valid, PlanOf, Removable, PendingItems, ChannelAssured;
    forall g | g in after.generations && Removable(after, g, later) ensures !Drifted(Listings(At(v, later)), g) {
      RemovableAfter(l, now, g, later);
    }
  }

  lemma DonePending(w: World, v: World, now: Time, later: Time)
    requires now <= later && Cleanable(w, later) && v == Outcome(At(w, now), Doom(w.ledger, now), w.ledger)
    requires v.ledger == Settled(w.ledger, Doom(w.ledger, now))
    ensures PendingItems(v.ledger, Listings(At(v, later)), later).Ok?
    ensures ChannelAssured(v.ledger, v.pointer)
  {
    DraftSplits(w.ledger, now, later);
    hide Doom, Valid, PlanOf, Removable;
  }

  lemma DonePins(w: World, v: World, now: Time, later: Time)
    requires now <= later && Cleanable(w, later) && v == Outcome(At(w, now), Doom(w.ledger, now), w.ledger)
    requires v.ledger == Settled(w.ledger, Doom(w.ledger, now))
    ensures Pins(v, Doom(v.ledger, later))
  {
    DoomSplits(w.ledger, now, later);
    hide Doom, Valid, CleanItems, WithoutAll, Settled, ChannelAssured;
  }

  lemma DoneCleanable(w: World, v: World, now: Time, later: Time)
    requires now <= later && Cleanable(w, later) && v == Outcome(At(w, now), Doom(w.ledger, now), w.ledger)
    ensures Cleanable(v, later)
  {
    OutcomeLedger(At(w, now), Doom(w.ledger, now));
    WithoutAllSettles(w.ledger, Doom(w.ledger, now));
    SettledValid(w.ledger, now);
    hide Doom, Valid, Outcome, WithoutAll, Settled;
    DoneReads(w, v, now, later);
    DonePending(w, v, now, later);
    DonePins(w, v, now, later);
    hide PlanOf, PendingItems, ChannelAssured, Pins, DraftApart;
  }

  // ----- any number of interrupted runs

  /** One interrupted run: when it started and how many calls it completed. */
  datatype Attempt = Attempt(now: Time, calls: nat)

  ghost function Retried(w: World, attempts: seq<Attempt>): World
    decreases |attempts|
  {
    if attempts == [] then w else Retried(Cleaning(w, attempts[0].now, attempts[0].calls), attempts[1..])
  }

  /** The first cleanup that completes, after any number of interrupted ones at any earlier
      times, leaves the releases, tags and ledger of one uninterrupted run. */
  lemma {:induction false} CleanupIdempotent(w: World, attempts: seq<Attempt>, now: Time)
    requires Cleanable(w, now)
    requires forall i :: 0 <= i < |attempts| ==> attempts[i].now <= now
    ensures Clean(At(Retried(w, attempts), now), true, true).plan.ok
    ensures Finished(Retried(w, attempts), now) == Finished(w, now)
    decreases |attempts|
  {
    hide Cleanable, Cleaning, Finished;
    if attempts == [] {
      OneCleaning(w, now, 0);
    } else {
      CleanResumes(w, attempts[0].now, attempts[0].calls, now);
      CleanupIdempotent(Cleaning(w, attempts[0].now, attempts[0].calls), attempts[1..], now);
    }
  }

  /** What that run leaves: exactly the doomed items are gone, everything else is untouched. */
  lemma CleanupExact(w: World, now: Time)
    requires Cleanable(w, now)
    ensures var v := Finished(w, now);
      var doom := Doom(w.ledger, now);
      && (forall id :: id in v.releases <==> id in w.releases && id !in Ids(doom))
      && (forall id :: id in v.releases ==> v.releases[id] == w.releases[id])
      && (forall tag :: tag in v.tags <==> tag in w.tags && tag !in Tags(doom))
      && (forall g :: g in v.ledger.generations <==> g in w.ledger.generations && !Removable(w.ledger, g, now))
      && v.ledger.pending == (if PendingExpired(w.ledger, now) then None else w.ledger.pending)
      && Valid(v.ledger)
  {
    OneCleaning(w, now, 0);
    WithoutAllSettles(w.ledger, Doom(w.ledger, now));
    KeepingMembers(w.ledger.generations, GenerationTags(Doom(w.ledger, now)));
    DoomedTagsWithdrawn(w.ledger, now);
    DraftSplits(w.ledger, now, now);
    SettledValid(w.ledger, now);
    hide CleanItems, Doom, Valid, ChannelAssured, Cleaning, WithoutAll, Removable, DoomedDraft;
  }
}
