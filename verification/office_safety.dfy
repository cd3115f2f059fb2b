/** Every operation, cut off after any number of its calls, keeps the channel invariant. */
module OfficeSafety {
  import opened OfficeModel
  import opened OfficeRemote
  import opened OfficeRelease
  import opened OfficeInvariant

  // ----- promotion

  lemma {:induction false} OfferedAll(gens: seq<Generation>)
    requires forall i :: 0 <= i < |gens| ==> !Withdrawn(gens[i])
    ensures Offered(gens) == gens
  {
    if gens != [] {
      OfferedAll(gens[..|gens| - 1]);
    }
  }

  lemma {:induction false} DescendingReverses(gens: seq<Generation>)
    requires forall i, j :: 0 <= i < j < |gens| ==> gens[i].number < gens[j].number
    ensures |Descending(gens)| == |gens|
    ensures forall i :: 0 <= i < |gens| ==> Descending(gens)[i] == gens[|gens| - 1 - i]
  {
    if gens != [] {
      var front, last := gens[..|gens| - 1], gens[|gens| - 1];
      DescendingReverses(front);
      var d := Descending(front);
      assert d != [] ==> d[0] == front[|front| - 1];
      assert Descending(gens) == [last] + d;
      hide Descending, Insert;
      assert forall i :: 0 <= i < |front| ==> d[i] == front[|front| - 1 - i] == gens[|gens| - 2 - i];
    }
  }

  lemma OpenRunActive(gens: seq<Generation>)
    requires forall i, j :: 0 <= i < j < |gens| ==> gens[i].number < gens[j].number
    requires forall i :: 0 <= i < |gens| ==> !Withdrawn(gens[i])
    ensures |Descending(Offered(gens))| == |gens|
    ensures forall i :: 0 <= i < |gens| ==> Descending(Offered(gens))[i] == gens[|gens| - 1 - i]
  {
    OfferedAll(gens);
    DescendingReverses(gens);
  }

  function Retired(gens: seq<Generation>, g: Generation, at: Time): seq<Generation> {
    if |gens| < KEEP then gens + [g] else [gens[0].(withdrawnAt := Some(at))] + gens[1..] + [g]
  }

  ghost predicate Ready(l: Ledger, g: Generation) {
    && Shaped(l) && |l.generations| <= KEEP && ValidRecord(g) && !Withdrawn(g)
    && forall i :: 0 <= i < |l.generations| ==>
         l.generations[i].number < g.number && l.generations[i].releaseId != g.releaseId
  }

  lemma RetiredParts(gens: seq<Generation>, g: Generation, at: Time)
    requires |gens| <= KEEP && !Withdrawn(g)
    requires forall i :: 0 <= i < |gens| ==> !Withdrawn(gens[i])
    ensures |Retired(gens, g, at)| == |gens| + 1 && Retired(gens, g, at)[|gens|] == g
    ensures forall i :: 0 <= i < |gens| ==>
      Retired(gens, g, at)[i] == if i == 0 && |gens| == KEEP then gens[i].(withdrawnAt := Some(at)) else gens[i]
  {
  }

  lemma GrownIsValid(l: Ledger, g: Generation, cycle: int)
    requires Ready(l, g)
    ensures Valid(Appended(l, g, cycle))
  {
    var gens := l.generations + [g];
    assert gens[|l.generations|] == g;
    assert forall i :: 0 <= i < |l.generations| ==> gens[i] == l.generations[i];
  }

  lemma RetiredIsValid(l: Ledger, g: Generation, cycle: int, at: Time)
    requires Ready(l, g)
    ensures Valid(Appended(l, g, cycle))
    ensures Valid(Appended(l, g, cycle).(generations := Retired(l.generations, g, at)))
  {
    GrownIsValid(l, g, cycle);
    RetiredParts(l.generations, g, at);
    var base := l.generations + [g];
    var gens := Retired(l.generations, g, at);
    assert base[|l.generations|] == g;
    assert forall i :: 0 <= i < |gens| ==>
      gens[i] == base[i].(withdrawnAt := gens[i].withdrawnAt) && (Withdrawn(gens[i]) ==> i < |gens| - 1);
    hide Ready, Retired, Valid;
    WithdrawnValid(Appended(l, g, cycle), gens);
  }

  /** Withdrawing generations other than the last, the current one, leaves the ledger valid. */
  lemma WithdrawnValid(l: Ledger, gens: seq<Generation>)
    requires Valid(l) && l.generations != [] && l.current == Some(l.generations[|l.generations| - 1].tag)
    requires |gens| == |l.generations|
    requires forall i :: 0 <= i < |gens| ==>
      gens[i] == l.generations[i].(withdrawnAt := gens[i].withdrawnAt) && (Withdrawn(gens[i]) ==> i < |gens| - 1)
    ensures Valid(l.(generations := gens))
  {
  }

  lemma DroppedIsOldest(l: Ledger, g: Generation, cycle: int)
    requires Ready(l, g)
    ensures Dropped(Appended(l, g, cycle)) == if |l.generations| < KEEP then [] else [l.generations[0]]
  {
    hide Valid;
    OpenRunActive(l.generations + [g]);
  }

  lemma RetiredIsWithdraw(l: Ledger, g: Generation, cycle: int, at: Time)
    requires Ready(l, g)
    ensures var grown := Appended(l, g, cycle);
      Withdraw(grown.generations, Dropped(grown), at) == Retired(l.generations, g, at)
  {
    DroppedIsOldest(l, g, cycle);
    hide Dropped;
    var gens := l.generations + [g];
    var obsolete := if |l.generations| < KEEP then [] else [l.generations[0]];
    assert forall i :: 0 <= i < |gens| ==> gens[i].tag == gens[0].tag ==> i == 0;
    assert forall i :: 0 <= i < |gens| ==> (Listing(obsolete, gens[i].tag) <==> i == 0 && |l.generations| == KEEP) by {
      if |l.generations| == KEEP {
        assert obsolete[0].tag == gens[0].tag;
      }
    }
    hide Listing;
  }

  /** A promotion in a reachable ledger never raises; the fourth one retires the oldest. */
  lemma PromotionOf(l: Ledger, g: Generation, cycle: int, now: Time)
    requires Ready(l, g)
    ensures Promote(l, g, cycle, now) == Ok(Appended(l, g, cycle).(generations := Retired(l.generations, g, Recorded(now))))
  {
    RetiredIsValid(l, g, cycle, Recorded(now));
    RetiredIsWithdraw(l, g, cycle, Recorded(now));
    hide Valid;
  }

  ghost predicate Promotable(w: World, g: Generation) {
    && w.ledger.reservation.Some?
    && Tracks(w.ledger, g.releaseId)
    && g.tag == Office(w.ledger.reservation.value.generation) && g.number == g.tag.number
    && g.tagCommit == w.ledger.reservation.value.run.sha && g.withdrawnAt == None
  }

  /** The ledger a promotion commits, in a world where the promotion is due. */
  ghost function PromotedLedger(w: World, g: Generation, commit: Commit): Ledger
    requires w.ledger.reservation.Some?
  {
    Promoted(Appended(w.ledger, g, w.ledger.reservation.value.cycle).(
      generations := Retired(w.ledger.generations, g, Recorded(w.now))), commit, w.now)
  }

  lemma PromotionReady(w: World, g: Generation)
    requires Inv(w) && Promotable(w, g)
    ensures |w.ledger.generations| <= KEEP && ValidRecord(g)
    ensures forall i :: 0 <= i < |w.ledger.generations| ==>
      w.ledger.generations[i].number < g.number && w.ledger.generations[i].releaseId != g.releaseId
    ensures Promote(w.ledger, g, w.ledger.reservation.value.cycle, w.now) ==
      Ok(Appended(w.ledger, g, w.ledger.reservation.value.cycle).(generations := Retired(w.ledger.generations, g, Recorded(w.now))))
  {
    hide Catalogued, Pointed, Retained, Recalled, Spaced, Traced, Timely;
    assert forall i :: 0 <= i < |w.ledger.generations| ==> w.ledger.generations[i].releaseId != g.releaseId by {
      assert w.issued[g.releaseId] == g.tag;
    }
    PromotionOf(w.ledger, g, w.ledger.reservation.value.cycle, w.now);
  }

  lemma RetiredOrder(gens: seq<Generation>, g: Generation, at: Time)
    requires |gens| <= KEEP && !Withdrawn(g)
    requires forall i :: 0 <= i < |gens| ==> !Withdrawn(gens[i]) && gens[i].number < g.number
    requires forall i, j :: 0 <= i < j < |gens| ==> gens[i].number < gens[j].number
    ensures var r := Retired(gens, g, at);
      && (forall i, j :: 0 <= i < j < |r| ==> r[i].number < r[j].number)
      && (forall i :: 0 <= i < |r| ==> (Withdrawn(r[i]) <==> i == 0 && |r| == KEEP + 1))
  {
    RetiredParts(gens, g, at);
    hide Retired;
    var r := Retired(gens, g, at);
    assert forall i :: 0 <= i < |gens| ==> r[i].number == gens[i].number;
  }

  lemma OpenWhilePending(w: World)
    requires Inv(w) && w.ledger.pending.Some?
    ensures |w.ledger.generations| <= KEEP
    ensures forall i :: 0 <= i < |w.ledger.generations| ==>
      !Withdrawn(w.ledger.generations[i]) && Intact(w, w.ledger.generations[i])
  {
    hide Recalled, Spaced, Traced, Timely, Catalogued, Pinned, Pointed;
  }

  lemma PromotedValid(w: World, g: Generation, commit: Commit)
    requires Inv(w) && Promotable(w, g)
    ensures Valid(PromotedLedger(w, g, commit))
  {
    PromotionReady(w, g);
    OpenWhilePending(w);
    RetiredIsValid(w.ledger, g, w.ledger.reservation.value.cycle, Recorded(w.now));
    hide Inv, Retired, Promote, Appended;
  }

  lemma PromotedShape(w: World, g: Generation, commit: Commit)
    requires Inv(w) && Promotable(w, g)
    ensures Shaped(PromotedLedger(w, g, commit))
  {
    PromotedValid(w, g, commit);
    PromotionReady(w, g);
    OpenWhilePending(w);
    RetiredParts(w.ledger.generations, g, Recorded(w.now));
    assert forall i, j :: 0 <= i < j < |w.ledger.generations| ==> w.ledger.generations[i].number < w.ledger.generations[j].number by {
      hide Valid, Reserved, Timely, Pointed, Catalogued, Pinned, Retained, Recalled, Spaced, Traced;
    }
    RetiredOrder(w.ledger.generations, g, Recorded(w.now));
    hide Inv, Promote, Valid, Retired;
  }

  lemma PromotedReserved(w: World, g: Generation, commit: Commit)
    requires Inv(w) && Promotable(w, g)
    ensures Reserved(PromotedLedger(w, g, commit))
  {
    PromotionReady(w, g);
    OpenWhilePending(w);
    RetiredParts(w.ledger.generations, g, Recorded(w.now));
    hide Shaped, Retired, Timely, Pointed, Catalogued, Pinned, Retained, Recalled, Spaced, Traced, Promote, Valid;
  }

  lemma PromotedTimely(w: World, g: Generation, commit: Commit)
    requires Inv(w) && Promotable(w, g)
    ensures Timely(PromotedLedger(w, g, commit), w.now)
  {
    OpenWhilePending(w);
    RetiredParts(w.ledger.generations, g, Recorded(w.now));
    RecordedBounds(w.now);
    hide Shaped, Retired, Reserved, Pointed, Catalogued, Pinned, Retained, Recalled, Spaced, Traced;
  }

  lemma PromotedKept(w: World, g: Generation, commit: Commit)
    requires Inv(w) && Promotable(w, g) && Intact(w, g)
    ensures Retained(Apply(w, CommitPromotion(PromotedLedger(w, g, commit), Snapshot(commit, g.tag))))
  {
    var after := Apply(w, CommitPromotion(PromotedLedger(w, g, commit), Snapshot(commit, g.tag)));
    OpenWhilePending(w);
    RetiredParts(w.ledger.generations, g, Recorded(w.now));
    hide Inv, Retired;
    var gens := after.ledger.generations;
    forall i | 0 <= i < |gens| ensures Intact(after, gens[i]) {
      assert i < |gens| - 1 ==> Intact(w, w.ledger.generations[i]);
    }
  }

  lemma PromotedPinned(w: World, g: Generation, commit: Commit)
    requires Inv(w) && Promotable(w, g) && Intact(w, g)
    ensures var after := Apply(w, CommitPromotion(PromotedLedger(w, g, commit), Snapshot(commit, g.tag)));
      Pinned(after) && Catalogued(after)
  {
    OpenWhilePending(w);
    RetiredParts(w.ledger.generations, g, Recorded(w.now));
    hide Retired, Recalled, Spaced, Traced, Timely, Shaped, Reserved, Pointed, Retained;
  }

  lemma PromotedPointed(w: World, g: Generation, commit: Commit)
    requires Inv(w) && Promotable(w, g)
    requires commit in w.snapshots && w.snapshots[commit] == g.tag
    ensures Pointed(Apply(w, CommitPromotion(PromotedLedger(w, g, commit), Snapshot(commit, g.tag))))
  {
    hide Inv;
  }

  lemma PromotedRemembered(w: World, g: Generation, commit: Commit)
    requires Inv(w) && Promotable(w, g)
    ensures var after := Apply(w, CommitPromotion(PromotedLedger(w, g, commit), Snapshot(commit, g.tag)));
      Recalled(after) && Spaced(after.claims) && Traced(after)
  {
    hide Shaped, Reserved, Timely, Pointed, Catalogued, Pinned, Retained;
  }

  lemma PromotionKeeps(w: World, g: Generation, commit: Commit)
    requires Inv(w) && Promotable(w, g) && Intact(w, g)
    requires commit in w.snapshots && w.snapshots[commit] == g.tag
    ensures Inv(Apply(w, CommitPromotion(PromotedLedger(w, g, commit), Snapshot(commit, g.tag))))
  {
    PromotedShape(w, g, commit);
    PromotedReserved(w, g, commit);
    PromotedTimely(w, g, commit);
    PromotedKept(w, g, commit);
    PromotedPinned(w, g, commit);
    PromotedPointed(w, g, commit);
    PromotedRemembered(w, g, commit);
    hide Shaped, Reserved, Timely, Pointed, Catalogued, Pinned, Retained, Recalled, Spaced, Traced;
  }

  // ----- claims

  lemma RecordedMonotone(a: Time, b: Time)
    requires a <= b
    ensures Recorded(a) <= Recorded(b)
  {
  }

  lemma DueMeansClear(w: World, force: bool, d: Decision)
    requires Inv(w) && Decide(true, w.ledger, w.now, force) == Ok(d) && d.due
    ensures |w.ledger.generations| <= KEEP && w.ledger.pending == None
    ensures d.cycle == Cycle(w.ledger.epoch, w.now) && d.cycle >= 0
    ensures !force ==> d.cycle > w.ledger.completedCycle
    ensures !force && w.ledger.lastAttempt.Some? ==> w.now - w.ledger.lastAttempt.value >= RETRY
  {
    assert w.ledger.generations != [] ==>
      (Withdrawn(w.ledger.generations[0]) <==> |w.ledger.generations| == KEEP + 1);
  }

  lemma ClaimSpaces(w: World, c: Claim)
    requires Inv(w)
    requires c.time == w.now && c.generation >= w.ledger.nextGeneration && c.completed == w.ledger.completedCycle
    requires !c.forced && w.ledger.lastAttempt.Some? ==> w.now - w.ledger.lastAttempt.value >= RETRY
    ensures Spaced(w.claims + [c])
  {
    var claims := w.claims + [c];
    forall i | 0 <= i < |w.claims| ensures
      claims[i].generation < c.generation && claims[i].time <= c.time && claims[i].completed <= c.completed
      && (!c.forced ==> c.time - Recorded(claims[i].time) >= RETRY) {
      RecordedMonotone(w.claims[i].time, w.claims[|w.claims| - 1].time);
    }
  }

  lemma ClaimKeeps(w: World, run: Run, force: bool, generation: int, d: Decision)
    requires Inv(w) && Decide(true, w.ledger, w.now, force) == Ok(d) && d.due
    requires w.ledger.nextGeneration <= generation <= MAX_GENERATION
    ensures Inv(Apply(w, CommitClaim(Claimed(w.ledger, run, w.now, d.cycle, generation),
                                     Claim(w.now, generation, d.cycle, force, w.ledger.completedCycle))))
  {
    DueMeansClear(w, force, d);
    RecordedBounds(w.now);
    var claim := Claim(w.now, generation, d.cycle, force, w.ledger.completedCycle);
    var after := Apply(w, CommitClaim(Claimed(w.ledger, run, w.now, d.cycle, generation), claim));
    ClaimSpaces(w, claim);
    ClaimKeepsLedger(w, after.ledger, run, d.cycle, generation);
    ClaimKeepsRemote(w, after, run, d.cycle, generation, claim);
    hide Shaped, Reserved, Timely, Pointed, Catalogued, Pinned, Retained, Recalled, Spaced, Traced;
  }

  lemma ClaimKeepsLedger(w: World, l: Ledger, run: Run, cycle: int, generation: int)
    requires Inv(w) && w.ledger.nextGeneration <= generation <= MAX_GENERATION
    requires |w.ledger.generations| <= KEEP && w.ledger.pending == None && 0 <= cycle <= Cycle(w.ledger.epoch, w.now)
    requires l == Claimed(w.ledger, run, w.now, cycle, generation)
    ensures Shaped(l) && Reserved(l) && Timely(l, w.now)
  {
    hide Pointed, Catalogued, Pinned, Retained, Recalled, Spaced, Traced;
    RecordedBounds(w.now);
  }

  lemma ClaimKeepsRemote(w: World, after: World, run: Run, cycle: int, generation: int, claim: Claim)
    requires Inv(w) && w.ledger.nextGeneration <= generation <= MAX_GENERATION
    requires w.ledger.pending == None && cycle == Cycle(w.ledger.epoch, w.now)
    requires !claim.forced ==> cycle > w.ledger.completedCycle
    requires claim == Claim(w.now, generation, cycle, claim.forced, w.ledger.completedCycle)
    requires after == Apply(w, CommitClaim(Claimed(w.ledger, run, w.now, cycle, generation), claim))
    ensures Pointed(after) && Catalogued(after) && Pinned(after) && Retained(after) && Recalled(after) && Traced(after)
  {
    hide Reserved, Timely, Spaced;
  }

  // ----- cleanup

  ghost predicate Obsolete(w: World) {
    |w.ledger.generations| == KEEP + 1 && Expired(w.ledger.generations[0], w.now)
  }

  function ObsoleteItem(w: World): Item
    requires w.ledger.generations != []
  {
    ItemOf(w.ledger.generations[0], Listings(w))
  }

  function DraftItem(w: World): Item
    requires w.ledger.pending.Some?
  {
    var p := w.ledger.pending.value;
    Item(p.releaseId, p.tag, p.tagCommit, p.releaseId in w.releases, true)
  }

  ghost function ReachableItems(w: World): seq<Item> {
    if Obsolete(w) then [ObsoleteItem(w)] else if PendingExpired(w.ledger, w.now) then [DraftItem(w)] else []
  }

  lemma OnlyOldestRemovable(w: World, i: nat)
    requires Inv(w) && i < |w.ledger.generations|
    ensures Removable(w.ledger, w.ledger.generations[i], w.now) <==> i == 0 && Obsolete(w)
    ensures !Drifted(Listings(w), w.ledger.generations[i])
  {
    var l := w.ledger;
    ActiveIsOffered(l);
    if i == 0 && |l.generations| == KEEP + 1 {
      forall k | 0 <= k < |Active(l)| ensures Active(l)[k].tag != l.generations[0].tag {
        assert Active(l)[k] in l.generations;
      }
      assert !Kept(l, l.generations[0].tag);
    }
  }

  lemma {:induction false} PlanOfPrefix(w: World, n: nat)
    requires Inv(w) && n <= |w.ledger.generations|
    ensures PlanOf(w.ledger, w.ledger.generations[..n], Listings(w), w.now) ==
      Ok(if n > 0 && Obsolete(w) then [ObsoleteItem(w)] else [])
  {
    if n > 0 {
      PlanOfPrefix(w, n - 1);
      OnlyOldestRemovable(w, n - 1);
      hide Inv, Removable, Drifted;
      var gens := w.ledger.generations[..n];
      assert gens[..|gens| - 1] == w.ledger.generations[..n - 1];
      assert gens[|gens| - 1] == w.ledger.generations[n - 1];
      if n == 1 && Obsolete(w) {
        assert [] + [ObsoleteItem(w)] == [ObsoleteItem(w)];
      }
    }
  }

  lemma OneAtATime(w: World)
    requires Inv(w)
    ensures Valid(w.ledger) && (Obsolete(w) ==> !PendingExpired(w.ledger, w.now))
  {
    hide Valid, Timely, Pointed, Catalogued, Pinned, Retained, Recalled, Spaced, Traced;
  }

  /** In a reachable world the cleanup reads no drift, and has at most one thing to remove. */
  lemma CleanReads(w: World)
    requires Inv(w)
    ensures CleanItems(w) == Ok(ReachableItems(w))
  {
    PlanOfPrefix(w, |w.ledger.generations|);
    assert w.ledger.generations[..|w.ledger.generations|] == w.ledger.generations;
    DraftReads(w);
    OneAtATime(w);
    hide Inv, Valid, PlanOf, PendingItems, Obsolete, PendingExpired;
    assert ReachableItems(w) == (if Obsolete(w) then [ObsoleteItem(w)] else [])
      + (if PendingExpired(w.ledger, w.now) then [DraftItem(w)] else []);
  }

  lemma DraftReads(w: World)
    requires Inv(w)
    ensures PendingItems(w.ledger, Listings(w), w.now) ==
      Ok(if PendingExpired(w.ledger, w.now) then [DraftItem(w)] else [])
  {
    hide Timely, Pointed, Retained, Recalled, Spaced, Traced;
  }

  lemma {:induction false} DroppingOldest(gens: seq<Generation>)
    requires gens != [] && Distinct(gens)
    ensures Dropping(gens, gens[0].tag) == gens[1..]
  {
    var n := |gens| - 1;
    if n == 0 {
      assert Dropping(gens[..0], gens[0].tag) == [];
    } else {
      DroppingOldest(gens[..n]);
      assert gens[..n][1..] + [gens[n]] == gens[1..];
    }
  }

  ghost predicate Targets(w: World, item: Item) {
    if item.pending then
      PendingExpired(w.ledger, w.now)
      && item == DraftItem(w).(releaseExists := item.releaseExists)
    else
      Obsolete(w) && item == ObsoleteItem(w).(releaseExists := item.releaseExists)
  }

  lemma TargetIsAlone(w: World, item: Item)
    requires Inv(w) && Targets(w, item)
    ensures forall i :: 0 <= i < |w.ledger.generations| ==>
      (w.ledger.generations[i].releaseId == item.releaseId || w.ledger.generations[i].tag == item.tag)
      ==> i == 0 && !item.pending
    ensures item.pending || w.ledger.pending == None
  {
    hide Timely, Pointed, Catalogued, Retained, Recalled, Spaced, Traced;
    if item.pending {
      assert w.issued[item.releaseId] == item.tag;
    }
  }

  lemma DeleteReleaseKeeps(w: World, item: Item)
    requires Inv(w) && Targets(w, item)
    ensures Inv(Apply(w, DeleteRelease(item.releaseId)))
  {
    var after := Apply(w, DeleteRelease(item.releaseId));
    TargetIsAlone(w, item);
    assert Retained(after) && Traced(after) by {
      hide Pointed, Recalled, Spaced;
    }
    hide Retained, Traced, Recalled, Spaced;
  }

  lemma DeleteTagKeeps(w: World, item: Item)
    requires Inv(w) && Targets(w, item) && item.releaseId !in w.releases
    ensures Inv(Apply(w, DeleteTag(item.tag)))
  {
    var after := Apply(w, DeleteTag(item.tag));
    TargetIsAlone(w, item);
    assert Retained(after) by {
      hide Shaped, Reserved, Timely, Catalogued, Pinned, Pointed, Recalled, Spaced, Traced;
    }
    assert Pinned(after) && Catalogued(after) by {
      hide Shaped, Reserved, Timely, Pointed, Recalled, Spaced, Traced, Retained;
    }
    hide Shaped, Reserved, Timely, Pinned, Catalogued, Retained, Recalled, Spaced;
  }

  lemma WithoutOldest(w: World, item: Item)
    requires Inv(w) && Targets(w, item) && !item.pending
    ensures Without(w.ledger, item) == w.ledger.(generations := w.ledger.generations[1..])
    ensures Shaped(Without(w.ledger, item))
  {
    hide Timely, Pointed, Catalogued, Pinned, Retained, Recalled, Spaced, Traced;
    DroppingOldest(w.ledger.generations);
    var gens := w.ledger.generations[1..];
    assert gens[KEEP - 1] == w.ledger.generations[KEEP];
    assert forall i :: 0 <= i < |gens| ==> gens[i] == w.ledger.generations[i + 1];
  }

  lemma DraftGoneShape(w: World)
    requires Inv(w)
    ensures Shaped(w.ledger.(pending := None))
  {
    hide Pointed, Catalogued, Pinned, Retained, Recalled, Spaced, Traced, Reserved, Timely;
  }

  lemma DraftGoneTimes(w: World)
    requires Inv(w)
    ensures Reserved(w.ledger.(pending := None)) && Timely(w.ledger.(pending := None), w.now)
  {
    hide Shaped, Pointed, Catalogued, Pinned, Retained, Recalled, Spaced, Traced;
  }

  lemma DraftGoneRemote(w: World)
    requires Inv(w)
    ensures (var after := w.(ledger := w.ledger.(pending := None));
             Pointed(after) && Catalogued(after) && Pinned(after) && Retained(after))
  {
    hide Shaped, Reserved, Timely, Recalled, Spaced, Traced;
  }

  lemma DraftGoneClaims(w: World)
    requires Inv(w)
    ensures (var after := w.(ledger := w.ledger.(pending := None));
             Recalled(after) && Spaced(after.claims) && Traced(after))
  {
    hide Shaped, Reserved, Timely, Pointed, Catalogued, Pinned, Retained, Spaced;
  }

  lemma ExpireDraftKeeps(w: World, item: Item)
    requires Inv(w) && Targets(w, item) && item.pending
    ensures Inv(Apply(w, CommitLedger(Without(w.ledger, item))))
  {
    DraftGoneShape(w);
    DraftGoneTimes(w);
    DraftGoneRemote(w);
    DraftGoneClaims(w);
    hide Shaped, Reserved, Timely, Pointed, Catalogued, Pinned, Retained, Recalled, Spaced, Traced, Targets;
  }

  lemma ExpireOldestKeeps(w: World, item: Item)
    requires Inv(w) && Targets(w, item) && !item.pending
    ensures Inv(Apply(w, CommitLedger(Without(w.ledger, item))))
  {
    var after := Apply(w, CommitLedger(Without(w.ledger, item)));
    WithoutOldest(w, item);
    TargetIsAlone(w, item);
    hide Without, Shaped, Valid;
    assert |w.ledger.generations| == KEEP + 1;
    assert forall i :: 0 <= i < |after.ledger.generations| ==> after.ledger.generations[i] == w.ledger.generations[i + 1];
    assert Reserved(after.ledger) && Timely(after.ledger, w.now) by {
      hide Pointed, Catalogued, Pinned, Retained, Recalled, Spaced, Traced;
    }
    assert Retained(after) && Pinned(after) by {
      hide Pointed, Catalogued, Recalled, Spaced, Traced, Reserved, Timely;
    }
    hide Reserved, Timely, Retained, Pinned;
  }

  lemma ExpireKeeps(w: World, item: Item)
    requires Inv(w) && Targets(w, item)
    ensures Inv(Apply(w, CommitLedger(Without(w.ledger, item))))
  {
    hide Inv;
    if item.pending {
      ExpireDraftKeeps(w, item);
    } else {
      ExpireOldestKeeps(w, item);
    }
  }

  // ----- whole operations

  /** Every world the calls pass through keeps the invariant, and every call is lawful. */
  ghost predicate Safe(w: World, actions: seq<Action>)
    decreases |actions|
  {
    Inv(w) && (actions != [] ==> Good(w, actions[0]) && Safe(Apply(w, actions[0]), actions[1..]))
  }

  lemma {:induction false} SafePrefix(w: World, actions: seq<Action>, calls: nat)
    requires Safe(w, actions)
    ensures Inv(Perform(w, actions, calls)) && Evolves(w, Perform(w, actions, calls))
    ensures calls < |actions| ==> Lawful(Perform(w, actions, calls), actions[calls])
    decreases |actions|
  {
    hide Inv, Lawful;
    if actions != [] && calls != 0 {
      SafePrefix(Apply(w, actions[0]), actions[1..], calls - 1);
      EvolvesOn(w, Apply(w, actions[0]), Perform(w, actions, calls));
    }
  }

  lemma {:induction false} SafeConcat(w: World, a: seq<Action>, b: seq<Action>)
    requires Safe(w, a) && Safe(Perform(w, a, |a|), b)
    ensures Safe(w, a + b)
    decreases |a|
  {
    hide Inv, Good;
    if a == [] {
      assert a + b == b;
    } else {
      assert (a + b)[1..] == a[1..] + b;
      SafeConcat(Apply(w, a[0]), a[1..], b);
    }
  }

  lemma SafeOne(w: World, a: Action)
    requires Inv(w) && Good(w, a)
    ensures Safe(w, [a])
  {
    hide Inv;
    assert [a][1..] == [];
  }

  lemma TargetIsExpired(w: World, item: Item)
    requires Targets(w, item)
    ensures ExpiredRelease(w, item.releaseId) && ExpiredTag(w, item.tag, item.tagCommit)
  {
  }

  lemma RemovalSafe(w: World, item: Item)
    requires Inv(w) && Targets(w, item) && item.releaseExists == (item.releaseId in w.releases)
    requires ChannelAssured(w.ledger, w.pointer) && !TagRefused(w, item)
    ensures Safe(w, Removal(w, item))
    ensures Perform(w, Removal(w, item), |Removal(w, item)|) == Removed(w, item)
  {
    hide Inv;
    var first := if item.releaseExists then [DeleteRelease(item.releaseId)] else [];
    var second := if item.tag in w.tags then [DeleteTag(item.tag)] else [];
    var mid := w.(releases := Removed(w, item).releases);
    TargetIsExpired(w, item);
    TargetIsExpired(mid, item);
    if item.releaseExists {
      DeleteReleaseKeeps(w, item);
      SafeOne(w, first[0]);
      PerformOne(w, first[0]);
    }
    if item.tag in w.tags {
      DeleteTagKeeps(mid, item);
      SafeOne(mid, second[0]);
      PerformOne(mid, second[0]);
    } else {
      assert w.tags - {item.tag} == w.tags;
    }
    SafeConcat(w, first, second);
    PerformConcat(w, first, second, |first| + |second|);
  }

  lemma OneItemSafe(w: World, item: Item)
    requires Inv(w) && Targets(w, item) && item.releaseExists == (item.releaseId in w.releases)
    requires ChannelAssured(w.ledger, w.pointer) && !TagRefused(w, item)
    ensures var actions := Removal(w, item) + [CommitLedger(Without(w.ledger, item))];
      Safe(w, actions) && Perform(w, actions, |actions|).ledger == Without(w.ledger, item)
  {
    hide Inv;
    RemovalSafe(w, item);
    var removed := Removed(w, item);
    var commit := CommitLedger(Without(w.ledger, item));
    SafePrefix(w, Removal(w, item), |Removal(w, item)|);
    assert Targets(removed, item);
    ExpireKeeps(removed, item);
    SafeOne(removed, commit);
    SafeConcat(w, Removal(w, item), [commit]);
    PerformConcat(w, Removal(w, item), [commit], |Removal(w, item)| + 1);
    PerformOne(removed, commit);
  }

  lemma DeletionsOfOne(w: World, item: Item)
    ensures Deletions(w, [item], w.ledger) ==
      if TagRefused(w, item) then Cleaned(Plan([], false), w.ledger)
      else Cleaned(Plan(Removal(w, item) + [CommitLedger(Without(w.ledger, item))], true), Without(w.ledger, item))
  {
    assert [item][1..] == [];
  }

  lemma CleanSafe(w: World, enabled: bool, apply: bool)
    requires Inv(w)
    ensures var cleaned := Clean(w, enabled, apply);
      && Safe(w, cleaned.plan.actions)
      && (cleaned.plan.ok ==> Perform(w, cleaned.plan.actions, |cleaned.plan.actions|).ledger == cleaned.ledger)
      && cleaned.ledger.nextGeneration == w.ledger.nextGeneration
  {
    hide Inv, CleanItems;
    CleanReads(w);
    var items := ReachableItems(w);
    if items != [] {
      DeletionsOfOne(w, items[0]);
      if ChannelAssured(w.ledger, w.pointer) && !TagRefused(w, items[0]) {
        OneItemSafe(w, items[0]);
      }
    }
    hide Deletions, Removal, Without;
  }

  lemma ClaimIsGood(w: World, run: Run, force: bool, generation: int, d: Decision)
    requires Inv(w) && Decide(true, w.ledger, w.now, force) == Ok(d) && d.due
    requires w.ledger.nextGeneration <= generation <= MAX_GENERATION
    ensures Good(w, CommitClaim(Claimed(w.ledger, run, w.now, d.cycle, generation),
                                Claim(w.now, generation, d.cycle, force, w.ledger.completedCycle)))
  {
    hide Inv;
    DueMeansClear(w, force, d);
    ClaimKeeps(w, run, force, generation, d);
    hide Decide;
  }

  lemma ClaimingSafe(w: World, run: Run, force: bool, pilot: bool, enabled: bool, lockRelease: int)
    requires Inv(w) && Fitting(Claiming(w.ledger, w.now, run, force, pilot, enabled, lockRelease).actions)
    ensures Safe(w, Claiming(w.ledger, w.now, run, force, pilot, enabled, lockRelease).actions)
  {
    hide Inv, Decide;
    var claiming := Claiming(w.ledger, w.now, run, force, pilot, enabled, lockRelease);
    if claiming.actions != [] {
      var d := Decide(enabled || pilot, w.ledger, w.now, force).value;
      DecideEnabled(enabled || pilot, w, force);
      if d.due {
        assert claiming.actions[0].CommitClaim? && claiming.actions[0] in claiming.actions;
        ClaimIsGood(w, run, force, Reserve(lockRelease, w.ledger), d);
      } else {
        VerifyClaimKeeps(w);
      }
      hide Good;
      SafeOne(w, claiming.actions[0]);
    }
  }

  lemma DecideEnabled(enabled: bool, w: World, force: bool)
    ensures var d := Decide(enabled, w.ledger, w.now, force);
      d.Ok? && (d.value.due || d.value.reason == ChannelUnverified) ==> enabled
  {
  }

  lemma FittingEnd(front: seq<Action>, back: seq<Action>)
    requires Fitting(front + back)
    ensures Fitting(back)
  {
    assert forall a <- back :: a in front + back;
  }

  lemma GateSafe(w: World, run: Run, force: bool, pilot: bool, enabled: bool, lockRelease: int)
    requires Inv(w) && Fitting(Gate(w, run, force, pilot, enabled, lockRelease).actions)
    ensures Safe(w, Gate(w, run, force, pilot, enabled, lockRelease).actions)
  {
    var cleaned := GateCleaning(w, pilot, enabled);
    CleanSafe(w, enabled, true);
    if cleaned.plan.ok {
      var actions := cleaned.plan.actions;
      var between := Perform(w, actions, |actions|);
      PerformKeepsClock(w, actions, |actions|);
      SafePrefix(w, actions, |actions|);
      FittingEnd(actions, Claiming(between.ledger, w.now, run, force, pilot, enabled, lockRelease).actions);
      ClaimingSafe(between, run, force, pilot, enabled, lockRelease);
      SafeConcat(w, actions, Claiming(between.ledger, w.now, run, force, pilot, enabled, lockRelease).actions);
    }
  }

  lemma StageSafe(w: World, run: Run, pilot: bool, rpmRelease: int, id: int)
    requires Inv(w) && id >= 1 && id !in w.issued
    ensures Safe(w, Stage(w, run, pilot, rpmRelease, id).actions)
  {
    if !pilot && OwnsReservation(w.ledger, run, rpmRelease) && !Has(w.releases, Office(rpmRelease)) {
      DraftSafe(w, id);
    }
  }

  ghost function Drafting(w: World, id: int): seq<Action>
    requires w.ledger.reservation.Some?
  {
    var r := w.ledger.reservation.value;
    var tag := Office(r.generation);
    [CreateDraft(id, tag, r.run.sha), CommitLedger(Tracked(w.ledger, tag, id, w.now, r.run))]
  }

  lemma DraftSafe(w: World, id: int)
    requires Inv(w) && id >= 1 && id !in w.issued && w.ledger.reservation.Some?
    requires !Has(w.releases, Office(w.ledger.reservation.value.generation))
    ensures Safe(w, Drafting(w, id))
    ensures Perform(w, Drafting(w, id), 2) == Apply(Apply(w, Drafting(w, id)[0]), Drafting(w, id)[1])
  {
    hide Inv;
    var actions := Drafting(w, id);
    var created := Apply(w, actions[0]);
    CreateKeeps(w, id);
    NotYetOffered(w);
    TrackKeeps(created, id);
    SafeOne(created, actions[1]);
    assert actions == [actions[0]] + [actions[1]];
    SafeOne(w, actions[0]);
    PerformOne(w, actions[0]);
    PerformOne(created, actions[1]);
    SafeConcat(w, [actions[0]], [actions[1]]);
    PerformConcat(w, [actions[0]], [actions[1]], 2);
  }

  ghost function Opened(w: World, id: int): World
    requires id in w.releases
  {
    if w.releases[id].draft then Apply(w, PublishRelease(id)) else w
  }

  function Opening(w: World, id: int): seq<Action>
    requires id in w.releases
  {
    if w.releases[id].draft then [PublishRelease(id)] else []
  }

  lemma OpeningSafe(w: World, id: int)
    requires Inv(w) && id in w.releases && Tracks(w.ledger, id)
    ensures Safe(w, Opening(w, id)) && Inv(Opened(w, id))
    ensures Perform(w, Opening(w, id), |Opening(w, id)|) == Opened(w, id)
  {
    hide Inv;
    if w.releases[id].draft {
      PublishKeeps(w, id);
      SafeOne(w, PublishRelease(id));
      PerformOne(w, PublishRelease(id));
    }
  }

  lemma OpenedIsPublic(w: World, id: int)
    requires Inv(w) && id in w.releases && Tracks(w.ledger, id) && w.ledger.reservation.Some?
    ensures var r := w.ledger.reservation.value;
      var after := Opened(w, id);
      && after.ledger == w.ledger && after.now == w.now && after.snapshots == w.snapshots
      && id in after.releases && after.releases[id].tag == Office(r.generation) && !after.releases[id].draft
      && Office(r.generation) in after.tags && after.tags[Office(r.generation)] == r.run.sha
  {
    hide Recalled, Spaced, Traced, Timely, Shaped, Pointed;
  }

  lemma PromotionPlan(w: World, g: Generation, snapshot: Commit, draft: bool)
    requires Inv(w) && Promotable(w, g) && g.publishedAt == Recorded(w.now)
    ensures Promotion(w.ledger, w.now, w.ledger.reservation.value.run, g.releaseId, draft, g.number, snapshot, g.inventory)
      == Plan((if draft then [PublishRelease(g.releaseId)] else []) + Offering(w, g, snapshot), true)
  {
    PromotionReady(w, g);
    hide Inv, Promote, Retired;
  }

  lemma PromotionSafe(w: World, id: int, rpmRelease: int, snapshot: Commit, inventory: nat)
    requires Inv(w) && w.ledger.reservation.Some? && w.ledger.reservation.value.generation == rpmRelease
    requires id in w.releases && Tracks(w.ledger, id) && snapshot !in w.snapshots
    ensures var run := w.ledger.reservation.value.run;
      var plan := Promotion(w.ledger, w.now, run, id, w.releases[id].draft, rpmRelease, snapshot, inventory);
      plan.ok && Safe(w, plan.actions)
  {
    hide Inv, Promotion;
    var run := w.ledger.reservation.value.run;
    var g := Generation(rpmRelease, Office(rpmRelease), id, run.sha, Recorded(w.now), inventory, None);
    OpeningSafe(w, id);
    OpenedIsPublic(w, id);
    PromotionPlan(w, g, snapshot, w.releases[id].draft);
    OfferingSafe(Opened(w, id), g, snapshot);
    SafeConcat(w, Opening(w, id), Offering(w, g, snapshot));
  }

  ghost function Offering(w: World, g: Generation, snapshot: Commit): seq<Action>
    requires w.ledger.reservation.Some?
  {
    var promoted := PromotedLedger(w, g, snapshot);
    [CommitSnapshot(snapshot, g.tag), OfferRelease(g.releaseId),
     CommitPromotion(promoted, Snapshot(snapshot, g.tag)), CommitLedger(promoted.(channelVerified := Some(g.tag)))]
  }

  lemma OfferingSafe(w: World, g: Generation, snapshot: Commit)
    requires Inv(w) && Promotable(w, g) && snapshot !in w.snapshots
    requires g.releaseId in w.releases && w.releases[g.releaseId].tag == g.tag && !w.releases[g.releaseId].draft
    requires g.tag in w.tags && w.tags[g.tag] == g.tagCommit
    ensures Safe(w, Offering(w, g, snapshot))
  {
    OfferingGood(w, g, snapshot);
    hide *;
    var a := OfferingActions(w, g, snapshot);
    var w1 := Apply(w, a[0]);
    var w2 := Apply(w1, a[1]);
    var w3 := Apply(w2, a[2]);
    SafeOne(w3, a[3]);
    SafeFirst(w2, a[2], [a[3]]);
    SafeFirst(w1, a[1], [a[2], a[3]]);
    SafeFirst(w, a[0], [a[1], a[2], a[3]]);
  }

  lemma SafeFirst(w: World, a: Action, rest: seq<Action>)
    requires Inv(w) && Good(w, a) && Safe(Apply(w, a), rest)
    ensures Safe(w, [a] + rest)
  {
    hide Inv, Good;
    assert ([a] + rest)[1..] == rest;
  }

  lemma OfferingActions(w: World, g: Generation, snapshot: Commit) returns (a: seq<Action>)
    requires w.ledger.reservation.Some?
    ensures a == Offering(w, g, snapshot) && |a| == 4
    ensures a == [a[0]] + [a[1], a[2], a[3]] && [a[1], a[2], a[3]] == [a[1]] + [a[2], a[3]] && [a[2], a[3]] == [a[2]] + [a[3]]
  {
    a := Offering(w, g, snapshot);
  }

  /** Each of the four calls is lawful where it is made. */
  lemma OfferingGood(w: World, g: Generation, snapshot: Commit)
    requires Inv(w) && Promotable(w, g) && snapshot !in w.snapshots
    requires g.releaseId in w.releases && w.releases[g.releaseId].tag == g.tag && !w.releases[g.releaseId].draft
    requires g.tag in w.tags && w.tags[g.tag] == g.tagCommit
    ensures (var a := Offering(w, g, snapshot);
             var w1 := Apply(w, a[0]);
             var w2 := Apply(w1, a[1]);
             var w3 := Apply(w2, a[2]);
             Inv(w1) && Inv(w2) && Inv(w3) && Good(w, a[0]) && Good(w1, a[1]) && Good(w2, a[2]) && Good(w3, a[3]))
    ensures w.ledger.reservation.Some?
  {
    hide Inv;
    var a := Offering(w, g, snapshot);
    SnapshotKeeps(w, snapshot, g.tag);
    var w1 := Apply(w, a[0]);
    OfferKeeps(w1, g.releaseId);
    var w2 := Apply(w1, a[1]);
    assert Intact(w2, g);
    PromotionKeeps(w2, g, snapshot);
    ConfirmKeeps(Apply(w2, a[2]));
  }

  lemma PublishSafe(w: World, run: Run, enabled: bool, rpmRelease: int, id: int, snapshot: Commit, inventory: nat)
    requires Inv(w) && id >= 1 && id !in w.issued && snapshot !in w.snapshots
    ensures Safe(w, Publish(w, run, enabled, rpmRelease, id, snapshot, inventory).actions)
  {
    hide Inv, Valid, Promotion, Promotable;
    var tag := Office(rpmRelease);
    if enabled && OwnsReservation(w.ledger, run, rpmRelease) {
      if !Has(w.releases, tag) {
        DraftSafe(w, id);
        var drafting := Drafting(w, id);
        var drafted := Perform(w, drafting, 2);
        SafePrefix(w, drafting, 2);
        PromotionSafe(drafted, id, rpmRelease, snapshot, inventory);
        SafeConcat(w, drafting, Promotion(drafted.ledger, w.now, run, id, true, rpmRelease, snapshot, inventory).actions);
      } else {
        var found := Find(w.releases, tag);
        if Tracks(w.ledger, found) {
          PromotionSafe(w, found, rpmRelease, snapshot, inventory);
        }
      }
    }
  }

  lemma VerifySafe(w: World)
    requires Inv(w)
    ensures Safe(w, Verify(w).actions)
  {
    hide Inv;
    var actions := Verify(w).actions;
    if actions != [] {
      ConfirmKeeps(w);
      SafeOne(w, actions[0]);
      PerformOne(w, actions[0]);
      if |actions| == 2 {
        var confirmed := Apply(w, actions[0]);
        OfferKeeps(confirmed, actions[1].id);
        SafeOne(confirmed, actions[1]);
        SafeConcat(w, [actions[0]], [actions[1]]);
        assert actions == [actions[0]] + [actions[1]];
      } else {
        assert actions == [actions[0]];
      }
    }
  }

  lemma CheckpointSafe(w: World, run: Run)
    requires Inv(w)
    ensures Safe(w, Checkpoint(w, run).actions)
  {
    if Checkpoint(w, run).actions != [] {
      CheckpointKeeps(w);
      SafeOne(w, Checkpoint(w, run).actions[0]);
    }
  }

  lemma StepSafe(w: World, s: Step)
    requires Inv(w) && Admissible(w, s) && Fits(w, s)
    ensures Safe(At(w, s.now), PlanFor(At(w, s.now), s.op).actions)
    ensures Inv(Next(w, s))
  {
    var at := At(w, s.now);
    TickKeeps(w, s.now);
    match s.op {
      case DoGate(run, force, pilot, enabled, lockRelease) => GateSafe(at, run, force, pilot, enabled, lockRelease);
      case DoCheckpoint(run) => CheckpointSafe(at, run);
      case DoCleanup(enabled, apply) => CleanSafe(at, enabled, apply);
      case DoStage(run, pilot, rpmRelease, id) => StageSafe(at, run, pilot, rpmRelease, id);
      case DoPublish(run, enabled, rpmRelease, id, snapshot, inventory) =>
        PublishSafe(at, run, enabled, rpmRelease, id, snapshot, inventory);
      case DoVerify => VerifySafe(at);
    }
    SafePrefix(at, PlanFor(at, s.op).actions, s.calls);
  }

  /** Safety over whole runs: any operations, any times, any crash points. */
  lemma {:induction false} RunSafe(w: World, steps: seq<Step>)
    requires Inv(w) && Allowed(w, steps)
    ensures Inv(After(w, steps))
    decreases |steps|
  {
    if steps != [] {
      StepSafe(w, steps[0]);
      RunSafe(Next(w, steps[0]), steps[1..]);
    }
  }
}
