/** The Office workflow never gets stuck: six days after any moment of any run, with the
    policy enabled and every call succeeding, at most three steps reach a due claim. */
module OfficeProgress {
  import opened OfficeModel
  import opened OfficeRemote
  import opened OfficeRelease
  import opened OfficeInvariant
  import opened OfficeSafety
  import opened OfficeHistory
  import opened OfficeCleanup

  const CALLS: nat := 10

  /** Every wait recorded in the ledger is over at this time. */
  ghost predicate Ripe(l: Ledger, now: Time) {
    && (forall i :: 0 <= i < |l.generations| && Withdrawn(l.generations[i]) ==> Expired(l.generations[i], now))
    && (l.pending.Some? ==> PendingExpired(l, now))
    && l.completedCycle < Cycle(l.epoch, now) && 0 <= Cycle(l.epoch, now)
    && (l.lastAttempt.Some? ==> now - l.lastAttempt.value >= RETRY)
  }

  ghost predicate RipeToVerify(l: Ledger, now: Time) {
    l.lastVerificationAttempt.Some? ==> now - l.lastVerificationAttempt.value >= RETRY
  }

  lemma RipeAfterPeriod(w: World)
    requires Inv(w)
    ensures Inv(At(w, w.now + PERIOD))
    ensures Ripe(w.ledger, w.now + PERIOD) && RipeToVerify(w.ledger, w.now + PERIOD)
  {
    TickKeeps(w, w.now + PERIOD);
    assert Cycle(w.ledger.epoch, w.now + PERIOD) == Cycle(w.ledger.epoch, w.now) + 1;
    hide Shaped, Reserved, Pointed, Catalogued, Pinned, Retained, Recalled, Spaced, Traced;
  }

  predicate ChannelVerified(l: Ledger) {
    l.current.Some? ==> l.channelVerified == l.current
  }

  lemma VerifiedIsAssured(w: World)
    requires Inv(w) && ChannelVerified(w.ledger)
    ensures ChannelAssured(w.ledger, w.pointer)
  {
    hide Reserved, Timely, Catalogued, Pinned, Retained, Recalled, Spaced, Traced;
  }

  lemma TargetsNotRefused(w: World, item: Item)
    requires Inv(w) && Targets(w, item)
    ensures !TagRefused(w, item)
  {
    hide Timely, Pointed, Catalogued, Retained, Recalled, Spaced, Traced;
  }

  /** The cleanup leaves no withdrawn generation and no draft behind. */
  ghost predicate Cleared(w: World, l: Ledger) {
    && (forall i :: 0 <= i < |l.generations| ==> !Withdrawn(l.generations[i]))
    && l.pending == None && Valid(l)
    && l == w.ledger.(generations := l.generations, pending := None)
  }

  /** With a verified channel a reachable cleanup comes down to its at most one item. */
  lemma CleanIs(w: World)
    requires Inv(w) && ChannelVerified(w.ledger)
    ensures Clean(w, true, true) ==
      if ReachableItems(w) == [] then Cleaned(Plan([], true), w.ledger) else Deletions(w, ReachableItems(w), w.ledger)
  {
    CleanReads(w);
    VerifiedIsAssured(w);
    hide Inv, CleanItems, Deletions, ReachableItems, ChannelAssured;
  }

  lemma RipeCleans(w: World)
    requires Inv(w) && Ripe(w.ledger, w.now) && ChannelVerified(w.ledger)
    ensures Clean(w, true, true).plan.ok && Cleared(w, Clean(w, true, true).ledger)
    ensures |Clean(w, true, true).plan.actions| <= 3
  {
    hide *;
    CleanIs(w);
    if ReachableItems(w) == [] {
      RipeNothing(w);
    } else {
      RipeItem(w);
      RipeDeletes(w);
    }
  }

  lemma RipeDeletes(w: World)
    requires Inv(w) && ReachableItems(w) != []
    ensures (var cleaned := Deletions(w, ReachableItems(w), w.ledger);
             && cleaned.plan.ok && |cleaned.plan.actions| <= 3
             && cleaned.ledger == Without(w.ledger, ReachableItems(w)[0]))
  {
    CleanReads(w);
    var items := ReachableItems(w);
    assert items == [items[0]] && Targets(w, items[0]);
    TargetsNotRefused(w, items[0]);
    hide Inv, ReachableItems, Targets, Deletions, Without, CleanItems;
    DeletionsOfOne(w, items[0]);
  }

  lemma RipeNothing(w: World)
    requires Inv(w) && Ripe(w.ledger, w.now) && ReachableItems(w) == []
    ensures Cleared(w, w.ledger)
  {
    hide Timely, Pointed, Catalogued, Pinned, Retained, Recalled, Spaced, Traced;
  }

  lemma RipeItem(w: World)
    requires Inv(w) && Ripe(w.ledger, w.now) && ReachableItems(w) != []
    ensures Cleared(w, Without(w.ledger, ReachableItems(w)[0]))
  {
    var item := ReachableItems(w)[0];
    OneAtATime(w);
    if !item.pending {
      WithoutOldest(w, item);
    }
    hide Valid, Timely, Pointed, Catalogued, Pinned, Retained, Recalled, Spaced, Traced;
    assert item.pending ==> Valid(w.ledger.(pending := None)) by {
      PendingIsOptional(w.ledger);
    }
  }

  lemma PendingIsOptional(l: Ledger)
    ensures Valid(l) ==> Valid(l.(pending := None))
  {
  }

  /** Where a fresh claim shows up. */
  ghost predicate ClaimedAt(w: World, v: World, now: Time) {
    |v.claims| == |w.claims| + 1 && v.claims[|w.claims|].time == now && !v.claims[|w.claims|].forced
  }

  lemma RipeGateClaims(w: World, run: Run, lockRelease: int)
    requires Inv(w) && Ripe(w.ledger, w.now) && ChannelVerified(w.ledger)
    ensures ClaimedAt(w, Next(w, Step(w.now, DoGate(run, false, false, true, lockRelease), CALLS)), w.now)
  {
    var at := At(w, w.now);
    assert at == w;
    RipeCleans(w);
    var cleaned := Clean(w, true, true);
    var l := cleaned.ledger;
    DueWhenCleared(w, l);
    var claiming := Claiming(l, w.now, run, false, false, true, lockRelease);
    assert Valid(w.ledger);
    var actions := cleaned.plan.actions;
    assert Gate(w, run, false, false, true, lockRelease).actions == actions + claiming.actions;
    hide Inv, Clean, Decide, Valid;
    PerformConcat(w, actions, claiming.actions, CALLS);
    CleanKeepsClaims(w);
    PerformAll(Perform(w, actions, |actions|), claiming.actions, CALLS - |actions|);
    PerformOne(Perform(w, actions, |actions|), claiming.actions[0]);
  }

  lemma DueWhenCleared(w: World, l: Ledger)
    requires Ripe(w.ledger, w.now) && ChannelVerified(w.ledger) && Cleared(w, l)
    ensures Decide(true, l, w.now, false) == Ok(Decision(true, SixDayCycle, Cycle(l.epoch, w.now)))
  {
  }

  predicate Claims(a: Action) {
    a.CommitClaim?
  }

  lemma {:induction false} WithoutClaims(w: World, actions: seq<Action>, calls: nat)
    requires forall k :: 0 <= k < |actions| ==> !Claims(actions[k])
    ensures Perform(w, actions, calls).claims == w.claims
    decreases |actions|
  {
    if actions != [] && calls != 0 {
      WithoutClaims(Apply(w, actions[0]), actions[1..], calls - 1);
    }
  }

  lemma {:induction false} DeletionsClaimNothing(w: World, items: seq<Item>, l: Ledger)
    ensures forall k :: 0 <= k < |Deletions(w, items, l).plan.actions| ==> !Claims(Deletions(w, items, l).plan.actions[k])
    decreases |items|
  {
    if items != [] && !TagRefused(w, items[0]) {
      DeletionsClaimNothing(Removed(w, items[0]), items[1..], Without(l, items[0]));
    }
  }

  lemma CleanKeepsClaims(w: World)
    ensures var actions := Clean(w, true, true).plan.actions;
      Perform(w, actions, |actions|).claims == w.claims
  {
    var actions := Clean(w, true, true).plan.actions;
    if CleanItems(w).Ok? {
      DeletionsClaimNothing(w, CleanItems(w).value, w.ledger);
    }
    hide CleanItems, Deletions;
    WithoutClaims(w, actions, |actions|);
  }

  /** What a maintainer would start at time `now`: if the channel is unverified, claim the
      verification and run it; then the gate. */
  ghost function Recovery(w: World, now: Time, run: Run, lockRelease: int): seq<Step> {
    var gate := Step(now, DoGate(run, false, false, true, lockRelease), CALLS);
    if ChannelVerified(w.ledger) then [gate] else [gate, Step(now, DoVerify, CALLS), gate]
  }

  lemma UnverifiedGate(w: World, run: Run, lockRelease: int)
    requires Inv(w) && Ripe(w.ledger, w.now) && RipeToVerify(w.ledger, w.now) && !ChannelVerified(w.ledger)
    ensures Next(w, Step(w.now, DoGate(run, false, false, true, lockRelease), CALLS))
      == w.(ledger := w.ledger.(lastVerificationAttempt := Some(Recorded(w.now))))
  {
    assert At(w, w.now) == w;
    assert Valid(w.ledger);
    var commit := CommitLedger(w.ledger.(lastVerificationAttempt := Some(Recorded(w.now))));
    assert Gate(w, run, false, false, true, lockRelease) == Plan([] + [commit], true);
    assert [] + [commit] == [commit];
    PerformAll(w, [commit], CALLS);
    PerformOne(w, commit);
  }

  lemma VerifyConfirms(w: World)
    requires Inv(w) && w.ledger.current.Some?
    ensures var v := Next(w, Step(w.now, DoVerify, CALLS));
      v.ledger == w.ledger.(channelVerified := w.ledger.current) && v.claims == w.claims && v.now == w.now
  {
    assert At(w, w.now) == w;
    VerifiedIsAssuredAfter(w);
    var plan := Verify(w);
    assert Valid(w.ledger) && |plan.actions| == 2;
    hide Inv;
    PerformAll(w, plan.actions, CALLS);
    assert plan.actions == [plan.actions[0]] + [plan.actions[1]];
    PerformConcat(w, [plan.actions[0]], [plan.actions[1]], 2);
    PerformOne(w, plan.actions[0]);
    PerformOne(Apply(w, plan.actions[0]), plan.actions[1]);
  }

  lemma VerifiedIsAssuredAfter(w: World)
    requires Inv(w) && w.ledger.current.Some?
    ensures ChannelAssured(w.ledger.(channelVerified := w.ledger.current), w.pointer)
  {
    hide Reserved, Timely, Catalogued, Pinned, Retained, Recalled, Spaced, Traced;
  }

  lemma {:induction false} DeletionsNumber(w: World, items: seq<Item>, l: Ledger)
    ensures Deletions(w, items, l).ledger.nextGeneration == l.nextGeneration
    decreases |items|
  {
    if items != [] && !TagRefused(w, items[0]) {
      DeletionsNumber(Removed(w, items[0]), items[1..], Without(l, items[0]));
    }
  }

  /** A gate claims the number it may reserve, or none. */
  lemma GateFits(w: World, run: Run, force: bool, pilot: bool, enabled: bool, lockRelease: int)
    requires Reserve(lockRelease, w.ledger) <= MAX_GENERATION
    ensures Fitting(Gate(w, run, force, pilot, enabled, lockRelease).actions)
  {
    if CleanItems(w).Ok? {
      DeletionsNumber(w, CleanItems(w).value, w.ledger);
      DeletionsClaimNothing(w, CleanItems(w).value, w.ledger);
    }
    hide CleanItems, Deletions, Valid, Decide, ChannelAssured;
    var cleaned := GateCleaning(w, pilot, enabled);
    assert cleaned.ledger.nextGeneration == w.ledger.nextGeneration;
    assert forall a <- cleaned.plan.actions :: !a.CommitClaim?;
    hide GateCleaning;
    var claiming := Claiming(cleaned.ledger, w.now, run, force, pilot, enabled, lockRelease);
    assert forall a <- claiming.actions :: a.CommitClaim? ==> a.claim.generation <= MAX_GENERATION;
  }

  lemma StepFits(w: World, run: Run, lockRelease: int)
    requires Reserve(lockRelease, w.ledger) <= MAX_GENERATION
    ensures Fits(w, Step(w.now, DoGate(run, false, false, true, lockRelease), CALLS))
    ensures Fits(w, Step(w.now, DoVerify, CALLS))
  {
    assert At(w, w.now) == w;
    GateFits(w, run, false, false, true, lockRelease);
    hide Gate, Verify;
  }

  lemma Recovers(w: World, run: Run, lockRelease: int)
    requires Inv(w) && Ripe(w.ledger, w.now) && RipeToVerify(w.ledger, w.now)
    requires Reserve(lockRelease, w.ledger) <= MAX_GENERATION
    ensures var steps := Recovery(w, w.now, run, lockRelease);
      Allowed(w, steps) && ClaimedAt(w, After(w, steps), w.now)
  {
    if ChannelVerified(w.ledger) {
      hide *;
      var gate := Step(w.now, DoGate(run, false, false, true, lockRelease), CALLS);
      RecoveryIs(w, run, lockRelease);
      StepFits(w, run, lockRelease);
      StepAdmissible(w, w, run, lockRelease);
      RipeGateClaims(w, run, lockRelease);
      AfterOne(w, gate);
    } else {
      hide *;
      RecoversVerifying(w, run, lockRelease);
    }
  }

  lemma RecoveryIs(w: World, run: Run, lockRelease: int)
    ensures (var gate := Step(w.now, DoGate(run, false, false, true, lockRelease), CALLS);
             Recovery(w, w.now, run, lockRelease)
               == if ChannelVerified(w.ledger) then [gate] else [gate, Step(w.now, DoVerify, CALLS), gate])
  {
  }

  lemma StepAdmissible(w: World, v: World, run: Run, lockRelease: int)
    requires v.now == w.now
    ensures Admissible(v, Step(w.now, DoGate(run, false, false, true, lockRelease), CALLS))
    ensures Admissible(v, Step(w.now, DoVerify, CALLS))
  {
  }

  lemma VerificationChanges(w: World, l: Ledger)
    requires Ripe(w.ledger, w.now) && !ChannelVerified(w.ledger)
    requires l == w.ledger.(lastVerificationAttempt := l.lastVerificationAttempt)
    ensures w.ledger.current.Some? && l.current.Some?
    ensures ChannelVerified(l.(channelVerified := l.current)) && Ripe(l.(channelVerified := l.current), w.now)
  {
  }

  lemma ReserveSame(lockRelease: int, l: Ledger, m: Ledger)
    requires l.nextGeneration == m.nextGeneration
    ensures Reserve(lockRelease, l) == Reserve(lockRelease, m)
  {
  }

  lemma RecoversVerifying(w: World, run: Run, lockRelease: int)
    requires Inv(w) && Ripe(w.ledger, w.now) && RipeToVerify(w.ledger, w.now) && !ChannelVerified(w.ledger)
    requires Reserve(lockRelease, w.ledger) <= MAX_GENERATION
    ensures var steps := Recovery(w, w.now, run, lockRelease);
      Allowed(w, steps) && ClaimedAt(w, After(w, steps), w.now)
  {
    hide *;
    var gate, verify := Step(w.now, DoGate(run, false, false, true, lockRelease), CALLS), Step(w.now, DoVerify, CALLS);
    RecoveryIs(w, run, lockRelease);
    UnverifiedGate(w, run, lockRelease);
    var u := Next(w, gate);
    VerificationChanges(w, u.ledger);
    ReserveSame(lockRelease, w.ledger, u.ledger);
    StepAdmissible(w, w, run, lockRelease);
    StepFits(w, run, lockRelease);
    StepSafe(w, gate);
    VerifyConfirms(u);
    var v := Next(u, verify);
    ReserveSame(lockRelease, w.ledger, v.ledger);
    StepAdmissible(w, u, run, lockRelease);
    StepFits(u, run, lockRelease);
    StepSafe(u, verify);
    StepAdmissible(w, v, run, lockRelease);
    StepFits(v, run, lockRelease);
    RipeGateClaims(v, run, lockRelease);
    AfterThree(w, gate, verify, gate);
    ClaimedFrom(w, v, Next(v, gate));
  }

  lemma ClaimedFrom(w: World, v: World, x: World)
    requires v.claims == w.claims && ClaimedAt(v, x, w.now)
    ensures ClaimedAt(w, x, w.now)
  {
  }

  lemma AfterOne(w: World, s: Step)
    ensures After(w, [s]) == Next(w, s)
    ensures Allowed(w, [s]) <==> Admissible(w, s) && Fits(w, s)
  {
    hide Next, Admissible, Fits;
    assert [s][1..] == [];
    assert After(Next(w, s), []) == Next(w, s);
  }

  lemma AfterThree(w: World, a: Step, b: Step, c: Step)
    requires Admissible(w, a) && Fits(w, a)
    requires Admissible(Next(w, a), b) && Fits(Next(w, a), b)
    requires Admissible(Next(Next(w, a), b), c) && Fits(Next(Next(w, a), b), c)
    ensures After(w, [a, b, c]) == Next(Next(Next(w, a), b), c) && Allowed(w, [a, b, c])
  {
    hide Next, Admissible, Fits;
    AfterOne(Next(Next(w, a), b), c);
    assert [a, b, c][1..] == [b, c] && [b, c][1..] == [c];
    var u := Next(w, a);
    assert After(u, [b, c]) == After(Next(u, b), [c]) && Allowed(u, [b, c]);
  }

  lemma RecoveryIsShort(w: World, now: Time, run: Run, lockRelease: int)
    ensures |Recovery(w, now, run, lockRelease)| <= 3
    ensures forall s :: s in Recovery(w, now, run, lockRelease) ==> s.now == now
  {
  }

  /** From every world a run reaches, six days later a claim is due in at most three steps. */
  lemma NeverStuck(w: World, steps: seq<Step>, run: Run, lockRelease: int)
    requires Initial(w) && Allowed(w, steps)
    requires Reserve(lockRelease, After(w, steps).ledger) <= MAX_GENERATION
    ensures var v := At(After(w, steps), After(w, steps).now + PERIOD);
      var recovery := Recovery(v, v.now, run, lockRelease);
      && |recovery| <= 3 && Allowed(v, recovery)
      && (forall s :: s in recovery ==> s.now == After(w, steps).now + PERIOD)
      && ClaimedAt(v, After(v, recovery), After(w, steps).now + PERIOD)
  {
    hide Initial, Inv, Allowed, After, Ripe, RipeToVerify, Recovery;
    InitialInv(w);
    RunSafe(w, steps);
    var v := After(w, steps);
    RipeAfterPeriod(v);
    Recovers(At(v, v.now + PERIOD), run, lockRelease);
    RecoveryIsShort(At(v, v.now + PERIOD), v.now + PERIOD, run, lockRelease);
  }

  /** The bound is exact: after a cycle completed at its own boundary, no unforced claim of
      any continuation comes before the next boundary. */
  lemma NotBeforeNextCycle(w: World, before: seq<Step>, after: seq<Step>)
    requires Initial(w) && Allowed(w, before) && Allowed(After(w, before), after)
    requires var u := After(w, before);
      u.now == u.ledger.epoch + u.ledger.completedCycle * PERIOD
    ensures var u := After(w, before);
      var v := After(u, after);
      forall j :: |u.claims| <= j < |v.claims| && !v.claims[j].forced ==> v.claims[j].time >= u.now + PERIOD
  {
    hide Initial, Allowed, After;
    CadenceHolds(w, before, after);
  }

  /** Every world a run reaches can be cleaned whenever its channel is verified, so an
      interrupted cleanup of a run can always be finished later. */
  lemma ReachableCleanable(w: World, steps: seq<Step>)
    requires Initial(w) && Allowed(w, steps) && ChannelVerified(After(w, steps).ledger)
    ensures Cleanable(After(w, steps), After(w, steps).now)
  {
    hide Initial, Allowed, After, Inv;
    InitialInv(w);
    RunSafe(w, steps);
    var v := After(w, steps);
    CleanReads(v);
    VerifiedIsAssured(v);
    DraftIsApart(v);
    DoomIsPinned(v);
    OneAtATime(v);
    assert At(v, v.now) == v;
  }

  lemma DraftIsApart(w: World)
    requires Inv(w)
    ensures DraftApart(w.ledger)
  {
    hide Timely, Pointed, Catalogued, Retained, Recalled, Spaced, Traced;
    assert forall i :: 0 <= i < |w.ledger.generations| ==> ValidRecord(w.ledger.generations[i]);
  }

  lemma DoomIsPinned(w: World)
    requires Inv(w)
    ensures Pins(w, Doom(w.ledger, w.now))
  {
    DoomedMembers(w.ledger, w.now);
    hide Doom, Removable, Shaped, Timely, Pointed, Catalogued, Retained, Recalled, Spaced, Traced;
  }
}
