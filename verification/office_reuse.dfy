/** Where the numbering promise ends: a tag can be issued to a second release after its
    draft expired, and a reservation of ten digits leaves a ledger no operation accepts. */
module OfficeReuse {
  import opened OfficeModel
  import opened OfficeRemote
  import opened OfficeRelease
  import opened OfficeInvariant
  import opened OfficeSafety

  /** No Office tag was ever given to two releases. */
  ghost predicate TagsUnique(w: World) {
    forall a, b ::
      (a in w.issued && b in w.issued && w.issued[a].Office? && w.issued[a] == w.issued[b]) ==> a == b
  }

  /** A stage or publish process starts less than `d` after the recorded time of the claim. */
  ghost predicate Prompt(w: World, s: Step, d: Time) {
    (s.op.DoStage? || s.op.DoPublish?) && w.ledger.lastAttempt.Some? ==> s.now - w.ledger.lastAttempt.value < d
  }

  ghost predicate AllPrompt(w: World, steps: seq<Step>, d: Time)
    decreases |steps|
  {
    steps != [] ==> Prompt(w, steps[0], d) && AllPrompt(Next(w, steps[0]), steps[1..], d)
  }

  predicate Drafts(a: Action) {
    a.CreateDraft?
  }

  lemma {:induction false} WithoutDrafts(w: World, actions: seq<Action>, calls: nat)
    requires forall k :: 0 <= k < |actions| ==> !Drafts(actions[k])
    ensures Perform(w, actions, calls).issued == w.issued
    decreases |actions|
  {
    if actions != [] && calls != 0 {
      WithoutDrafts(Apply(w, actions[0]), actions[1..], calls - 1);
    }
  }

  lemma {:induction false} DeletionsDraftNothing(w: World, items: seq<Item>, l: Ledger)
    ensures forall k :: 0 <= k < |Deletions(w, items, l).plan.actions| ==> !Drafts(Deletions(w, items, l).plan.actions[k])
    decreases |items|
  {
    if items != [] && !TagRefused(w, items[0]) {
      DeletionsDraftNothing(Removed(w, items[0]), items[1..], Without(l, items[0]));
    }
  }

  lemma OthersDraftNothing(w: World, op: Op)
    requires !op.DoStage? && !op.DoPublish?
    ensures forall k :: 0 <= k < |PlanFor(w, op).actions| ==> !Drafts(PlanFor(w, op).actions[k])
  {
    if CleanItems(w).Ok? {
      DeletionsDraftNothing(w, CleanItems(w).value, w.ledger);
    }
    hide CleanItems, Deletions, Decide, Valid, ChannelAssured;
  }

  /** The only draft a plan can make carries the reserved number, and comes first. */
  lemma DraftComesFirst(w: World, op: Op)
    requires op.DoStage? || op.DoPublish?
    ensures var actions := PlanFor(w, op).actions;
      && (forall k :: 1 <= k < |actions| ==> !Drafts(actions[k]))
      && (actions != [] && Drafts(actions[0]) ==>
            && w.ledger.reservation.Some? && actions[0].id == op.id
            && actions[0].tag == Office(w.ledger.reservation.value.generation) && !Has(w.releases, actions[0].tag))
  {
    hide Promote, Valid;
  }

  ghost predicate Issues(w: World, s: Step) {
    && (s.op.DoStage? || s.op.DoPublish?) && w.ledger.reservation.Some?
    && !Has(w.releases, Office(w.ledger.reservation.value.generation))
    && Next(w, s).issued == w.issued[s.op.id := Office(w.ledger.reservation.value.generation)]
  }

  lemma IssuedByActions(w: World, actions: seq<Action>, calls: nat)
    requires forall k :: 1 <= k < |actions| ==> !Drafts(actions[k])
    ensures Perform(w, actions, calls).issued ==
      if actions != [] && calls != 0 && Drafts(actions[0]) then w.issued[actions[0].id := actions[0].tag] else w.issued
  {
    if actions != [] && calls != 0 {
      WithoutDrafts(Apply(w, actions[0]), actions[1..], calls - 1);
    }
  }

  /** One process hands out no release id, or one id for the reserved number. */
  lemma IssuedByStep(w: World, s: Step)
    ensures Next(w, s).issued == w.issued || Issues(w, s)
  {
    var at := At(w, s.now);
    var actions := PlanFor(at, s.op).actions;
    if s.op.DoStage? || s.op.DoPublish? {
      DraftComesFirst(at, s.op);
      hide PlanFor, Perform;
      IssuedByActions(at, actions, s.calls);
    } else {
      OthersDraftNothing(at, s.op);
      hide PlanFor, Perform;
      WithoutDrafts(at, actions, s.calls);
    }
  }

  lemma PromptStepUnique(w: World, s: Step, d: Time)
    requires Inv(w) && TagsUnique(w) && Admissible(w, s) && Prompt(w, s, d) && d <= GRACE
    ensures TagsUnique(Next(w, s))
  {
    hide Inv, Next;
    IssuedByStep(w, s);
    if Issues(w, s) {
      FreshWithinGrace(w, s);
    }
  }

  /** Within the grace of the claim, a number without a release was never issued. */
  lemma FreshWithinGrace(w: World, s: Step)
    requires Inv(w) && w.ledger.reservation.Some? && Prompt(w, s, GRACE) && (s.op.DoStage? || s.op.DoPublish?)
    requires w.now <= s.now && !Has(w.releases, Office(w.ledger.reservation.value.generation))
    ensures forall id :: id in w.issued ==> w.issued[id] != Office(w.ledger.reservation.value.generation)
  {
    hide Shaped, Timely, Pointed, Pinned, Retained, Recalled, Spaced;
  }

  lemma {:induction false} PromptRunUnique(w: World, steps: seq<Step>, d: Time)
    requires Inv(w) && TagsUnique(w) && Allowed(w, steps) && AllPrompt(w, steps, d) && d <= GRACE
    ensures TagsUnique(After(w, steps))
    decreases |steps|
  {
    hide Inv, TagsUnique, Admissible, Fits, Prompt;
    if steps != [] {
      PromptStepUnique(w, steps[0], d);
      StepSafe(w, steps[0]);
      hide Next;
      PromptRunUnique(Next(w, steps[0]), steps[1..], d);
    }
  }

  // ----- the run that issues a tag twice

  const RUN := Run(1, 7)
  const EMPTY := World(0, NewLedger(0), map[], map[], None, map[], map[], [])

  function Reissue(): seq<Step> {
    [Step(0, DoGate(RUN, false, false, true, 0), 1),
     Step(0, DoStage(RUN, false, 1, 1), 2),
     Step(GRACE, DoCleanup(true, true), 2),
     Step(GRACE, DoStage(RUN, false, 1, 2), 2)]
  }

  function ReissueClaimed(): World {
    EMPTY.(ledger := Claimed(NewLedger(0), RUN, 0, 0, 1), claims := [Claim(0, 1, 0, false, -1)])
  }

  function ReissueStaged(): World {
    ReissueClaimed().(ledger := Tracked(ReissueClaimed().ledger, Office(1), 1, 0, RUN),
      releases := map[1 := Release(Office(1), 7, true, true)], issued := map[1 := Office(1)])
  }

  function ReissueExpired(): World {
    ReissueStaged().(now := GRACE, ledger := ReissueClaimed().ledger, releases := map[])
  }

  function ReissueTwice(): World {
    ReissueExpired().(ledger := Tracked(ReissueClaimed().ledger, Office(1), 2, GRACE, RUN),
      releases := map[2 := Release(Office(1), 7, true, true)], issued := map[1 := Office(1), 2 := Office(1)])
  }

  lemma ReissueClaim()
    ensures Next(EMPTY, Reissue()[0]) == ReissueClaimed()
  {
    var s := Reissue()[0];
    var plan := PlanFor(At(EMPTY, s.now), s.op);
    assert Active(NewLedger(0)) == [];
    assert CleanItems(EMPTY) == Ok([]);
    assert Decide(true, NewLedger(0), 0, false) == Ok(Decision(true, SixDayCycle, 0));
    assert plan.actions == [CommitClaim(ReissueClaimed().ledger, Claim(0, 1, 0, false, -1))];
    PerformOne(EMPTY, plan.actions[0]);
  }

  lemma PerformTwo(w: World, actions: seq<Action>)
    requires |actions| == 2
    ensures Perform(w, actions, 2) == Apply(Apply(w, actions[0]), actions[1])
  {
    assert actions[1..] == [actions[1]];
    PerformOne(Apply(w, actions[0]), actions[1]);
  }

  lemma ReissueStage()
    ensures Next(ReissueClaimed(), Reissue()[1]) == ReissueStaged()
  {
    var s := Reissue()[1];
    var at := At(ReissueClaimed(), s.now);
    assert !Has(at.releases, Office(1));
    PerformTwo(at, PlanFor(at, s.op).actions);
  }

  lemma ReissueExpire()
    ensures Next(ReissueStaged(), Reissue()[2]) == ReissueExpired()
  {
    var s := Reissue()[2];
    var at := At(ReissueStaged(), s.now);
    var item := Item(1, Office(1), 7, true, true);
    assert PlanOf(at.ledger, at.ledger.generations, Listings(at), at.now) == Ok([]);
    assert PendingItems(at.ledger, Listings(at), at.now) == Ok([item]);
    assert CleanItems(at) == Ok([item]) by {
      assert [] + [item] == [item];
    }
    DeletionsOfOne(at, item);
    var actions := Clean(at, true, true).plan.actions;
    assert actions == [DeleteRelease(1), CommitLedger(at.ledger.(pending := None))];
    PerformTwo(at, actions);
    assert Perform(at, actions, 2).releases == map[];
  }

  lemma ReissueAgain()
    ensures Next(ReissueExpired(), Reissue()[3]) == ReissueTwice()
  {
    var s := Reissue()[3];
    var at := At(ReissueExpired(), s.now);
    assert !Has(at.releases, Office(1));
    PerformTwo(at, PlanFor(at, s.op).actions);
  }

  /** A claim, a staged draft, 48 hours, a cleanup that expires the draft, and the same run
      staging again: release 1 and release 2 were both given tag number 1. */
  lemma ReissueRun(d: Time)
    requires d > GRACE
    ensures Initial(EMPTY) && Allowed(EMPTY, Reissue()) && AllPrompt(EMPTY, Reissue(), d)
    ensures !TagsUnique(After(EMPTY, Reissue()))
  {
    ReissueClaim();
    ReissueStage();
    ReissueExpire();
    ReissueAgain();
    hide Next;
    var s := Reissue();
    var s1, s2, s3 := s[1..], s[2..], s[3..];
    assert s1[1..] == s2 && s2[1..] == s3 && s3[1..] == [];
    assert AllPrompt(ReissueExpired(), s3, d) && Allowed(ReissueExpired(), s3) && After(ReissueExpired(), s3) == ReissueTwice();
    assert AllPrompt(ReissueStaged(), s2, d) && Allowed(ReissueStaged(), s2) && After(ReissueStaged(), s2) == ReissueTwice();
    assert AllPrompt(ReissueClaimed(), s1, d) && Allowed(ReissueClaimed(), s1) && After(ReissueClaimed(), s1) == ReissueTwice();
    var w := ReissueTwice();
    assert 1 in w.issued && 2 in w.issued && w.issued[1] == w.issued[2];
  }

  /** The exact guard: starting stage and publish less than `d` after the claim keeps every
      tag on a single release in all runs if and only if `d` is at most 48 hours. */
  lemma TagsUniqueExactly(d: Time)
    ensures (forall w, steps :: Initial(w) && Allowed(w, steps) && AllPrompt(w, steps, d) ==> TagsUnique(After(w, steps)))
      <==> d <= GRACE
  {
    if d <= GRACE {
      forall w, steps | Initial(w) && Allowed(w, steps) && AllPrompt(w, steps, d) ensures TagsUnique(After(w, steps)) {
        InitialInv(w);
        PromptRunUnique(w, steps, d);
      }
    } else {
      ReissueRun(d);
    }
  }

  // ----- ten digits

  /** After a claim and the first staging of its generation the ledger is accepted exactly
      when the reserved number has at most nine digits. */
  lemma NineDigitsExactly(w: World, run: Run, force: bool, lockRelease: int, id: int, d: Decision)
    requires Inv(w) && Decide(true, w.ledger, w.now, force) == Ok(d) && d.due
    requires id >= 1 && id !in w.issued
    ensures var generation := Reserve(lockRelease, w.ledger);
      var claimed := Apply(w, Claiming(w.ledger, w.now, run, force, false, true, lockRelease).actions[0]);
      var plan := Stage(claimed, run, false, generation, id);
      plan.ok && (Valid(Perform(claimed, plan.actions, 2).ledger) <==> generation <= MAX_GENERATION)
  {
    var generation := Reserve(lockRelease, w.ledger);
    var claimed := Apply(w, Claiming(w.ledger, w.now, run, force, false, true, lockRelease).actions[0]);
    hide Decide;
    assert Valid(claimed.ledger) && claimed.releases == w.releases by {
      hide Reserved, Timely, Pointed, Catalogued, Pinned, Retained, Recalled, Spaced, Traced;
    }
    assert !Has(claimed.releases, Office(generation)) by {
      hide Shaped, Reserved, Timely, Pointed, Pinned, Retained, Recalled, Spaced, Traced;
    }
    hide Inv;
    PerformTwo(claimed, Stage(claimed, run, false, generation, id).actions);
  }

  /** Once the ledger is rejected, nothing in the workflow changes anything ever again. */
  lemma {:induction false} RejectedForever(w: World, steps: seq<Step>)
    requires !Valid(w.ledger)
    ensures After(w, steps) == At(w, After(w, steps).now)
    decreases |steps|
  {
    hide Valid;
    if steps != [] {
      assert PlanFor(At(w, steps[0].now), steps[0].op).actions == [];
      assert Next(w, steps[0]) == At(w, steps[0].now);
      RejectedForever(Next(w, steps[0]), steps[1..]);
    }
  }
}
