/** The Office workflow as it runs: a process that reads and changes GitHub call by call.

    `calls` is how many changing calls the process still completes before it dies, so each
    method's contract says what is left at every crash point: exactly the first `calls`
    calls of its plan have taken effect. */
module OfficeClient {
  import opened OfficeModel
  import opened OfficeRemote
  import opened OfficeRelease
  import opened OfficeInvariant
  import opened OfficeSafety
  import opened OfficeHistory

  class GitHub {
    var now: Time
    var ledger: Ledger
    var releases: map<int, Release>
    var tags: map<Tag, Commit>
    var pointer: Option<Url>
    var snapshots: map<Commit, Tag>
    var calls: nat
    ghost var issued: map<int, Tag>
    ghost var claims: seq<Claim>

    ghost function View(): World
      reads this
    {
      World(now, ledger, releases, tags, pointer, snapshots, issued, claims)
    }

    /** One call: it takes effect, or the process dies before it. */
    twostate predicate Called(a: Action, ok: bool)
      reads this
    {
      && ok == (old(calls) > 0)
      && calls == (if ok then old(calls) - 1 else 0)
      && View() == (if ok then Apply(old(View()), a) else old(View()))
    }

    /** A whole operation: its plan, as far as the process got. */
    twostate predicate Ran(plan: Plan, ok: bool)
      reads this
    {
      && View() == Perform(old(View()), plan.actions, old(calls))
      && calls == (if old(calls) < |plan.actions| then 0 else old(calls) - |plan.actions|)
      && ok == (plan.ok && old(calls) >= |plan.actions|)
    }

    method CreateDraft(id: int, tag: Tag, target: Commit) returns (ok: bool)
      modifies this
      ensures Called(Action.CreateDraft(id, tag, target), ok)
    {
      if calls == 0 { return false; }
      calls := calls - 1;
      releases := releases[id := Release(tag, target, true, true)];
      issued := issued[id := tag];
      ok := true;
    }

    method DeleteRelease(id: int) returns (ok: bool)
      modifies this
      ensures Called(Action.DeleteRelease(id), ok)
    {
      if calls == 0 { return false; }
      calls := calls - 1;
      releases := releases - {id};
      ok := true;
    }

    method DeleteTag(tag: Tag) returns (ok: bool)
      modifies this
      ensures Called(Action.DeleteTag(tag), ok)
    {
      if calls == 0 { return false; }
      calls := calls - 1;
      tags := tags - {tag};
      ok := true;
    }

    method PublishRelease(id: int) returns (ok: bool)
      modifies this
      ensures Called(Action.PublishRelease(id), ok)
    {
      if calls == 0 { return false; }
      calls := calls - 1;
      if id in releases {
        var r := releases[id];
        releases := releases[id := r.(draft := false, prerelease := true)];
        if r.tag !in tags {
          tags := tags[r.tag := r.target];
        }
      }
      ok := true;
    }

    method OfferRelease(id: int) returns (ok: bool)
      modifies this
      ensures Called(Action.OfferRelease(id), ok)
    {
      if calls == 0 { return false; }
      calls := calls - 1;
      if id in releases {
        releases := releases[id := releases[id].(prerelease := false)];
      }
      ok := true;
    }

    method CommitLedger(l: Ledger) returns (ok: bool)
      modifies this
      ensures Called(Action.CommitLedger(l), ok)
    {
      if calls == 0 { return false; }
      calls := calls - 1;
      ledger := l;
      ok := true;
    }

    method CommitClaim(l: Ledger, ghost claim: Claim) returns (ok: bool)
      modifies this
      ensures Called(Action.CommitClaim(l, claim), ok)
    {
      if calls == 0 { return false; }
      calls := calls - 1;
      ledger := l;
      claims := claims + [claim];
      ok := true;
    }

    method CommitSnapshot(commit: Commit, tag: Tag) returns (ok: bool)
      modifies this
      ensures Called(Action.CommitSnapshot(commit, tag), ok)
    {
      if calls == 0 { return false; }
      calls := calls - 1;
      snapshots := snapshots[commit := tag];
      ok := true;
    }

    method CommitPromotion(l: Ledger, url: Url) returns (ok: bool)
      modifies this
      ensures Called(Action.CommitPromotion(l, url), ok)
    {
      if calls == 0 { return false; }
      calls := calls - 1;
      ledger := l;
      pointer := Some(url);
      ok := true;
    }

    /** A release the listing shows under a tag, whichever it lists first; none exactly if there is none. */
    method ReleaseFor(tag: Tag) returns (found: Option<int>)
      ensures found.Some? <==> Has(releases, tag)
      ensures found.Some? ==> found.value in releases && releases[found.value].tag == tag
    {
      if !Has(releases, tag) {
        return None;
      }
      var id :| id in releases && releases[id].tag == tag;
      found := Some(id);
    }

    // ----- clean

    method ItemsToClean() returns (items: Result<seq<Item>>)
      ensures items == CleanItems(View())
    {
      var remote := map id | id in releases :: Listed(releases[id].tag, releases[id].draft);
      assert remote == Listings(View());
      var withdrawn := CleanupPlan(ledger, remote, now);
      if withdrawn == Err {
        return Err;
      }
      var pending := PendingItems(ledger, remote, now);
      if pending == Err {
        return Err;
      }
      items := Ok(withdrawn.value + pending.value);
    }

    method Clean(enabled: bool, apply: bool) returns (ok: bool, result: Ledger)
      modifies this
      ensures Ran(OfficeRelease.Clean(old(View()), enabled, apply).plan, ok)
      ensures ok ==> result == OfficeRelease.Clean(old(View()), enabled, apply).ledger
    {
      result := ledger;
      if apply && !enabled {
        return false, ledger;
      }
      var items := ItemsToClean();
      if items == Err {
        return false, ledger;
      }
      if !apply || items.value == [] {
        return true, ledger;
      }
      if !ChannelAssured(ledger, pointer) {
        return false, ledger;
      }
      ok, result := Delete(items.value, ledger);
    }

    /** Delete one item: its release if it was there, then its tag if it is there. */
    method DeleteItem(item: Item) returns (ok: bool)
      modifies this
      ensures Ran(Plan(Removal(old(View()), item), true), ok)
      ensures ok ==> View() == Removed(old(View()), item)
    {
      ghost var start, budget := View(), calls;
      ghost var first := if item.releaseExists then [Action.DeleteRelease(item.releaseId)] else [];
      ghost var second := if item.tag in tags then [Action.DeleteTag(item.tag)] else [];
      ghost var done: seq<Action> := [];
      if item.releaseExists {
        var deleted := DeleteRelease(item.releaseId);
        if !deleted {
          PerformPart(start, [], first + second, budget);
          assert [] + (first + second) == first + second;
          return false;
        }
        done := first;
        PerformOne(start, first[0]);
      }
      if item.tag in tags {
        var deleted := DeleteTag(item.tag);
        if !deleted {
          PerformPart(start, done, second, budget);
          return false;
        }
        PerformNext(start, done, second[0]);
      } else {
        assert start.tags - {item.tag} == start.tags;
        assert done + second == done;
      }
      PerformAll(start, first + second, budget);
      ok := true;
    }

    /** The deletion loop: check the tag, delete the item, next one; then the ledger. */
    method Delete(items: seq<Item>, state: Ledger) returns (ok: bool, result: Ledger)
      modifies this
      ensures Ran(Deletions(old(View()), items, state).plan, ok)
      ensures ok ==> result == Deletions(old(View()), items, state).ledger
    {
      hide Deletions, Removal, Without, Apply, Removed;
      ghost var start, budget := View(), calls;
      ghost var done: seq<Action> := [];
      ghost var plan := Deletions(start, items, state);
      result := state;
      assert items[0..] == items;
      for n := 0 to |items|
        invariant |done| <= budget && calls == budget - |done| && View() == Perform(start, done, |done|)
        invariant Remaining(plan, done, Deletions(View(), items[n..], result))
      {
        var item := items[n];
        assert items[n..][0] == item && items[n..][1..] == items[n + 1..];
        ghost var before := View();
        DeletionsCases(before, items[n..], result);
        if !Owned(item.tag) || (item.tag in tags && tags[item.tag] != item.tagCommit) {
          assert plan.plan.actions == done;
          PerformAll(start, done, budget);
          return false, state;
        }
        ghost var removal := Removal(before, item);
        ghost var rest := Deletions(Removed(before, item), items[n + 1..], Without(result, item));
        assert plan.plan.actions == done + (removal + rest.plan.actions);
        assert done + (removal + rest.plan.actions) == (done + removal) + rest.plan.actions;
        var deleted := DeleteItem(item);
        if !deleted {
          DiesInside(start, done, removal, rest.plan.actions, budget);
          return false, state;
        }
        PerformConcat(start, done, removal, |done| + |removal|);
        PerformAll(before, removal, budget - |done|);
        done := done + removal;
        result := Without(result, item);
      }
      assert items[|items|..] == [];
      DeletionsCases(View(), [], result);
      var committed := CommitLedger(result);
      if !committed {
        PerformPart(start, done, [Action.CommitLedger(result)], budget);
        return false, state;
      }
      PerformNext(start, done, Action.CommitLedger(result));
      PerformAll(start, plan.plan.actions, budget);
      ok := true;
    }

    // ----- the operations

    method Gate(run: Run, force: bool, pilot: bool, enabled: bool, lockRelease: int)
      returns (ok: bool, due: bool, verify: bool, generation: int)
      modifies this
      ensures Ran(OfficeRelease.Gate(old(View()), run, force, pilot, enabled, lockRelease), ok)
      ensures ok && due && !pilot ==>
        View().ledger.reservation == Some(Reservation(run, Cycle(View().ledger.epoch, View().now), generation))
    {
      hide OfficeRelease.Clean;
      due, verify, generation := false, false, 0;
      if !Valid(ledger) {
        ok := false;
        return;
      }
      hide Valid;
      ghost var start, budget := View(), calls;
      ghost var cleaned := GateCleaning(start, pilot, enabled);
      ghost var done := cleaned.plan.actions;
      var state := ledger;
      if !pilot && enabled && (ledger.current.None? || ledger.channelVerified == ledger.current) {
        ok, state := Clean(enabled, true);
        if !ok {
          PerformConcat(start, done, Claiming(cleaned.ledger, start.now, run, force, pilot, enabled, lockRelease).actions, budget);
          return;
        }
      }
      PerformKeepsClock(start, done, budget);
      ghost var claiming := Claiming(state, now, run, force, pilot, enabled, lockRelease);
      assert OfficeRelease.Gate(start, run, force, pilot, enabled, lockRelease) == Plan(done + claiming.actions, claiming.ok);
      assert View() == Perform(start, done, budget) && calls == budget - |done|;
      PerformAll(start, done, budget);
      PerformConcat(start, done, claiming.actions, budget);
      ok, due, verify, generation := Claim(state, run, force, pilot, enabled, lockRelease);
    }

    /** The second half of the gate: decide, reserve a generation, or claim a verification. */
    method Claim(state: Ledger, run: Run, force: bool, pilot: bool, enabled: bool, lockRelease: int)
      returns (ok: bool, due: bool, verify: bool, generation: int)
      modifies this
      ensures Ran(Claiming(state, old(now), run, force, pilot, enabled, lockRelease), ok)
      ensures ok && due && !pilot ==>
        View().ledger.reservation == Some(Reservation(run, Cycle(View().ledger.epoch, View().now), generation))
    {
      ghost var start, budget := View(), calls;
      due, verify, generation := false, false, 0;
      var decision := Decide(enabled || pilot, state, now, force);
      if decision == Err {
        ok := false;
        return;
      }
      var d := decision.value;
      generation := Max(lockRelease + 1, state.nextGeneration);
      due, verify := d.due, d.reason == ChannelUnverified && !pilot;
      if due && !pilot {
        var claimed := Claimed(state, run, now, d.cycle, generation);
        ghost var claim := OfficeRemote.Claim(now, generation, d.cycle, force, state.completedCycle);
        hide Decide;
        ok := CommitClaim(claimed, claim);
        PerformSingle(start, Action.CommitClaim(claimed, claim), budget);
        return;
      }
      if verify && state.lastVerificationAttempt.Some? && !force && now - state.lastVerificationAttempt.value < RETRY {
        verify := false;
      }
      if verify {
        var claimed := state.(lastVerificationAttempt := Some(Recorded(now)));
        hide Decide;
        ok := CommitLedger(claimed);
        PerformSingle(start, Action.CommitLedger(claimed), budget);
        return;
      }
      ok := true;
    }

    method Checkpoint(run: Run) returns (ok: bool)
      modifies this
      ensures Ran(OfficeRelease.Checkpoint(old(View()), run), ok)
    {
      ghost var start, budget := View(), calls;
      if !Valid(ledger) || ledger.reservation.None? || ledger.reservation.value.run != run {
        return false;
      }
      var state := ledger.(completedCycle := Max(ledger.completedCycle, ledger.reservation.value.cycle),
                           lastVerifiedAt := Some(Recorded(now)));
      ok := CommitLedger(state);
      PerformSingle(start, Action.CommitLedger(state), budget);
    }

    method Cleanup(enabled: bool, apply: bool) returns (ok: bool)
      modifies this
      ensures Ran(OfficeRelease.Cleanup(old(View()), enabled, apply), ok)
    {
      if !Valid(ledger) {
        return false;
      }
      var left: Ledger;
      ok, left := Clean(enabled, apply);
    }

    /** Find or create the draft of the reserved generation and track it. */
    method Draft(run: Run, tag: Tag, id: int) returns (ok: bool)
      modifies this
      ensures Ran(Plan([Action.CreateDraft(id, tag, run.sha),
                        Action.CommitLedger(Tracked(old(ledger), tag, id, old(now), run))], true), ok)
    {
      ghost var start, budget := View(), calls;
      var state := ledger.(pending := Some(Pending(tag, id, Recorded(now), run.sha)));
      ghost var first, second := Action.CreateDraft(id, tag, run.sha), Action.CommitLedger(state);
      PerformConcat(start, [first], [second], budget);
      PerformSingle(start, first, budget);
      assert [first] + [second] == [first, second];
      ok := CreateDraft(id, tag, run.sha);
      if !ok {
        return;
      }
      PerformSingle(Apply(start, first), second, budget - 1);
      ok := CommitLedger(state);
    }

    method Stage(run: Run, pilot: bool, rpmRelease: int, id: int) returns (ok: bool)
      requires Catalogued(View())
      modifies this
      ensures Ran(OfficeRelease.Stage(old(View()), run, pilot, rpmRelease, id), ok)
    {
      hide Valid, Catalogued;
      if pilot {
        return true;
      }
      if !OwnsReservation(ledger, run, rpmRelease) {
        return false;
      }
      var tag := Office(rpmRelease);
      OneRelease(View(), tag);
      var found := ReleaseFor(tag);
      if found.None? {
        ok := Draft(run, tag, id);
        return;
      }
      assert found.value == Find(releases, tag);
      ok := releases[found.value].draft && Tracks(ledger, found.value);
    }

    method Publish(run: Run, enabled: bool, rpmRelease: int, id: int, snapshot: Commit, inventory: nat)
      returns (ok: bool)
      requires Catalogued(View())
      modifies this
      ensures Ran(OfficeRelease.Publish(old(View()), run, enabled, rpmRelease, id, snapshot, inventory), ok)
    {
      hide Valid, Catalogued, OfficeRelease.Promotion;
      if !enabled || !OwnsReservation(ledger, run, rpmRelease) {
        return false;
      }
      ghost var start, budget := View(), calls;
      var tag := Office(rpmRelease);
      OneRelease(View(), tag);
      var found := ReleaseFor(tag);
      if found.Some? && !Tracks(ledger, found.value) {
        return false;
      }
      if found.Some? {
        ok := Promotion(run, found.value, releases[found.value].draft, rpmRelease, snapshot, inventory);
        return;
      }
      ghost var drafting := [Action.CreateDraft(id, tag, run.sha), Action.CommitLedger(Tracked(ledger, tag, id, now, run))];
      ghost var rest := OfficeRelease.Promotion(Tracked(ledger, tag, id, now, run), now, run, id, true, rpmRelease, snapshot, inventory);
      PerformConcat(start, drafting, rest.actions, budget);
      ok := Draft(run, tag, id);
      if !ok {
        return;
      }
      PerformAll(start, drafting, budget);
      PerformPair(start, drafting[0], drafting[1]);
      ok := Promotion(run, id, true, rpmRelease, snapshot, inventory);
    }

    /** From the known release to the verified channel. */
    method Promotion(run: Run, id: int, draft: bool, rpmRelease: int, snapshot: Commit, inventory: nat)
      returns (ok: bool)
      requires ledger.reservation.Some?
      modifies this
      ensures Ran(OfficeRelease.Promotion(old(ledger), old(now), run, id, draft, rpmRelease, snapshot, inventory), ok)
    {
      hide Promote;
      ghost var start, budget := View(), calls;
      var tag := Office(rpmRelease);
      var state := ledger;
      ghost var opening := if draft then [Action.PublishRelease(id)] else [];
      if draft {
        PerformSingle(start, Action.PublishRelease(id), budget);
        ok := PublishRelease(id);
        if !ok {
          PerformConcat(start, opening,
            OfficeRelease.Promotion(state, now, run, id, draft, rpmRelease, snapshot, inventory).actions[|opening|..], budget);
          assert OfficeRelease.Promotion(state, now, run, id, draft, rpmRelease, snapshot, inventory).actions
            == opening + OfficeRelease.Promotion(state, now, run, id, draft, rpmRelease, snapshot, inventory).actions[|opening|..];
          return;
        }
      }
      ghost var open := View();
      PerformAll(start, opening, budget);
      var generation := Generation(rpmRelease, tag, id, run.sha, Recorded(now), inventory, None);
      var promotion := PromoteLedger(state, generation, state.reservation.value.cycle, now);
      if promotion == Err {
        return false;
      }
      var promoted := Promoted(promotion.value, snapshot, now);
      ok := Switch(promoted, id, tag, snapshot);
      PerformConcat(start, opening, Switching(promoted, id, tag, snapshot), budget);
    }

    /** Stage the metadata snapshot, offer the release, switch the pointer, confirm. */
    method Switch(promoted: Ledger, id: int, tag: Tag, snapshot: Commit) returns (ok: bool)
      modifies this
      ensures Ran(Plan(Switching(promoted, id, tag, snapshot),
                       ChannelAssured(promoted.(channelVerified := Some(tag)), Some(Snapshot(snapshot, tag)))), ok)
    {
      ghost var start, budget := View(), calls;
      ghost var plan := Switching(promoted, id, tag, snapshot);
      FourCalls(start, plan, budget);
      ok := CommitSnapshot(snapshot, tag);
      if !ok { return; }
      ok := OfferRelease(id);
      if !ok { return; }
      ok := CommitPromotion(promoted, Snapshot(snapshot, tag));
      if !ok { return; }
      ok := CommitLedger(promoted.(channelVerified := Some(tag)));
      if !ok { return; }
      ok := ChannelAssured(ledger, pointer);
    }

    method VerifyChannel() returns (ok: bool)
      modifies this
      ensures Ran(Verify(old(View())), ok)
    {
      if !Valid(ledger) || ledger.current.None? {
        return false;
      }
      ghost var start, budget := View(), calls;
      var state := ledger.(channelVerified := ledger.current);
      var id := IdOf(ledger.generations, ledger.current.value);
      ghost var first, second := Action.CommitLedger(state), Action.OfferRelease(id);
      PerformSingle(start, first, budget);
      ok := CommitLedger(state);
      PerformConcat(start, [first], [second], budget);
      assert [first] + [second] == [first, second];
      if !ok { return; }
      if !ChannelAssured(ledger, pointer) {
        return false;
      }
      PerformSingle(Apply(start, first), second, budget - 1);
      ok := OfferRelease(id);
    }

    /** One process of a run, from start to end or crash: it lands where the run model says,
        and the channel invariant survives. */
    method Process(s: Step) returns (ok: bool)
      requires Inv(View()) && Admissible(View(), s) && Fits(View(), s)
      modifies this
      ensures View() == Next(old(View()), s)
      ensures Inv(View()) && Evolves(old(View()), View())
    {
      hide Inv, Perform;
      ghost var start := View();
      StepSafe(start, s);
      StepEvolves(start, s);
      now, calls := s.now, s.calls;
      assert View() == At(start, s.now);
      InvCatalogues(start, s.now);
      match s.op {
        case DoGate(run, force, pilot, enabled, lockRelease) =>
          var due, verify, generation;
          ok, due, verify, generation := Gate(run, force, pilot, enabled, lockRelease);
        case DoCheckpoint(run) => ok := Checkpoint(run);
        case DoCleanup(enabled, apply) => ok := Cleanup(enabled, apply);
        case DoStage(run, pilot, rpmRelease, id) => ok := Stage(run, pilot, rpmRelease, id);
        case DoPublish(run, enabled, rpmRelease, id, snapshot, inventory) =>
          ok := Publish(run, enabled, rpmRelease, id, snapshot, inventory);
        case DoVerify => ok := VerifyChannel();
      }
    }
  }

  /** What is left of a plan after the calls already made. */
  ghost predicate Remaining(whole: Cleaned, done: seq<Action>, rest: Cleaned) {
    && whole.plan.actions == done + rest.plan.actions
    && whole.plan.ok == rest.plan.ok && whole.ledger == rest.ledger
  }

  lemma DeletionsCases(w: World, items: seq<Item>, l: Ledger)
    ensures items == [] ==> Deletions(w, items, l) == Cleaned(Plan([Action.CommitLedger(l)], true), l)
    ensures items != [] && TagRefused(w, items[0]) ==> Deletions(w, items, l) == Cleaned(Plan([], false), l)
    ensures items != [] && !TagRefused(w, items[0]) ==>
      var rest := Deletions(Removed(w, items[0]), items[1..], Without(l, items[0]));
      Deletions(w, items, l) == Cleaned(Plan(Removal(w, items[0]) + rest.plan.actions, rest.plan.ok), rest.ledger)
  {
  }

  lemma DiesInside(start: World, done: seq<Action>, removal: seq<Action>, rest: seq<Action>, budget: nat)
    requires |done| <= budget < |done| + |removal|
    ensures Perform(start, done + (removal + rest), budget) == Perform(Perform(start, done, |done|), removal, budget - |done|)
  {
    PerformConcat(start, done, removal + rest, budget);
    PerformConcat(Perform(start, done, |done|), removal, rest, budget - |done|);
    if budget == |done| {
      PerformAll(start, done, budget);
    }
  }

  /** A process that dies with its budget spent has performed exactly the calls it made. */
  lemma PerformPart(start: World, done: seq<Action>, rest: seq<Action>, budget: nat)
    requires |done| <= budget && (rest == [] || |done| == budget)
    ensures Perform(start, done + rest, budget) == Perform(start, done, |done|)
  {
    PerformConcat(start, done, rest, budget);
    PerformAll(start, done, budget);
  }

  lemma PerformNext(start: World, done: seq<Action>, a: Action)
    ensures Perform(start, done + [a], |done| + 1) == Apply(Perform(start, done, |done|), a)
  {
    PerformConcat(start, done, [a], |done| + 1);
    PerformOne(Perform(start, done, |done|), a);
  }

  function Switching(promoted: Ledger, id: int, tag: Tag, snapshot: Commit): seq<Action> {
    [Action.CommitSnapshot(snapshot, tag), Action.OfferRelease(id),
     Action.CommitPromotion(promoted, Snapshot(snapshot, tag)),
     Action.CommitLedger(promoted.(channelVerified := Some(tag)))]
  }

  lemma PerformSingle(w: World, a: Action, budget: nat)
    ensures Perform(w, [a], budget) == if budget == 0 then w else Apply(w, a)
  {
    if budget != 0 {
      PerformOne(w, a);
      PerformAll(w, [a], budget);
    }
  }

  lemma PerformPair(w: World, a: Action, b: Action)
    ensures Perform(w, [a, b], 2) == Apply(Apply(w, a), b)
  {
    assert [a, b][1..] == [b];
    PerformOne(Apply(w, a), b);
  }

  lemma FourCalls(w: World, a: seq<Action>, budget: nat)
    requires |a| == 4
    ensures Perform(w, a, budget) ==
      if budget == 0 then w
      else if budget == 1 then Apply(w, a[0])
      else if budget == 2 then Apply(Apply(w, a[0]), a[1])
      else if budget == 3 then Apply(Apply(Apply(w, a[0]), a[1]), a[2])
      else Apply(Apply(Apply(Apply(w, a[0]), a[1]), a[2]), a[3])
  {
    var r1, r2, r3 := a[1..], a[2..], a[3..];
    assert r1[1..] == r2 && r2[1..] == r3 && r3 == [a[3]];
    if budget > 0 {
      var w1 := Apply(w, a[0]);
      assert Perform(w, a, budget) == Perform(w1, r1, budget - 1);
      if budget > 1 {
        var w2 := Apply(w1, a[1]);
        assert Perform(w1, r1, budget - 1) == Perform(w2, r2, budget - 2);
        if budget > 2 {
          var w3 := Apply(w2, a[2]);
          assert Perform(w2, r2, budget - 2) == Perform(w3, r3, budget - 3);
          PerformSingle(w3, a[3], budget - 3);
        }
      }
    }
  }

  lemma OneRelease(w: World, tag: Tag)
    requires Catalogued(w) && tag.Office?
    ensures forall a, b ::
      (a in w.releases && b in w.releases && w.releases[a].tag == tag && w.releases[b].tag == tag) ==> a == b
  {
  }

  lemma InvCatalogues(w: World, now: Time)
    requires Inv(w)
    ensures Catalogued(At(w, now))
  {
    hide Shaped, Reserved, Timely, Pointed, Pinned, Retained, Recalled, Spaced, Traced;
  }
}
