/** Whole runs of the Office workflow: what the public channel points to, which numbers
    and tags are used, when claims come, and what deletions ever touch. */
module OfficeHistory {
  import opened OfficeModel
  import opened OfficeRemote
  import opened OfficeRelease
  import opened OfficeInvariant
  import opened OfficeSafety

  /** In every world a run reaches, the public pointer serves exactly the metadata of the
      current generation, and every generation on offer, or withdrawn for less than the
      grace, still has its published release and its tag at the commit it was built from. */
  lemma ChannelServed(w: World, steps: seq<Step>)
    requires Initial(w) && Allowed(w, steps)
    ensures var v := After(w, steps);
      && (v.ledger.current.Some? ==>
            && v.ledger.metadataCommit.Some?
            && v.pointer == Some(Snapshot(v.ledger.metadataCommit.value, v.ledger.current.value))
            && v.ledger.metadataCommit.value in v.snapshots
            && v.snapshots[v.ledger.metadataCommit.value] == v.ledger.current.value)
      && (forall g :: g in v.ledger.generations && !Expired(g, v.now) ==> Intact(v, g))
  {
    InitialInv(w);
    RunSafe(w, steps);
    var v := After(w, steps);
    hide Shaped, Reserved, Timely, Catalogued, Pinned, Recalled, Spaced, Traced;
    forall g | g in v.ledger.generations && !Expired(g, v.now) ensures Intact(v, g) {
      var i :| 0 <= i < |v.ledger.generations| && v.ledger.generations[i] == g;
    }
  }

  /** In every world a run reaches, the ledger is accepted, holds at most three generations
      on offer and one withdrawn, and its current generation is the newest on offer. A
      draft is never open while a withdrawn generation waits. */
  lemma RetentionHolds(w: World, steps: seq<Step>)
    requires Initial(w) && Allowed(w, steps)
    ensures var l := After(w, steps).ledger;
      && Valid(l) && |l.generations| <= 4 && |Active(l)| <= 3 && |l.generations| <= |Active(l)| + 1
      && (l.generations != [] ==> Active(l) != [] && l.current == Some(Active(l)[0].tag))
      && (forall g :: g in l.generations ==> g.number < l.nextGeneration)
      && (l.pending.Some? ==> forall g :: g in l.generations ==> !Withdrawn(g))
  {
    InitialInv(w);
    RunSafe(w, steps);
    NewestLeads(After(w, steps).ledger);
    hide Timely, Pointed, Catalogued, Pinned, Retained, Recalled, Spaced, Traced;
  }

  lemma NewestLeads(l: Ledger)
    requires Shaped(l)
    ensures l.generations != [] ==> Active(l) != [] && l.current == Some(Active(l)[0].tag)
    ensures |Active(l)| <= KEEP && |l.generations| <= |Active(l)| + 1
  {
    if |l.generations| == KEEP + 1 {
      var rest := l.generations[1..];
      OfferedTail(l.generations);
      OpenRunActive(rest);
      assert rest[|rest| - 1] == l.generations[KEEP];
    } else {
      OpenRunActive(l.generations);
    }
  }

  lemma {:induction false} OfferedTail(gens: seq<Generation>)
    requires gens != [] && Withdrawn(gens[0])
    ensures Offered(gens) == Offered(gens[1..])
  {
    var n := |gens| - 1;
    if n > 0 {
      OfferedTail(gens[..n]);
      assert gens[1..][..n - 1] == gens[..n][1..];
    } else {
      assert Offered(gens[..0]) == [];
    }
  }

  /** Every call an operation of a run would make, at every crash point: releases and tags
      are deleted only behind the verified channel and only when they are tracked and their
      48 hours are over; drafts take the reserved number only while nothing carries it. */
  lemma EveryCallLawful(w: World, steps: seq<Step>, i: nat, k: nat)
    requires Initial(w) && Allowed(w, steps) && i < |steps|
    requires k < |PlanFor(At(After(w, steps[..i]), steps[i].now), steps[i].op).actions|
    ensures var v := At(After(w, steps[..i]), steps[i].now);
      var actions := PlanFor(v, steps[i].op).actions;
      Lawful(Perform(v, actions, k), actions[k])
  {
    hide Inv, Initial, Lawful, PlanFor, Perform;
    InitialInv(w);
    AllowedPrefix(w, steps, i);
    RunSafe(w, steps[..i]);
    var v := After(w, steps[..i]);
    StepSafe(v, steps[i]);
    SafePrefix(At(v, steps[i].now), PlanFor(At(v, steps[i].now), steps[i].op).actions, k);
  }

  lemma {:induction false} AllowedPrefix(w: World, steps: seq<Step>, i: nat)
    requires Allowed(w, steps) && i < |steps|
    ensures Allowed(w, steps[..i])
    ensures Admissible(After(w, steps[..i]), steps[i]) && Fits(After(w, steps[..i]), steps[i])
    decreases |steps|
  {
    hide Next, Admissible, Fits;
    if i > 0 {
      assert steps[..i][0] == steps[0] && steps[..i][1..] == steps[1..][..i - 1];
      AllowedPrefix(Next(w, steps[0]), steps[1..], i - 1);
    }
  }

  lemma StepEvolves(w: World, s: Step)
    requires Inv(w) && Admissible(w, s) && Fits(w, s)
    ensures Evolves(w, Next(w, s))
  {
    hide Inv, PlanFor, Perform;
    StepSafe(w, s);
    var at := At(w, s.now);
    SafePrefix(at, PlanFor(at, s.op).actions, s.calls);
    assert Evolves(w, at);
    EvolvesOn(w, at, Next(w, s));
  }

  lemma {:induction false} RunEvolves(w: World, steps: seq<Step>)
    requires Inv(w) && Allowed(w, steps)
    ensures Evolves(w, After(w, steps))
    decreases |steps|
  {
    hide Inv, Next, Admissible, Fits;
    if steps != [] {
      StepSafe(w, steps[0]);
      StepEvolves(w, steps[0]);
      RunEvolves(Next(w, steps[0]), steps[1..]);
      EvolvesOn(w, Next(w, steps[0]), After(w, steps));
    }
  }

  /** Reserved numbers over a whole run: each claim takes a number larger than every
      earlier claim, than every number in the ledger and than every tag ever issued. */
  lemma NumbersNeverReused(w: World, before: seq<Step>, after: seq<Step>)
    requires Initial(w) && Allowed(w, before) && Allowed(After(w, before), after)
    ensures var u := After(w, before);
      var v := After(u, after);
      && u.claims <= v.claims
      && (forall i, j :: 0 <= i < j < |v.claims| ==> v.claims[i].generation < v.claims[j].generation)
      && (forall j :: |u.claims| <= j < |v.claims| ==>
            && (forall g :: g in u.ledger.generations ==> g.number < v.claims[j].generation)
            && (forall id :: id in u.issued && u.issued[id].Office? ==> u.issued[id].number < v.claims[j].generation))
  {
    InitialInv(w);
    RunSafe(w, before);
    var u := After(w, before);
    RunSafe(u, after);
    RunEvolves(u, after);
    NumbersBelow(u);
    hide Shaped, Reserved, Timely, Pointed, Pinned, Retained, Recalled, Traced, Catalogued;
  }

  lemma NumbersBelow(u: World)
    requires Inv(u)
    ensures forall g :: g in u.ledger.generations ==> g.number < u.ledger.nextGeneration
    ensures forall id :: id in u.issued && u.issued[id].Office? ==> u.issued[id].number < u.ledger.nextGeneration
  {
    hide Shaped, Timely, Pointed, Pinned, Retained, Recalled, Spaced, Traced;
  }

  lemma CadenceBetween(u: World, v: World, j: nat)
    requires Recalled(v) && Spaced(v.claims) && Evolves(u, v)
    requires |u.claims| <= j < |v.claims| && !v.claims[j].forced
    ensures v.claims[j].time >= u.ledger.epoch + (u.ledger.completedCycle + 1) * PERIOD
    ensures forall i :: 0 <= i < j ==> v.claims[j].time - Recorded(v.claims[i].time) >= RETRY
  {
    CycleBounds(u.ledger.epoch, v.claims[j].time);
    assert v.claims[j].cycle >= u.ledger.completedCycle + 1;
  }

  ghost predicate Paced(u: World, v: World) {
    && u.ledger.completedCycle <= v.ledger.completedCycle <= Cycle(u.ledger.epoch, v.now)
    && forall j :: |u.claims| <= j < |v.claims| && !v.claims[j].forced ==>
         && v.claims[j].time >= u.ledger.epoch + (u.ledger.completedCycle + 1) * PERIOD
         && forall i :: 0 <= i < j ==> v.claims[j].time - Recorded(v.claims[i].time) >= RETRY
  }

  /** Cadence between any two moments of a run. The completed cycle never goes back and
      never passes the current one; once a cycle is complete, an unforced claim waits for the
      next six-day boundary, and comes at least 24 hours after the recorded time of every
      earlier claim. */
  lemma CadenceHolds(w: World, before: seq<Step>, after: seq<Step>)
    requires Initial(w) && Allowed(w, before) && Allowed(After(w, before), after)
    ensures Paced(After(w, before), After(After(w, before), after))
  {
    hide Initial, Allowed, After, Evolves, Inv;
    InitialInv(w);
    RunSafe(w, before);
    var u := After(w, before);
    RunSafe(u, after);
    RunEvolves(u, after);
    PacedFrom(u, After(u, after));
  }

  lemma PacedFrom(u: World, v: World)
    requires Inv(v) && Evolves(u, v)
    ensures Paced(u, v)
  {
    hide Shaped, Reserved, Pointed, Catalogued, Pinned, Retained, Traced;
    assert Recalled(v) && Spaced(v.claims) && v.ledger.completedCycle <= Cycle(u.ledger.epoch, v.now);
    hide Recalled, Spaced, Timely, Recorded, Cycle;
    forall j | |u.claims| <= j < |v.claims| && !v.claims[j].forced
      ensures v.claims[j].time >= u.ledger.epoch + (u.ledger.completedCycle + 1) * PERIOD
      ensures forall i :: 0 <= i < j ==> v.claims[j].time - Recorded(v.claims[i].time) >= RETRY {
      CadenceBetween(u, v, j);
    }
  }

  /** In real time two claims can be closer than 24 hours, but by less than one second. */
  lemma SpacingInRealTime(w: World, steps: seq<Step>, i: nat, j: nat)
    requires Initial(w) && Allowed(w, steps)
    requires i < j < |After(w, steps).claims| && !After(w, steps).claims[j].forced
    ensures After(w, steps).claims[j].time - After(w, steps).claims[i].time > RETRY - SECOND
  {
    assert steps + [] == steps;
    InitialInv(w);
    RunSafe(w, steps);
    hide Shaped, Reserved, Timely, Pointed, Catalogued, Pinned, Retained, Recalled, Traced;
    RecordedBounds(After(w, steps).claims[i].time);
  }
}
