/** Runs that show the bounds on the cadence of claims to be exact. */
module OfficeWitness {
  import opened OfficeModel
  import opened OfficeRemote
  import opened OfficeRelease
  import opened OfficeProgress

  function Gating(now: Time, run: Run, lockRelease: int): Step {
    Step(now, DoGate(run, false, false, true, lockRelease), 1)
  }

  /** Nothing on offer, withdrawn or in preparation, and a cycle to serve. */
  ghost predicate Idle(l: Ledger, now: Time) {
    && Valid(l) && l.generations == [] && l.current == None && l.pending == None
    && 0 <= Cycle(l.epoch, now) && l.completedCycle < Cycle(l.epoch, now)
    && (l.lastAttempt.Some? ==> now - l.lastAttempt.value >= RETRY)
  }

  function AfterGate(w: World, now: Time, run: Run, lockRelease: int): World {
    var cycle, generation := Cycle(w.ledger.epoch, now), Reserve(lockRelease, w.ledger);
    w.(now := now, ledger := Claimed(w.ledger, run, now, cycle, generation),
       claims := w.claims + [Claim(now, generation, cycle, false, w.ledger.completedCycle)])
  }

  lemma IdleCleans(w: World)
    requires Valid(w.ledger) && w.ledger.generations == [] && w.ledger.current == None && w.ledger.pending == None
    ensures Clean(w, true, true) == Cleaned(Plan([], true), w.ledger)
  {
    assert Active(w.ledger) == [];
    assert PlanOf(w.ledger, w.ledger.generations, Listings(w), w.now) == Ok([]);
    assert CleanItems(w) == Ok([]) by {
      var none: seq<Item> := [];
      assert none + none == none;
    }
  }

  lemma IdleGate(w: World, now: Time, run: Run, lockRelease: int)
    requires Idle(w.ledger, now) && w.now <= now && Reserve(lockRelease, w.ledger) <= MAX_GENERATION
    ensures Next(w, Gating(now, run, lockRelease)) == AfterGate(w, now, run, lockRelease)
    ensures Admissible(w, Gating(now, run, lockRelease)) && Fits(w, Gating(now, run, lockRelease))
  {
    var at, s := At(w, now), Gating(now, run, lockRelease);
    IdleCleans(at);
    var cycle, generation := Cycle(w.ledger.epoch, now), Reserve(lockRelease, w.ledger);
    assert Decide(true, at.ledger, now, false) == Ok(Decision(true, SixDayCycle, cycle));
    hide Valid, Clean, Decide;
    var claim := CommitClaim(Claimed(w.ledger, run, now, cycle, generation),
                             Claim(now, generation, cycle, false, w.ledger.completedCycle));
    assert PlanFor(at, s.op).actions == [claim] by {
      assert [] + [claim] == [claim];
    }
    PerformOne(at, claim);
  }

  lemma AfterTwo(w: World, a: Step, b: Step)
    requires Admissible(w, a) && Fits(w, a)
    requires Admissible(Next(w, a), b) && Fits(Next(w, a), b)
    ensures After(w, [a, b]) == Next(Next(w, a), b) && Allowed(w, [a, b])
  {
    hide Next, Admissible, Fits;
    AfterOne(Next(w, a), b);
    assert [a, b][1..] == [b];
  }

  lemma InitialIdle(w: World, now: Time)
    requires Initial(w) && w.ledger.epoch <= now
    ensures Idle(w.ledger, now)
  {
  }

  /** The first claim of a component leaves it idle, but for the retry time. */
  lemma ClaimedIdle(w: World, now: Time, run: Run, lockRelease: int, later: Time)
    requires Initial(w) && w.now <= now <= later && later - Recorded(now) >= RETRY
    requires Reserve(lockRelease, w.ledger) <= MAX_GENERATION
    ensures Idle(AfterGate(w, now, run, lockRelease).ledger, later)
  {
    RecordedBounds(now);
    CycleBounds(w.ledger.epoch, later);
  }

  /** Two unforced claims a second less than 24 hours apart, to the microsecond: the first in the
      last microsecond of a second. */
  lemma ClosestClaims(w: World, now: Time, run: Run, again: Run, lockRelease: int)
    requires Initial(w) && w.now <= now && now % SECOND == SECOND - 1
    requires Reserve(lockRelease, w.ledger) + 1 <= MAX_GENERATION
    ensures (var steps := [Gating(now, run, lockRelease), Gating(Recorded(now) + RETRY, again, lockRelease)];
             var claims := After(w, steps).claims;
             && Allowed(w, steps) && |claims| == 2 && !claims[1].forced
             && claims[1].time - claims[0].time == RETRY - SECOND + 1)
  {
    var later := Recorded(now) + RETRY;
    var u := AfterGate(w, now, run, lockRelease);
    InitialIdle(w, now);
    IdleGate(w, now, run, lockRelease);
    ClaimedIdle(w, now, run, lockRelease, later);
    assert Reserve(lockRelease, u.ledger) <= MAX_GENERATION;
    hide Initial, Idle, Next, Admissible, Fits;
    IdleGate(u, later, again, lockRelease);
    AfterTwo(w, Gating(now, run, lockRelease), Gating(later, again, lockRelease));
  }

  /** A cycle completed at its own boundary, from which the next claim is a whole period away: the
      first claim of a component, made and checked at its epoch. */
  lemma BoundaryReached(w: World, run: Run, lockRelease: int)
    requires Initial(w) && w.now == w.ledger.epoch && Reserve(lockRelease, w.ledger) <= MAX_GENERATION
    ensures (var steps := [Gating(w.now, run, lockRelease), Step(w.now, DoCheckpoint(run), 1)];
             var u := After(w, steps);
             && Allowed(w, steps) && u.now == w.now
             && u.now == u.ledger.epoch + u.ledger.completedCycle * PERIOD)
  {
    var s := Step(w.now, DoCheckpoint(run), 1);
    var u := AfterGate(w, w.now, run, lockRelease);
    InitialIdle(w, w.now);
    IdleGate(w, w.now, run, lockRelease);
    CheckpointAtEpoch(w, run, lockRelease);
    hide Initial, Idle, Next, Admissible, Fits;
    AfterTwo(w, Gating(w.now, run, lockRelease), s);
  }

  lemma CheckpointAtEpoch(w: World, run: Run, lockRelease: int)
    requires Initial(w) && w.now == w.ledger.epoch && Reserve(lockRelease, w.ledger) <= MAX_GENERATION
    ensures (var u, s := AfterGate(w, w.now, run, lockRelease), Step(w.now, DoCheckpoint(run), 1);
             && Admissible(u, s) && Fits(u, s) && Next(u, s).now == w.now
             && Next(u, s).ledger.epoch == w.ledger.epoch && Next(u, s).ledger.completedCycle == 0)
  {
    var s := Step(w.now, DoCheckpoint(run), 1);
    var u := AfterGate(w, w.now, run, lockRelease);
    assert Valid(u.ledger) && At(u, s.now) == u;
    hide Valid, Initial;
    var commit := CommitLedger(u.ledger.(completedCycle := 0, lastVerifiedAt := Some(Recorded(u.now))));
    assert PlanFor(u, s.op).actions == [commit];
    PerformOne(u, commit);
    assert Next(u, s) == Apply(u, commit);
  }
}
