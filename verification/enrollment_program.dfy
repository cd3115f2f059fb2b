/** The enrollment program as it runs: its commands change one machine step by step and can be cut
    off after any step. */
module EnrollmentProgram {
  import opened Enrollment
  import opened EnrollmentSafety

  /** Where the steps stop when at most `left` of them can be taken. */
  function Stop(c: Config, m: Machine, steps: seq<Step>, left: nat): Machine {
    Reached(c, m, Taken(steps, left))
  }

  /** All the steps are taken and none raises. */
  predicate Completes(c: Config, m: Machine, steps: seq<Step>, left: nat) {
    |steps| <= left && Final(c, m, steps).Some?
  }

  lemma StopConcat(c: Config, m: Machine, xs: seq<Step>, ys: seq<Step>, left: nat)
    ensures Completes(c, m, xs, left) ==>
      && Stop(c, m, xs, left) == Final(c, m, xs).value
      && Stop(c, m, xs + ys, left) == Stop(c, Final(c, m, xs).value, ys, left - |xs|)
      && (Completes(c, m, xs + ys, left) <==> Completes(c, Final(c, m, xs).value, ys, left - |xs|))
    ensures !Completes(c, m, xs, left) ==>
      Stop(c, m, xs + ys, left) == Stop(c, m, xs, left) && !Completes(c, m, xs + ys, left)
  {
    hide Final, Reached;
    TakenConcat(xs, ys, left);
    TakenAll(xs);
    FinalConcat(c, m, xs, ys);
    FinalIsReached(c, m, xs);
    if left >= |xs| {
      FinalConcat(c, m, xs, Taken(ys, left - |xs|));
      assert Taken(xs, left) == xs;
    }
  }

  lemma StopOne(c: Config, m: Machine, step: Step, left: nat)
    ensures Completes(c, m, [step], left) <==> left > 0 && Perform(c, m, step).Some?
    ensures Stop(c, m, [step], left)
      == if Completes(c, m, [step], left) then Perform(c, m, step).value else m
  {
    FinalOne(c, m, step);
    assert left > 0 ==> Taken([step], left) == [step];
    assert Taken([step], 0) == [] && [step][1..] == [];
    hide Perform;
    var next := Perform(c, m, step);
    assert next.None? ==> Reached(c, m, [step]) == m;
    assert next.Some? ==> Reached(c, m, [step]) == Reached(c, next.value, []);
  }

  lemma CheckReads(c: Config, m: Machine, left: nat)
    ensures Stop(c, m, [RequirePending], left) == m
  {
    StopOne(c, m, RequirePending, left);
    hide Stop, Completes, Enrolled;
  }

  lemma StopNone(c: Config, m: Machine, left: nat)
    ensures Completes(c, m, [], left) && Stop(c, m, [], left) == m
  {
  }

  class Installer {
    const c: Config
    var machine: Machine
    /** How many steps are taken before the machine loses power. */
    var left: nat

    constructor (c: Config, machine: Machine, left: nat)
      ensures this.c == c && this.machine == machine && this.left == left
    {
      this.c, this.machine, this.left := c, machine, left;
    }

    method Do(step: Step) returns (ok: bool)
      modifies this
      ensures ok <==> Completes(c, old(machine), [step], old(left))
      ensures machine == Stop(c, old(machine), [step], old(left))
      ensures ok ==> left == old(left) - 1
    {
      StopOne(c, machine, step, left);
      if left == 0 {
        return false;
      }
      left := left - 1;
      var next := Perform(c, machine, step);
      if next.None? {
        return false;
      }
      machine := next.value;
      return true;
    }

    method DoAll(steps: seq<Step>) returns (ok: bool)
      modifies this
      ensures ok <==> Completes(c, old(machine), steps, old(left))
      ensures machine == Stop(c, old(machine), steps, old(left))
      ensures ok ==> left == old(left) - |steps|
    {
      hide *;
      StopNone(c, machine, left);
      for i := 0 to |steps|
        invariant Completes(c, old(machine), steps[..i], old(left))
        invariant machine == Stop(c, old(machine), steps[..i], old(left))
        invariant left == old(left) - i
      {
        StopConcat(c, old(machine), steps[..i], [steps[i]], old(left));
        assert steps[..i + 1] == steps[..i] + [steps[i]];
        var done := Do(steps[i]);
        if !done {
          StopConcat(c, old(machine), steps[..i + 1], steps[i + 1..], old(left));
          assert steps == steps[..i + 1] + steps[i + 1..];
          return false;
        }
      }
      assert steps[..|steps|] == steps;
      return true;
    }

    /** Read-only: is every account enrolled? */
    method Check() returns (ok: bool)
      modifies this
      ensures machine == old(machine)
      ensures machine == Stop(c, old(machine), [RequirePending], old(left))
      ensures ok <==> Completes(c, old(machine), [RequirePending], old(left))
    {
      CheckReads(c, machine, left);
      ok := Do(RequirePending);
    }

    method PrepareInputs(resume: bool) returns (ok: bool)
      modifies this
      ensures (var steps := (if resume then DISCARDING else []) + Assembly(old(machine));
               && (ok <==> Completes(c, old(machine), steps, old(left)))
               && machine == Stop(c, old(machine), steps, old(left))
               && (ok ==> left == old(left) - |steps|))
    {
      ghost var was := machine;
      ghost var context := ContextSteps(was);
      AssemblyParts(was, resume);
      hide *;
      ghost var opening := if resume then DISCARDING else [];
      StopConcat(c, was, opening, Assembly(was), left);
      StopNone(c, was, left);
      ghost var budget := left;
      if resume {
        ok := DoAll(DISCARDING);
        if !ok {
          return;
        }
      }
      ghost var m1 := machine;
      StopConcat(c, m1, POLICY, ContextSteps(was) + CLOSURE, left);
      ghost var left1 := left;
      ok := DoAll(POLICY);
      if !ok {
        return;
      }
      ghost var m2 := machine;
      ListsElsewhere();
      StopNone(c, was, budget);
      ContextKept(c, was, opening, budget);
      ContextKept(c, m1, POLICY, left1);
      StopConcat(c, m2, ContextSteps(was), CLOSURE, left);
      ContextSame(was, m2);
      if machine.context.NoContext? {
        ok := DoAll([OpenContext, FillContext, ReadableContext, LabelContext]);
      } else {
        ok := DoAll([RequireContext]);
      }
      if !ok {
        return;
      }
      ok := DoAll(CLOSURE);
    }

    /** Registers, maps and commits; every failure leaves the machine where it is. */
    method FinishPreparation() returns (ok: bool)
      modifies this
      ensures ok <==> Completes(c, old(machine), Finishing(c), old(left))
      ensures machine == Stop(c, old(machine), Finishing(c), old(left))
    {
      ghost var was, budget := machine, left;
      FinishingIs(c);
      ghost var commit := [CommitPending, RequirePending];
      FinishingGroups(c);
      hide *;
      StopConcat(c, was, [RequirePrepared], Registering(c.accounts) + (Mapped(c.accounts) + commit), left);
      ok := Do(RequirePrepared);
      if !ok {
        return;
      }
      ghost var m1 := machine;
      StopConcat(c, m1, Registering(c.accounts), Mapped(c.accounts) + commit, left);
      ok := RegisterAll();
      if !ok {
        return;
      }
      ghost var m2 := machine;
      StopConcat(c, m2, Mapped(c.accounts), commit, left);
      ok := MapAll();
      if !ok {
        return;
      }
      ok := DoAll([CommitPending, RequirePending]);
    }

    method RegisterAll() returns (ok: bool)
      modifies this
      ensures ok <==> Completes(c, old(machine), Registering(c.accounts), old(left))
      ensures machine == Stop(c, old(machine), Registering(c.accounts), old(left))
      ensures ok ==> left == old(left) - |Registering(c.accounts)|
    {
      ghost var was, budget := machine, left;
      hide *;
      StopNone(c, was, budget);
      RegisteringNone();
      assert c.accounts[..0] == [];
      for i := 0 to |c.accounts|
        invariant Completes(c, was, Registering(c.accounts[..i]), budget)
        invariant machine == Stop(c, was, Registering(c.accounts[..i]), budget)
        invariant left == budget - |Registering(c.accounts[..i])|
      {
        ghost var front, step := Registering(c.accounts[..i]), [Register(c.accounts[i]), AllowSudo(c.accounts[i])];
        RegisteringEnds(c.accounts, i);
        StopConcat(c, was, front, step, budget);
        StopConcat(c, was, front + step, Registering(c.accounts[i + 1..]), budget);
        ok := DoAll([Register(c.accounts[i]), AllowSudo(c.accounts[i])]);
        if !ok {
          return;
        }
      }
      assert c.accounts[..|c.accounts|] == c.accounts;
      return true;
    }

    method MapAll() returns (ok: bool)
      modifies this
      ensures ok <==> Completes(c, old(machine), Mapped(c.accounts), old(left))
      ensures machine == Stop(c, old(machine), Mapped(c.accounts), old(left))
      ensures ok ==> left == old(left) - |Mapped(c.accounts)|
    {
      ghost var was, budget := machine, left;
      hide *;
      StopNone(c, was, budget);
      MappedNone();
      assert c.accounts[..0] == [];
      for i := 0 to |c.accounts|
        invariant Completes(c, was, Mapped(c.accounts[..i]), budget)
        invariant machine == Stop(c, was, Mapped(c.accounts[..i]), budget)
        invariant left == budget - |Mapped(c.accounts[..i])|
      {
        ghost var front, step := Mapped(c.accounts[..i]), [MapAccount(c.accounts[i])];
        MappedEnds(c.accounts, i);
        StopConcat(c, was, front, step, budget);
        StopConcat(c, was, front + step, Mapped(c.accounts[i + 1..]), budget);
        ok := Do(MapAccount(c.accounts[i]));
        if !ok {
          return;
        }
      }
      assert c.accounts[..|c.accounts|] == c.accounts;
      return true;
    }

    method Prepare() returns (ok: bool)
      modifies this
      ensures machine == Stop(c, old(machine), Program(c, old(machine), Command.Prepare), old(left))
      ensures ok <==> Completes(c, old(machine), Program(c, old(machine), Command.Prepare), old(left))
    {
      ghost var was, budget := machine, left;
      ProgramParts(c, was);
      hide *;
      if machine.receipt.None? {
        StopConcat(c, was, [RequireFresh, CommitPreparing], Assembly(was), left);
        StopConcat(c, was, [RequireFresh, CommitPreparing] + Assembly(was), Finishing(c), left);
        ok := DoAll([RequireFresh, CommitPreparing]);
        if !ok {
          return;
        }
        ListsElsewhere();
        ContextKept(c, was, [RequireFresh, CommitPreparing], budget);
        ContextSame(was, machine);
        assert [] + Assembly(was) == Assembly(was);
        ok := PrepareInputs(false);
        if !ok {
          return;
        }
        ok := FinishPreparation();
      } else {
        match machine.receipt.value.phase
        case Preparing =>
          StopConcat(c, was, [RequirePreparing], DISCARDING + Assembly(was), left);
          StopConcat(c, was, [RequirePreparing] + (DISCARDING + Assembly(was)), Finishing(c), left);
          ok := Do(RequirePreparing);
          if !ok {
            return;
          }
          ListsElsewhere();
          ContextKept(c, was, [RequirePreparing], budget);
          ContextSame(was, machine);
          ok := PrepareInputs(true);
          if !ok {
            return;
          }
          ok := FinishPreparation();
        case PreparedInputs =>
          ok := FinishPreparation();
        case PendingSession =>
          ok := Check();
        case Unenrolled =>
          ok := Check();
      }
    }

    method Rollback() returns (ok: bool)
      modifies this
      ensures machine == Stop(c, old(machine), Program(c, old(machine), Command.Rollback), old(left))
      ensures ok <==> Completes(c, old(machine), Program(c, old(machine), Command.Rollback), old(left))
    {
      ghost var was, budget := machine, left;
      RollbackIs(c, was);
      hide *;
      StopConcat(c, was, Restoring(c.accounts), [CommitUnenrolled], budget);
      StopNone(c, was, budget);
      RestoringNone();
      assert c.accounts[..0] == [];
      for i := 0 to |c.accounts|
        invariant Completes(c, was, Restoring(c.accounts[..i]), budget)
        invariant machine == Stop(c, was, Restoring(c.accounts[..i]), budget)
        invariant left == budget - |Restoring(c.accounts[..i])|
      {
        ghost var front, step := Restoring(c.accounts[..i]), [UnmapAccount(c.accounts[i]), RequireRestored(c.accounts[i])];
        RestoringEnds(c.accounts, i);
        StopConcat(c, was, front, step, budget);
        StopConcat(c, was, front + step, Restoring(c.accounts[i + 1..]), budget);
        ok := DoAll([UnmapAccount(c.accounts[i]), RequireRestored(c.accounts[i])]);
        if !ok {
          return;
        }
      }
      assert c.accounts[..|c.accounts|] == c.accounts;
      ok := Do(CommitUnenrolled);
    }
  }

  // ---------------------------------------------------------------- the context file

  /** Steps that do not write the context file. */
  predicate Elsewhere(step: Step) {
    !step.OpenContext? && !step.FillContext? && !step.ReadableContext? && !step.LabelContext?
  }

  lemma {:induction false} FinalKeepsContext(c: Config, m: Machine, steps: seq<Step>)
    requires forall s <- steps :: Elsewhere(s)
    ensures Final(c, m, steps).Some? ==> Final(c, m, steps).value.context == m.context
    decreases |steps|
  {
    if steps != [] {
      assert steps[0] in steps && forall s <- steps[1..] :: s in steps;
      StepKeepsContext(c, m, steps[0]);
      hide Perform, Elsewhere;
      if Perform(c, m, steps[0]).Some? {
        FinalKeepsContext(c, Perform(c, m, steps[0]).value, steps[1..]);
      }
    }
  }

  lemma StepKeepsContext(c: Config, m: Machine, step: Step)
    requires Elsewhere(step)
    ensures Perform(c, m, step).Some? ==> Perform(c, m, step).value.context == m.context
  {
    hide MayStart, MayResume, MayFinish, Enrolled, PreparedNow;
  }

  lemma ContextKept(c: Config, m: Machine, steps: seq<Step>, left: nat)
    requires forall s <- steps :: Elsewhere(s)
    ensures Completes(c, m, steps, left) ==> Stop(c, m, steps, left).context == m.context
  {
    FinalKeepsContext(c, m, steps);
    StopConcat(c, m, steps, [], left);
    hide Elsewhere, Final, Reached;
  }

  lemma ListsElsewhere()
    ensures forall s <- DISCARDING :: Elsewhere(s)
    ensures forall s <- POLICY :: Elsewhere(s)
    ensures forall s <- [RequireFresh, CommitPreparing] :: Elsewhere(s)
    ensures forall s <- [RequirePreparing] :: Elsewhere(s)
  {
  }

  lemma ContextSame(m: Machine, n: Machine)
    ensures ContextSteps(m)
      == if m.context.NoContext? then [OpenContext, FillContext, ReadableContext, LabelContext] else [RequireContext]
    ensures m.context == n.context ==> ContextSteps(m) == ContextSteps(n) && Assembly(m) == Assembly(n)
  {
  }

  // ---------------------------------------------------------------- how the lists are put together

  lemma SliceSplit<T>(s: seq<T>, i: nat)
    requires i < |s|
    ensures s[..i + 1] == s[..i] + [s[i]] && s == s[..i + 1] + s[i + 1..]
  {
  }

  lemma RegisteringEnds(accounts: seq<Name>, i: nat)
    requires i < |accounts|
    ensures Registering(accounts[..i + 1]) == Registering(accounts[..i]) + [Register(accounts[i]), AllowSudo(accounts[i])]
      && Registering(accounts) == Registering(accounts[..i + 1]) + Registering(accounts[i + 1..])
  {
    hide *;
    SliceSplit(accounts, i);
    RegisteringSplit(accounts[..i], [accounts[i]]);
    RegisteringSplit(accounts[..i + 1], accounts[i + 1..]);
    RegisteringSingle(accounts[i]);
  }

  lemma RegisteringNone()
    ensures Registering([]) == []
  {
  }

  lemma RegisteringSingle(a: Name)
    ensures Registering([a]) == [Register(a), AllowSudo(a)]
  {
    RegisteringNone();
    assert [a][1..] == [];
  }

  lemma {:induction false} RegisteringSplit(xs: seq<Name>, ys: seq<Name>)
    ensures Registering(xs + ys) == Registering(xs) + Registering(ys)
    decreases |xs|
  {
    if xs == [] {
      assert xs + ys == ys;
    } else {
      assert (xs + ys)[1..] == xs[1..] + ys;
      RegisteringSplit(xs[1..], ys);
    }
  }

  lemma MappedEnds(accounts: seq<Name>, i: nat)
    requires i < |accounts|
    ensures Mapped(accounts[..i + 1]) == Mapped(accounts[..i]) + [MapAccount(accounts[i])]
      && Mapped(accounts) == Mapped(accounts[..i + 1]) + Mapped(accounts[i + 1..])
  {
    hide *;
    SliceSplit(accounts, i);
    MappedSplit(accounts[..i], [accounts[i]]);
    MappedSplit(accounts[..i + 1], accounts[i + 1..]);
    MappedSingle(accounts[i]);
  }

  lemma MappedNone()
    ensures Mapped([]) == []
  {
  }

  lemma MappedSingle(a: Name)
    ensures Mapped([a]) == [MapAccount(a)]
  {
    MappedNone();
    assert [a][1..] == [];
  }

  lemma {:induction false} MappedSplit(xs: seq<Name>, ys: seq<Name>)
    ensures Mapped(xs + ys) == Mapped(xs) + Mapped(ys)
    decreases |xs|
  {
    if xs == [] {
      assert xs + ys == ys;
    } else {
      assert (xs + ys)[1..] == xs[1..] + ys;
      MappedSplit(xs[1..], ys);
    }
  }

  lemma RestoringEnds(accounts: seq<Name>, i: nat)
    requires i < |accounts|
    ensures Restoring(accounts[..i + 1])
         == Restoring(accounts[..i]) + [UnmapAccount(accounts[i]), RequireRestored(accounts[i])]
      && Restoring(accounts) == Restoring(accounts[..i + 1]) + Restoring(accounts[i + 1..])
  {
    hide *;
    SliceSplit(accounts, i);
    RestoringSplit(accounts[..i], [accounts[i]]);
    RestoringSplit(accounts[..i + 1], accounts[i + 1..]);
    RestoringSingle(accounts[i]);
  }

  lemma RestoringNone()
    ensures Restoring([]) == []
  {
  }

  lemma RestoringSingle(a: Name)
    ensures Restoring([a]) == [UnmapAccount(a), RequireRestored(a)]
  {
    RestoringNone();
    assert [a][1..] == [];
  }

  lemma {:induction false} RestoringSplit(xs: seq<Name>, ys: seq<Name>)
    ensures Restoring(xs + ys) == Restoring(xs) + Restoring(ys)
    decreases |xs|
  {
    if xs == [] {
      assert xs + ys == ys;
    } else {
      assert (xs + ys)[1..] == xs[1..] + ys;
      RestoringSplit(xs[1..], ys);
    }
  }

  lemma FinishingGroups(c: Config)
    ensures Finishing(c)
      == [RequirePrepared] + (Registering(c.accounts) + (Mapped(c.accounts) + [CommitPending, RequirePending]))
  {
    hide Registering, Mapped;
  }

  lemma RollbackIs(c: Config, m: Machine)
    ensures Program(c, m, Command.Rollback) == Restoring(c.accounts) + [CommitUnenrolled]
  {
  }

  lemma AssemblyParts(m: Machine, resume: bool)
    ensures Assembly(m) == POLICY + (ContextSteps(m) + CLOSURE)
  {
    hide POLICY, CLOSURE, ContextSteps;
  }

  lemma ProgramParts(c: Config, m: Machine)
    ensures m.receipt.None?
      ==> Program(c, m, Command.Prepare) == ([RequireFresh, CommitPreparing] + Assembly(m)) + Finishing(c)
    ensures InPhase(m, Preparing)
      ==> Program(c, m, Command.Prepare) == ([RequirePreparing] + (DISCARDING + Assembly(m))) + Finishing(c)
    ensures InPhase(m, PreparedInputs) ==> Program(c, m, Command.Prepare) == Finishing(c)
    ensures InPhase(m, PendingSession) || InPhase(m, Unenrolled) ==> Program(c, m, Command.Prepare) == [RequirePending]
    ensures m.receipt.Some? ==> InPhase(m, m.receipt.value.phase)
  {
    hide Assembly, Finishing;
    assert [RequirePreparing] + DISCARDING + Assembly(m) == [RequirePreparing] + (DISCARDING + Assembly(m));
  }
}
