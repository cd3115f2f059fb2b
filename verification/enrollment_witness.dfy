/** Crashes from which the enrollment transaction cannot be resumed, on every machine. */
module EnrollmentWitness {
  import opened Enrollment
  import opened EnrollmentSafety
  import opened EnrollmentRecovery

  /** The steps before a first preparation opens the context file, and before an activation registers
      its first account. */
  const BEFORE_CONTEXT := 9
  const BEFORE_REGISTRATION := 22

  lemma OneAttempt(c: Config, start: Machine, n: nat)
    ensures After(c, start, [Attempt(Prepare, n)]) == Reached(c, start, Taken(Program(c, start, Prepare), n))
  {
    hide Program;
    var attempts := [Attempt(Prepare, n)];
    assert attempts[..0] == [];
    assert After(c, start, []) == start;
  }

  lemma ReachedLast(c: Config, m: Machine, steps: seq<Step>, last: Step)
    requires Final(c, m, steps).Some? && Perform(c, Final(c, m, steps).value, last).Some?
    ensures Reached(c, m, steps + [last]) == Perform(c, Final(c, m, steps).value, last).value
  {
    hide Perform;
    FinalConcat(c, m, steps, [last]);
    assert [last][1..] == [];
  }

  lemma TakenNext(xs: seq<Step>, y: Step, zs: seq<Step>)
    ensures Taken(xs + ([y] + zs), |xs| + 1) == xs + [y]
  {
    assert (xs + ([y] + zs))[..|xs| + 1] == xs + [y];
  }

  // ---------------------------------------------------------------- a context file cut short

  lemma FirstProgram(c: Config, start: Machine)
    requires Untouched(c, start)
    ensures (var front, rest := [RequireFresh, CommitPreparing] + POLICY, [FillContext, ReadableContext, LabelContext];
             && Program(c, start, Prepare) == front + ([OpenContext] + (rest + CLOSURE + Finishing(c)))
             && |front| == BEFORE_CONTEXT)
  {
    hide Finishing, CLOSURE;
    assert ContextSteps(start) == [OpenContext] + [FillContext, ReadableContext, LabelContext];
    assert |POLICY| == 7;
    hide POLICY, ContextSteps;
    var opening, rest := [RequireFresh, CommitPreparing], [FillContext, ReadableContext, LabelContext];
    assert opening + (POLICY + ([OpenContext] + rest) + CLOSURE) + Finishing(c)
      == opening + POLICY + ([OpenContext] + (rest + CLOSURE + Finishing(c)));
  }

  lemma UpToContext(c: Config, start: Machine)
    requires Untouched(c, start)
    ensures (var n := Final(c, start, [RequireFresh, CommitPreparing] + POLICY);
             && n.Some? && n.value.context.NoContext? && InPhase(n.value, Preparing))
  {
    UntouchedParts(c, start);
    OpeningClears(c, start, start);
    var opening := [RequireFresh, CommitPreparing];
    var m := Final(c, start, opening).value;
    assert start.receipt.None? && start.context.NoContext?;
    assert InPhase(m, Preparing);
    hide Untouched, Cleared, Final, Loaded, POLICY, PolicyKept;
    FinalConcat(c, start, opening, POLICY);
    PolicyLoads(c, start, m);
    LoadedParts(c, start, m);
  }

  /** The first attempt of any machine, dead between opening the context file and writing its text,
      leaves a file cut short, and the preparation can never be resumed. */
  lemma TornReached(c: Config, start: Machine)
    requires Untouched(c, start)
    ensures (var m := After(c, start, [Attempt(Prepare, BEFORE_CONTEXT + 1)]);
             m.context.Torn? && InPhase(m, Preparing) && Final(c, m, Preparation(m)).None?)
  {
    var front := [RequireFresh, CommitPreparing] + POLICY;
    var rest := [FillContext, ReadableContext, LabelContext] + CLOSURE + Finishing(c);
    FirstProgram(c, start);
    UpToContext(c, start);
    var before := Final(c, start, front).value;
    OpensTorn(c, before);
    hide *;
    OneAttempt(c, start, |front| + 1);
    TakenNext(front, OpenContext, rest);
    ReachedLast(c, start, front, OpenContext);
    var attempts := [Attempt(Prepare, |front| + 1)];
    RunRestarts(c, start, attempts);
  }

  lemma OpensTorn(c: Config, m: Machine)
    requires m.context.NoContext?
    ensures Perform(c, m, OpenContext) == Some(m.(context := Torn))
  {
  }

  // ---------------------------------------------------------------- an account registered

  lemma ActivationProgram(c: Config, start: Machine)
    requires Untouched(c, start)
    ensures c.accounts != []
    ensures (var front := Preparation(start) + [RequirePrepared];
             var rest := [AllowSudo(c.accounts[0])] + Registering(c.accounts[1..])
               + (Mapped(c.accounts) + [CommitPending, RequirePending]);
             && Program(c, start, Prepare) == front + ([Register(c.accounts[0])] + rest)
             && |front| == BEFORE_REGISTRATION)
  {
    var a, more := c.accounts[0], Registering(c.accounts[1..]);
    RegisteringFront(c.accounts);
    var tail := Mapped(c.accounts) + [CommitPending, RequirePending];
    PreparationLength(start);
    assert start.receipt.None?;
    hide Preparation, Registering, Mapped;
    assert [Register(a), AllowSudo(a)] + more == [Register(a)] + ([AllowSudo(a)] + more);
    assert Program(c, start, Prepare) == Preparation(start) + Finishing(c);
    assert Finishing(c) == [RequirePrepared] + ([Register(a)] + ([AllowSudo(a)] + more + tail));
  }

  lemma PreparationLength(start: Machine)
    requires start.receipt.None? && start.context.NoContext?
    ensures |Preparation(start)| == BEFORE_REGISTRATION - 1
  {
    assert |POLICY| == 7 && |CLOSURE| == 8 && |ContextSteps(start)| == 4;
  }

  /** The first attempt of any machine, dead behind the first registration with the broker, leaves
      inputs prepared, that account known to the broker and none mapped, and no activation can be
      run to its end. */
  lemma RegisteredReached(c: Config, start: Machine)
    requires Untouched(c, start)
    ensures (var m := After(c, start, [Attempt(Prepare, BEFORE_REGISTRATION + 1)]);
             && c.accounts != [] && m.registered == {c.accounts[0]} && InPhase(m, PreparedInputs)
             && m.entries == start.entries && Final(c, m, Program(c, m, Prepare)).None?)
  {
    ActivationProgram(c, start);
    var a, front := c.accounts[0], Preparation(start) + [RequirePrepared];
    var rest := [AllowSudo(a)] + Registering(c.accounts[1..]) + (Mapped(c.accounts) + [CommitPending, RequirePending]);
    PreparedToRegister(c, start);
    var before := Final(c, start, front).value;
    Registers(c, before, a);
    hide *;
    OneAttempt(c, start, |front| + 1);
    TakenNext(front, Register(a), rest);
    ReachedLast(c, start, front, Register(a));
    var attempts := [Attempt(Prepare, |front| + 1)];
    RunKeeps(c, start, attempts);
    NotRestarted(c, start, After(c, start, attempts));
  }

  lemma PreparedToRegister(c: Config, start: Machine)
    requires Untouched(c, start)
    ensures (var n := Final(c, start, Preparation(start) + [RequirePrepared]);
             && n.Some? && InPhase(n.value, PreparedInputs) && n.value.registered == {}
             && n.value.entries == start.entries)
  {
    assert start.context.NoContext?;
    hide Untouched, Final, Preparation, Finishing;
    RestartExactly(c, start, start);
    var n := Final(c, start, Preparation(start)).value;
    ReadyFinishes(c, start, n);
    PreparedStep(c, n);
    FinalConcat(c, start, Preparation(start), [RequirePrepared]);
    FinalOne(c, n, RequirePrepared);
  }

  lemma Registers(c: Config, m: Machine, name: Name)
    requires m.registered == {}
    ensures Perform(c, m, Register(name)) == Some(m.(registered := {name}))
  {
    assert m.registered + {name} == {name};
  }

  lemma NotRestarted(c: Config, start: Machine, m: Machine)
    requires Untouched(c, start) && Inv(c, start, m) && InPhase(m, PreparedInputs) && m.registered != {}
    ensures Final(c, m, Program(c, m, Prepare)).None?
  {
    hide Final, PolicyKept;
    ActivationRestartsExactly(c, start, m);
  }
}
