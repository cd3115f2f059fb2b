/** What every interrupted enrollment keeps. */
module EnrollmentSafety {
  import opened Enrollment

  // ---------------------------------------------------------------- lists of steps

  lemma {:induction false} FinalConcat(c: Config, m: Machine, xs: seq<Step>, ys: seq<Step>)
    ensures Final(c, m, xs + ys) == if Final(c, m, xs).None? then None else Final(c, Final(c, m, xs).value, ys)
    ensures Reached(c, m, xs + ys)
      == if Final(c, m, xs).None? then Reached(c, m, xs) else Reached(c, Final(c, m, xs).value, ys)
    decreases |xs|
  {
    hide Perform;
    if xs == [] {
      assert xs + ys == ys;
    } else {
      assert (xs + ys)[1..] == xs[1..] + ys && (xs + ys)[0] == xs[0];
      if Perform(c, m, xs[0]).Some? {
        FinalConcat(c, Perform(c, m, xs[0]).value, xs[1..], ys);
      }
    }
  }

  lemma {:induction false} FinalIsReached(c: Config, m: Machine, steps: seq<Step>)
    ensures Final(c, m, steps).Some? ==> Reached(c, m, steps) == Final(c, m, steps).value
    decreases |steps|
  {
    hide Perform;
    if steps != [] && Perform(c, m, steps[0]).Some? {
      FinalIsReached(c, Perform(c, m, steps[0]).value, steps[1..]);
    }
  }

  lemma TakenConcat(xs: seq<Step>, ys: seq<Step>, n: nat)
    ensures n < |xs| ==> Taken(xs + ys, n) == Taken(xs, n)
    ensures n >= |xs| ==> Taken(xs + ys, n) == xs + Taken(ys, n - |xs|)
  {
  }

  /** Wherever an attempt at these steps stops, the invariant holds. */
  ghost predicate Safe(c: Config, start: Machine, m: Machine, steps: seq<Step>) {
    forall n: nat :: Inv(c, start, Reached(c, m, Taken(steps, n)))
  }

  lemma SafeConcat(c: Config, start: Machine, m: Machine, xs: seq<Step>, ys: seq<Step>)
    requires Safe(c, start, m, xs)
    requires Final(c, m, xs).Some? ==> Safe(c, start, Final(c, m, xs).value, ys)
    ensures Safe(c, start, m, xs + ys)
  {
    hide Inv, Taken, Final, Reached;
    forall n: nat ensures Inv(c, start, Reached(c, m, Taken(xs + ys, n))) {
      TakenConcat(xs, ys, n);
      if n >= |xs| {
        FinalConcat(c, m, xs, Taken(ys, n - |xs|));
        TakenAll(xs);
      }
    }
  }

  lemma TakenAll(xs: seq<Step>)
    ensures Taken(xs, |xs|) == xs && Taken(xs, 0) == []
  {
  }

  lemma SafeEmpty(c: Config, start: Machine, m: Machine)
    requires Inv(c, start, m)
    ensures Safe(c, start, m, [])
  {
    hide Inv;
  }

  /** One step: the machine before it and the one after it. */
  lemma SafeStep(c: Config, start: Machine, m: Machine, step: Step)
    requires Inv(c, start, m)
    requires Perform(c, m, step).Some? ==> Inv(c, start, Perform(c, m, step).value)
    ensures Safe(c, start, m, [step])
    ensures Final(c, m, [step]) == Perform(c, m, step)
  {
    hide Inv, Perform;
    forall n: nat ensures Inv(c, start, Reached(c, m, Taken([step], n))) {
      if n == 0 {
        TakenAll([step]);
      } else {
        assert Taken([step], n) == [step];
      }
    }
  }

  // ---------------------------------------------------------------- the preparation

  /** Steps that touch neither receipt nor accounts. */
  predicate Assembling(step: Step) {
    match step
    case RequirePreparing => true
    case Discard(_) => true
    case TakeSnapshot => true
    case LoadAttribute(_) => true
    case DefineUser(_) => true
    case RequireContext => true
    case OpenContext => true
    case FillContext => true
    case ReadableContext => true
    case LabelContext => true
    case Begin(_) => true
    case Fill(_) => true
    case AddAccounts => true
    case _ => false
  }

  predicate ChangesPolicy(step: Step) {
    step.LoadAttribute? || step.DefineUser?
  }

  lemma AssemblingKeeps(c: Config, start: Machine, m: Machine, step: Step)
    requires InPreparation(c, start, m) && Assembling(step) && (ChangesPolicy(step) ==> m.snapshot.Some?)
    requires Perform(c, m, step).Some?
    ensures InPreparation(c, start, Perform(c, m, step).value)
    ensures m.snapshot.Some? || step.TakeSnapshot? ==> Perform(c, m, step).value.snapshot.Some?
  {
    hide MayResume, PolicyKept, TreeOf;
    var n := Perform(c, m, step).value;
    if step.TakeSnapshot? || ChangesPolicy(step) {
      PolicyStep(c, start, m, step);
    } else {
      PolicySame(start, m, n);
    }
  }

  lemma PolicyStep(c: Config, start: Machine, m: Machine, step: Step)
    requires PolicyKept(start, m) && (step.TakeSnapshot? || (ChangesPolicy(step) && m.snapshot.Some?))
    requires Perform(c, m, step).Some?
    ensures PolicyKept(start, Perform(c, m, step).value)
  {
    hide TreeOf;
    var n := Perform(c, m, step).value;
    if step.DefineUser? && step.user !in m.policy.users {
      assert n.policy.users == m.policy.users[step.user := USERS[step.user]];
      assert n.policy.users + USERS == m.policy.users + USERS;
    }
  }

  lemma {:induction false} AssemblySafe(c: Config, start: Machine, m: Machine, steps: seq<Step>)
    requires InPreparation(c, start, m)
    requires forall s <- steps :: Assembling(s)
    requires m.snapshot.Some? || (forall s <- steps :: !ChangesPolicy(s)) || (steps != [] && steps[0].TakeSnapshot?)
    ensures Safe(c, start, m, steps)
    ensures Final(c, m, steps).Some? ==> InPreparation(c, start, Final(c, m, steps).value)
    decreases |steps|
  {
    if steps == [] {
      SafeEmpty(c, start, m);
    } else {
      var step, rest := steps[0], steps[1..];
      assert step in steps && forall s <- rest :: s in steps;
      assert steps == [step] + rest;
      hide InPreparation, Perform, Assembling, Safe;
      var next := Perform(c, m, step);
      if next.Some? {
        AssemblingKeeps(c, start, m, step);
        AssemblySafe(c, start, next.value, rest);
      }
      SafeStep(c, start, m, step);
      SafeConcat(c, start, m, [step], rest);
    }
  }

  lemma FinalTwo(c: Config, m: Machine, a: Step, b: Step)
    ensures Final(c, m, [a, b])
      == if Perform(c, m, a).None? then None else Perform(c, Perform(c, m, a).value, b)
  {
    hide Perform;
    assert [a, b][1..] == [b];
    if Perform(c, m, a).Some? {
      FinalOne(c, Perform(c, m, a).value, b);
    }
  }

  lemma FinalOne(c: Config, m: Machine, a: Step)
    ensures Final(c, m, [a]) == Perform(c, m, a)
  {
    hide Perform;
    assert [a][1..] == [];
  }

  function With(m: Machine, t: TreeName, content: Content): Machine {
    m.(trees := m.trees[t := Built(content)])
  }

  /** A tree can be built exactly where there is none. */
  lemma TreeBuilds(c: Config, m: Machine, t: TreeName)
    ensures Final(c, m, Building(t)) == if TreeOf(m, t).Absent? then Some(With(m, t, Filled(m, t))) else None
    ensures Filled(m, Source) == SourceCopy && Filled(m, Desktop) == DesktopWithoutAccounts
    ensures m.receipt.Some? ==> Filled(m, Admin) == AdminFor(m.receipt.value.previous)
  {
    FinalTwo(c, m, Begin(t), Fill(t));
    assert m.trees[t := Partial][t := Built(Filled(m, t))] == m.trees[t := Built(Filled(m, t))];
  }

  lemma AccountsAdded(c: Config, m: Machine)
    requires TreeOf(m, Desktop).Built? && m.receipt.Some?
    ensures Perform(c, m, AddAccounts) == Some(With(m, Desktop, DesktopFor(m.receipt.value.previous)))
  {
  }

  lemma PreparedCommitted(c: Config, m: Machine, previous: Mappings)
    requires m.receipt.Some? && m.receipt.value.previous == previous
    requires TreeOf(m, Desktop) == Built(DesktopFor(previous)) && TreeOf(m, Admin) == Built(AdminFor(previous))
    ensures Perform(c, m, CommitPrepared) == Some(m.(receipt :=
              Some(Receipt(PreparedInputs, previous, Some(Inputs(DesktopFor(previous), AdminFor(previous)))))))
  {
  }

  /** The machine with its three last trees in place. */
  function Assembled(m: Machine, previous: Mappings): Machine {
    With(With(With(With(m, Source, SourceCopy), Desktop, DesktopWithoutAccounts), Desktop, DesktopFor(previous)),
         Admin, AdminFor(previous))
  }

  /** The last steps of the preparation succeed exactly when none of their trees exists, and then
      commit the digests of just what they built. */
  lemma ClosureBuilds(c: Config, m: Machine)
    requires m.receipt.Some?
    ensures (var previous := m.receipt.value.previous;
             Final(c, m, CLOSURE)
             == if TreeOf(m, Source).Absent? && TreeOf(m, Desktop).Absent? && TreeOf(m, Admin).Absent?
                then Some(Assembled(m, previous).(receipt :=
                            Some(Receipt(PreparedInputs, previous, Some(Inputs(DesktopFor(previous), AdminFor(previous)))))))
                else None)
  {
    var rest4 := [CommitPrepared];
    var rest3 := Building(Admin) + rest4;
    var rest2 := [AddAccounts] + rest3;
    var rest1 := Building(Desktop) + rest2;
    assert CLOSURE == Building(Source) + rest1;
    hide Building, Final, Perform, Filled, PreparedNow;
    FinalConcat(c, m, Building(Source), rest1);
    TreeBuilds(c, m, Source);
    if TreeOf(m, Source).Absent? {
      var m1 := With(m, Source, SourceCopy);
      FinalConcat(c, m1, Building(Desktop), rest2);
      TreeBuilds(c, m1, Desktop);
      if TreeOf(m, Desktop).Absent? {
        var m2 := With(m1, Desktop, DesktopWithoutAccounts);
        FinalConcat(c, m2, [AddAccounts], rest3);
        FinalOne(c, m2, AddAccounts);
        AccountsAdded(c, m2);
        var m3 := With(m2, Desktop, DesktopFor(m.receipt.value.previous));
        FinalConcat(c, m3, Building(Admin), rest4);
        TreeBuilds(c, m3, Admin);
        if TreeOf(m, Admin).Absent? {
          var m4 := With(m3, Admin, AdminFor(m.receipt.value.previous));
          FinalOne(c, m4, CommitPrepared);
          PreparedCommitted(c, m4, m.receipt.value.previous);
        }
      }
    }
  }

  lemma AssemblyAssembles(m: Machine)
    ensures forall s <- POLICY + ContextSteps(m) :: Assembling(s)
    ensures POLICY != [] && (POLICY + ContextSteps(m))[0].TakeSnapshot?
    ensures forall s <- [RequirePreparing] + DISCARDING :: Assembling(s) && !ChangesPolicy(s)
    ensures forall s <- CLOSURE :: s.CommitPrepared? || (Assembling(s) && !ChangesPolicy(s))
  {
  }

  /** The last steps keep the invariant wherever they stop, and lead beyond the preparation. */
  lemma ClosureSafe(c: Config, start: Machine, m: Machine)
    requires InPreparation(c, start, m)
    ensures Safe(c, start, m, CLOSURE)
    ensures Final(c, m, CLOSURE).Some?
      ==> BeyondPreparation(c, start, Final(c, m, CLOSURE).value) && InPhase(Final(c, m, CLOSURE).value, PreparedInputs)
  {
    ClosureBuilds(c, m);
    CommittedBeyond(c, start, m);
    var before := CLOSURE[..|CLOSURE| - 1];
    assert CLOSURE == before + [CommitPrepared];
    AssemblyAssembles(m);
    assert forall s <- before :: Assembling(s) && !ChangesPolicy(s) by {
      forall s | s in before ensures Assembling(s) && !ChangesPolicy(s) {
        var i :| 0 <= i < |before| && before[i] == s;
        assert CLOSURE[i] == s && !s.CommitPrepared?;
      }
    }
    hide InPreparation, BeyondPreparation, Assembling, Perform, Safe, Final, Assembled;
    AssemblySafe(c, start, m, before);
    FinalConcat(c, m, before, [CommitPrepared]);
    if Final(c, m, before).Some? {
      var n := Final(c, m, before).value;
      FinalOne(c, n, CommitPrepared);
      SafeStep(c, start, n, CommitPrepared);
    }
    SafeConcat(c, start, m, before, [CommitPrepared]);
  }

  lemma CommittedBeyond(c: Config, start: Machine, m: Machine)
    requires InPreparation(c, start, m)
    ensures (var previous := m.receipt.value.previous;
             var n := Assembled(m, previous).(receipt :=
               Some(Receipt(PreparedInputs, previous, Some(Inputs(DesktopFor(previous), AdminFor(previous))))));
             BeyondPreparation(c, start, n) && InPhase(n, PreparedInputs))
  {
  }

  lemma PreparationSafe(c: Config, start: Machine, m: Machine)
    requires Untouched(c, start) && (m == start || InPreparation(c, start, m))
    ensures Safe(c, start, m, Preparation(m))
    ensures Final(c, m, Preparation(m)).Some? ==>
      BeyondPreparation(c, start, Final(c, m, Preparation(m)).value)
      && InPhase(Final(c, m, Preparation(m)).value, PreparedInputs)
  {
    var opening := if m.receipt.None? then [RequireFresh, CommitPreparing] else [RequirePreparing] + DISCARDING;
    var middle := POLICY + ContextSteps(m);
    assert Preparation(m) == opening + (middle + CLOSURE);
    assert Safe(c, start, m, opening) && (Final(c, m, opening).Some? ==> InPreparation(c, start, Final(c, m, opening).value))
      by {
      if m.receipt.None? {
        OpeningSafe(c, start, m);
      } else {
        AssemblyAssembles(m);
        AssemblySafe(c, start, m, opening);
      }
    }
    hide *;
    FinalConcat(c, m, opening, middle + CLOSURE);
    if Final(c, m, opening).Some? {
      var n := Final(c, m, opening).value;
      AssemblyAssembles(m);
      AssemblySafe(c, start, n, middle);
      FinalConcat(c, n, middle, CLOSURE);
      if Final(c, n, middle).Some? {
        ClosureSafe(c, start, Final(c, n, middle).value);
      }
      SafeConcat(c, start, n, middle, CLOSURE);
    }
    SafeConcat(c, start, m, opening, middle + CLOSURE);
  }

  lemma OpeningSafe(c: Config, start: Machine, m: Machine)
    requires Untouched(c, start) && m == start
    ensures Safe(c, start, m, [RequireFresh, CommitPreparing])
    ensures Final(c, m, [RequireFresh, CommitPreparing]).Some?
      ==> InPreparation(c, start, Final(c, m, [RequireFresh, CommitPreparing]).value)
  {
    var n := Perform(c, m, CommitPreparing).value;
    assert InPreparation(c, start, n);
    FinalTwo(c, m, RequireFresh, CommitPreparing);
    SafeStep(c, start, m, RequireFresh);
    SafeStep(c, start, m, CommitPreparing);
    hide *;
    assert [RequireFresh] + [CommitPreparing] == [RequireFresh, CommitPreparing];
    FreshKeeps(c, m);
    SafeConcat(c, start, m, [RequireFresh], [CommitPreparing]);
  }

  lemma FreshKeeps(c: Config, m: Machine)
    ensures Perform(c, m, RequireFresh).Some? ==> Perform(c, m, RequireFresh).value == m
  {
  }

  // ---------------------------------------------------------------- the activation

  /** Prepared inputs, and at least one account known to the broker. */
  ghost predicate Activating(c: Config, start: Machine, m: Machine) {
    BeyondPreparation(c, start, m) && InPhase(m, PreparedInputs) && m.registered != {}
  }

  predicate Activation(c: Config, step: Step) {
    (step.Register? || step.AllowSudo? || step.MapAccount?) && step.name in c.accounts
  }

  lemma ActivationKeeps(c: Config, start: Machine, m: Machine, step: Step)
    requires BeyondPreparation(c, start, m) && InPhase(m, PreparedInputs) && Activation(c, step)
    requires m.registered != {} || step.Register?
    requires Perform(c, m, step).Some?
    ensures Activating(c, start, Perform(c, m, step).value)
  {
    var n := Perform(c, m, step).value;
    assert PreparedNow(n) == PreparedNow(m);
    hide PreparedNow, PolicyKept, TreeOf, MayStart, MayResume, MayFinish, Enrolled, Present;
  }

  lemma {:induction false} ActivationSafe(c: Config, start: Machine, m: Machine, steps: seq<Step>)
    requires Activating(c, start, m)
    requires forall s <- steps :: Activation(c, s)
    ensures Safe(c, start, m, steps)
    ensures Final(c, m, steps).Some? ==> Activating(c, start, Final(c, m, steps).value)
    decreases |steps|
  {
    ActivatingInv(c, start, m);
    if steps == [] {
      SafeEmpty(c, start, m);
    } else {
      var step, rest := steps[0], steps[1..];
      assert step in steps && forall s <- rest :: s in steps;
      assert steps == [step] + rest;
      assert m.registered != {} && BeyondPreparation(c, start, m) && InPhase(m, PreparedInputs);
      hide BeyondPreparation, Activating, Perform, Activation, Safe, Inv, InPhase;
      var next := Perform(c, m, step);
      if next.Some? {
        ActivationKeeps(c, start, m, step);
        ActivatingInv(c, start, next.value);
        ActivationSafe(c, start, next.value, rest);
      }
      SafeStep(c, start, m, step);
      SafeConcat(c, start, m, [step], rest);
    }
  }

  lemma ActivatingInv(c: Config, start: Machine, m: Machine)
    ensures Activating(c, start, m) ==> Inv(c, start, m)
    ensures BeyondPreparation(c, start, m) ==> Inv(c, start, m)
  {
    hide BeyondPreparation;
  }

  lemma {:induction false} RegisteringSteps(c: Config, accounts: seq<Name>)
    requires forall a <- accounts :: a in c.accounts
    ensures forall s <- Registering(accounts) :: Activation(c, s)
    ensures accounts != [] ==> Registering(accounts) != [] && Registering(accounts)[0] == Register(accounts[0])
  {
    if accounts != [] {
      assert accounts[0] in accounts && forall a <- accounts[1..] :: a in accounts;
      RegisteringSteps(c, accounts[1..]);
    }
  }

  lemma {:induction false} MappedSteps(c: Config, accounts: seq<Name>)
    requires forall a <- accounts :: a in c.accounts
    ensures forall s <- Mapped(accounts) :: Activation(c, s)
  {
    if accounts != [] {
      assert accounts[0] in accounts && forall a <- accounts[1..] :: a in accounts;
      MappedSteps(c, accounts[1..]);
    }
  }

  lemma PolicySame(start: Machine, m: Machine, n: Machine)
    requires PolicyKept(start, m) && n.policy == m.policy && n.snapshot == m.snapshot
    ensures PolicyKept(start, n)
  {
  }

  lemma PendingKeeps(c: Config, start: Machine, m: Machine)
    requires BeyondPreparation(c, start, m) && !InPhase(m, Unenrolled) && Perform(c, m, CommitPending).Some?
    ensures BeyondPreparation(c, start, Perform(c, m, CommitPending).value)
  {
    hide PolicyKept;
    PolicySame(start, m, Perform(c, m, CommitPending).value);
  }

  lemma ReadOnlyKeeps(c: Config, m: Machine)
    ensures Perform(c, m, RequirePending).Some? ==> Perform(c, m, RequirePending).value == m
    ensures Perform(c, m, RequirePrepared).Some? ==> Perform(c, m, RequirePrepared).value == m
  {
  }

  lemma CommitSafe(c: Config, start: Machine, m: Machine)
    requires BeyondPreparation(c, start, m) && InPhase(m, PreparedInputs)
    ensures Safe(c, start, m, [CommitPending, RequirePending])
  {
    assert !InPhase(m, Unenrolled);
    hide *;
    assert [CommitPending] + [RequirePending] == [CommitPending, RequirePending];
    ActivatingInv(c, start, m);
    FinalOne(c, m, CommitPending);
    if Perform(c, m, CommitPending).Some? {
      PendingKeeps(c, start, m);
      var n := Perform(c, m, CommitPending).value;
      ActivatingInv(c, start, n);
      ReadOnlyKeeps(c, n);
      SafeStep(c, start, n, RequirePending);
    }
    SafeStep(c, start, m, CommitPending);
    SafeConcat(c, start, m, [CommitPending], [RequirePending]);
  }

  lemma FinishingShape(c: Config, start: Machine) returns (rest: seq<Step>)
    requires Untouched(c, start)
    ensures c.accounts != []
    ensures Finishing(c)
      == [RequirePrepared] + ([Register(c.accounts[0])] + (rest + [CommitPending, RequirePending]))
    ensures Activation(c, Register(c.accounts[0])) && forall s <- rest :: Activation(c, s)
  {
    assert c.accounts != [];
    hide *;
    RegisteringSteps(c, c.accounts);
    MappedSteps(c, c.accounts);
    var registering, mapped := Registering(c.accounts), Mapped(c.accounts);
    var first := Register(c.accounts[0]);
    assert first in registering && forall s <- registering[1..] :: s in registering;
    rest := registering[1..] + mapped;
    FinishingIs(c);
    Regrouped(RequirePrepared, first, registering, mapped, [CommitPending, RequirePending]);
  }

  lemma FinishingIs(c: Config)
    ensures Finishing(c)
      == [RequirePrepared] + Registering(c.accounts) + Mapped(c.accounts) + [CommitPending, RequirePending]
  {
  }

  lemma Regrouped(a: Step, b: Step, xs: seq<Step>, ys: seq<Step>, zs: seq<Step>)
    requires xs != [] && xs[0] == b
    ensures [a] + xs + ys + zs == [a] + ([b] + ((xs[1..] + ys) + zs))
  {
    assert xs == [b] + xs[1..];
  }

  lemma FinishingSafe(c: Config, start: Machine, m: Machine)
    requires Untouched(c, start) && BeyondPreparation(c, start, m) && InPhase(m, PreparedInputs)
    ensures Safe(c, start, m, Finishing(c))
  {
    hide *;
    var rest := FinishingShape(c, start);
    var first, commit := Register(c.accounts[0]), [CommitPending, RequirePending];
    ActivatingInv(c, start, m);
    ReadOnlyKeeps(c, m);
    SafeStep(c, start, m, RequirePrepared);
    if Perform(c, m, RequirePrepared).Some? {
      SafeStepFirst(c, start, m, first);
      if Perform(c, m, first).Some? {
        ActivationKeeps(c, start, m, first);
        var n := Perform(c, m, first).value;
        ActivationSafe(c, start, n, rest);
        if Final(c, n, rest).Some? {
          ActivatingParts(c, start, Final(c, n, rest).value);
          CommitSafe(c, start, Final(c, n, rest).value);
        }
        SafeConcat(c, start, n, rest, commit);
      }
      SafeConcat(c, start, m, [first], rest + commit);
    }
    SafeConcat(c, start, m, [RequirePrepared], [first] + (rest + commit));
  }

  lemma ActivatingParts(c: Config, start: Machine, m: Machine)
    requires Activating(c, start, m)
    ensures BeyondPreparation(c, start, m) && InPhase(m, PreparedInputs)
  {
  }

  lemma SafeStepFirst(c: Config, start: Machine, m: Machine, step: Step)
    requires BeyondPreparation(c, start, m) && InPhase(m, PreparedInputs) && step.Register? && Activation(c, step)
    ensures Safe(c, start, m, [step]) && Final(c, m, [step]) == Perform(c, m, step)
  {
    hide *;
    ActivatingInv(c, start, m);
    if Perform(c, m, step).Some? {
      ActivationKeeps(c, start, m, step);
      ActivatingInv(c, start, Perform(c, m, step).value);
    }
    SafeStep(c, start, m, step);
  }

  // ---------------------------------------------------------------- the rollback

  lemma UnmapIs(c: Config, m: Machine, name: Name)
    ensures Perform(c, m, UnmapAccount(name)).Some? ==>
      Perform(c, m, UnmapAccount(name)).value
        == if MappingOf(c, m, name).seuser == GUARD_USER then m.(entries := m.entries - {name}) else m
    ensures Perform(c, m, UnmapAccount(name)).Some? && MappingOf(c, m, name).seuser == GUARD_USER ==> name in m.entries
    ensures Perform(c, m, RequireRestored(name)).Some? ==> Perform(c, m, RequireRestored(name)).value == m
  {
  }

  lemma UnmapKeeps(c: Config, start: Machine, m: Machine, name: Name)
    requires Untouched(c, start) && Inv(c, start, m) && name in c.accounts
    ensures Perform(c, m, UnmapAccount(name)).Some? ==> Inv(c, start, Perform(c, m, UnmapAccount(name)).value)
    ensures Perform(c, m, RequireRestored(name)).Some? ==> Perform(c, m, RequireRestored(name)).value == m
  {
    UnmapIs(c, m, name);
    hide PolicyKept, Perform;
    var next := Perform(c, m, UnmapAccount(name));
    if MappingOf(c, m, name).seuser == GUARD_USER && next.Some? {
      assert m.entries != start.entries;
      PolicySame(start, m, next.value);
      assert PreparedNow(next.value) == PreparedNow(m);
    }
  }

  lemma RestoringFront(accounts: seq<Name>)
    requires accounts != []
    ensures Restoring(accounts)
      == [UnmapAccount(accounts[0])] + ([RequireRestored(accounts[0])] + Restoring(accounts[1..]))
  {
  }

  lemma {:induction false} RestoringSafe(c: Config, start: Machine, m: Machine, accounts: seq<Name>)
    requires Untouched(c, start) && Inv(c, start, m) && forall a <- accounts :: a in c.accounts
    ensures Safe(c, start, m, Restoring(accounts))
    ensures Final(c, m, Restoring(accounts)).Some? ==> Inv(c, start, Final(c, m, Restoring(accounts)).value)
    decreases |accounts|
  {
    if accounts == [] {
      SafeEmpty(c, start, m);
    } else {
      var a, rest := accounts[0], accounts[1..];
      assert a in accounts && forall x <- rest :: x in accounts;
      var one, two := [UnmapAccount(a)], [RequireRestored(a)];
      RestoringFront(accounts);
      hide *;
      UnmapKeeps(c, start, m, a);
      SafeStep(c, start, m, UnmapAccount(a));
      FinalConcat(c, m, one, two + Restoring(rest));
      if Final(c, m, one).Some? {
        var n := Final(c, m, one).value;
        UnmapKeeps(c, start, n, a);
        SafeStep(c, start, n, RequireRestored(a));
        FinalConcat(c, n, two, Restoring(rest));
        if Final(c, n, two).Some? {
          RestoringSafe(c, start, n, rest);
        }
        SafeConcat(c, start, n, two, Restoring(rest));
      }
      SafeConcat(c, start, m, one, two + Restoring(rest));
    }
  }

  lemma UnenrolledKeeps(c: Config, start: Machine, m: Machine)
    requires Untouched(c, start) && Inv(c, start, m) && Perform(c, m, CommitUnenrolled).Some?
    ensures Inv(c, start, Perform(c, m, CommitUnenrolled).value)
  {
    hide PolicyKept, PreparedNow;
    assert m.receipt.Some? && PolicyKept(start, m);
    PolicySame(start, m, Perform(c, m, CommitUnenrolled).value);
  }

  lemma RollbackSafe(c: Config, start: Machine, m: Machine)
    requires Untouched(c, start) && Inv(c, start, m)
    ensures Safe(c, start, m, Restoring(c.accounts) + [CommitUnenrolled])
  {
    hide *;
    RestoringSafe(c, start, m, c.accounts);
    if Final(c, m, Restoring(c.accounts)).Some? {
      var n := Final(c, m, Restoring(c.accounts)).value;
      if Perform(c, n, CommitUnenrolled).Some? {
        UnenrolledKeeps(c, start, n);
      }
      SafeStep(c, start, n, CommitUnenrolled);
    }
    SafeConcat(c, start, m, Restoring(c.accounts), [CommitUnenrolled]);
  }

  // ---------------------------------------------------------------- every run

  lemma CheckSafe(c: Config, start: Machine, m: Machine)
    requires Inv(c, start, m)
    ensures Safe(c, start, m, [RequirePending])
  {
    hide *;
    ReadOnlyKeeps(c, m);
    SafeStep(c, start, m, RequirePending);
  }

  lemma InvCases(c: Config, start: Machine, m: Machine)
    requires Untouched(c, start) && Inv(c, start, m)
    ensures m.receipt.None? || m.receipt.value.phase.Preparing? <==> m == start || InPreparation(c, start, m)
    ensures m.receipt.Some? && m.receipt.value.phase.PreparedInputs?
      ==> BeyondPreparation(c, start, m) && InPhase(m, PreparedInputs)
  {
    hide PolicyKept, PreparedNow;
  }

  lemma ProgramSafe(c: Config, start: Machine, m: Machine, command: Command)
    requires Untouched(c, start) && Inv(c, start, m)
    ensures Safe(c, start, m, Program(c, m, command))
  {
    hide Inv, Untouched, Preparation, Finishing, Restoring, Safe, Final, BeyondPreparation, InPreparation, InPhase;
    InvCases(c, start, m);
    CheckSafe(c, start, m);
    match command
    case Check =>
    case Rollback => RollbackSafe(c, start, m);
    case Prepare =>
      if m.receipt.None? || m.receipt.value.phase.Preparing? {
        PreparationSafe(c, start, m);
        if Final(c, m, Preparation(m)).Some? {
          FinishingSafe(c, start, Final(c, m, Preparation(m)).value);
        }
        SafeConcat(c, start, m, Preparation(m), Finishing(c));
      } else if m.receipt.value.phase.PreparedInputs? {
        FinishingSafe(c, start, m);
      }
  }

  /** Whatever is attempted, and wherever each attempt stops. */
  lemma {:induction false} RunKeeps(c: Config, start: Machine, attempts: seq<Attempt>)
    requires Untouched(c, start)
    ensures Inv(c, start, After(c, start, attempts))
  {
    if attempts != [] {
      var front, last := attempts[..|attempts| - 1], attempts[|attempts| - 1];
      RunKeeps(c, start, front);
      var m := After(c, start, front);
      hide Inv, Untouched, Program, Taken, Reached;
      ProgramSafe(c, start, m, last.command);
      assert Inv(c, start, Reached(c, m, Taken(Program(c, m, last.command), last.steps)));
    }
  }

  /** Over every run with a crash at any step: no account is mapped and none is known to the broker
      before the inputs are prepared, and the policy is either untouched or kept in a snapshot that
      was taken before the first change of it. */
  lemma NothingMappedBeforeInputs(c: Config, start: Machine, attempts: seq<Attempt>)
    requires Untouched(c, start)
    ensures (var m := After(c, start, attempts);
             && (m.receipt.None? || InPhase(m, Preparing) ==> m.entries == start.entries && m.registered == {})
             && (m.policy != start.policy ==> m.snapshot == Some(start.policy))
             && (m.snapshot.Some? ==> m.snapshot.value == start.policy))
  {
    RunKeeps(c, start, attempts);
    hide After, PreparedNow, Untouched;
    assert start.receipt.None? && start.registered == {} && start.snapshot.None? by {
      UntouchedParts(c, start);
    }
  }

  lemma UntouchedParts(c: Config, start: Machine)
    requires Untouched(c, start)
    ensures start.receipt.None? && start.registered == {} && start.snapshot.None? && start.context.NoContext?
  {
  }
}
