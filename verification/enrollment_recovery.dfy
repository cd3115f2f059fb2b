/** What an attempt reaches from wherever the one before it stopped. */
module EnrollmentRecovery {
  import opened Enrollment
  import opened EnrollmentSafety

  // ---------------------------------------------------------------- pending means mapped

  lemma {:induction false} QuietStays(c: Config, m: Machine, steps: seq<Step>)
    requires !InPhase(m, PendingSession) && forall s <- steps :: !s.CommitPending? && !s.CommitUnenrolled?
    ensures !InPhase(Reached(c, m, steps), PendingSession)
    decreases |steps|
  {
    if steps != [] {
      assert steps[0] in steps && forall s <- steps[1..] :: s in steps;
      var next := Perform(c, m, steps[0]);
      if next.Some? {
        QuietStep(c, m, steps[0]);
        hide Perform, InPhase;
        QuietStays(c, next.value, steps[1..]);
      }
    }
  }

  lemma QuietStep(c: Config, m: Machine, step: Step)
    requires !InPhase(m, PendingSession) && !step.CommitPending? && !step.CommitUnenrolled? && Perform(c, m, step).Some?
    ensures !InPhase(Perform(c, m, step).value, PendingSession)
  {
    hide MayStart, MayResume, MayFinish, Enrolled;
  }

  /** Mapping succeeds for every account and changes nothing else. */
  lemma {:induction false} MappedFinal(c: Config, m: Machine, accounts: seq<Name>)
    ensures Final(c, m, Mapped(accounts)).Some?
    ensures (var n := Final(c, m, Mapped(accounts)).value;
             && n == m.(entries := n.entries)
             && (forall a <- accounts :: MappingOf(c, n, a) == GUARD)
             && (forall a :: MappingOf(c, m, a) == GUARD ==> MappingOf(c, n, a) == GUARD))
    decreases |accounts|
  {
    if accounts != [] {
      var a, rest := accounts[0], accounts[1..];
      MappedFront(accounts);
      FinalConcat(c, m, [MapAccount(a)], Mapped(rest));
      FinalOne(c, m, MapAccount(a));
      hide Mapped, Final;
      MappedFinal(c, Perform(c, m, MapAccount(a)).value, rest);
      assert accounts == [a] + rest;
    }
  }

  lemma MappedFront(accounts: seq<Name>)
    requires accounts != []
    ensures Mapped(accounts) == [MapAccount(accounts[0])] + Mapped(accounts[1..])
  {
  }

  lemma {:induction false} ActivationQuiet(accounts: seq<Name>)
    ensures forall s <- Registering(accounts) + Mapped(accounts) :: !s.CommitPending? && !s.CommitUnenrolled?
    decreases |accounts|
  {
    if accounts != [] {
      ActivationQuiet(accounts[1..]);
      forall s | s in Registering(accounts) ensures !s.CommitPending? && !s.CommitUnenrolled? {
        assert s in Registering(accounts[1..]) ==> s in Registering(accounts[1..]) + Mapped(accounts[1..]);
      }
      forall s | s in Mapped(accounts) ensures !s.CommitPending? && !s.CommitUnenrolled? {
        assert s in Mapped(accounts[1..]) ==> s in Registering(accounts[1..]) + Mapped(accounts[1..]);
      }
    }
  }

  lemma PreparationQuiet(m: Machine)
    ensures forall s <- Preparation(m) :: !s.CommitPending? && !s.CommitUnenrolled?
  {
    AssemblyAssembles(m);
    var middle := POLICY + ContextSteps(m);
    hide POLICY, CLOSURE, DISCARDING, ContextSteps;
    forall s | s in Preparation(m) ensures !s.CommitPending? && !s.CommitUnenrolled? {
      assert s in [RequireFresh, CommitPreparing] || s in [RequirePreparing] + DISCARDING || s in middle || s in CLOSURE;
    }
  }

  lemma CommitReached(c: Config, m: Machine, n: nat)
    ensures Reached(c, m, Taken([CommitPending, RequirePending], n)).entries == m.entries
  {
    var steps := [CommitPending, RequirePending];
    TakenAll(steps);
    assert steps[..1] == [CommitPending] && [CommitPending][1..] == [] && steps[1..] == [RequirePending];
    if n == 1 {
      assert Taken(steps, n) == [CommitPending];
    }
    hide PreparedNow, Enrolled;
  }

  /** The commit of the pending session is reached only with every account mapped, from any machine
      and with a crash at any step. */
  lemma PendingMeansMapped(c: Config, m: Machine, n: nat)
    requires !InPhase(m, PendingSession)
    ensures (var r := Reached(c, m, Taken(Program(c, m, Prepare), n));
             InPhase(r, PendingSession) ==> forall a <- c.accounts :: MappingOf(c, r, a) == GUARD)
  {
    var commit := [CommitPending, RequirePending];
    var before := if m.receipt.None? || m.receipt.value.phase.Preparing? then Preparation(m) else [];
    PreparationQuiet(m);
    ActivationQuiet(c.accounts);
    var opening := before + ([RequirePrepared] + Registering(c.accounts));
    var front := opening + Mapped(c.accounts);
    if m.receipt.Some? && (m.receipt.value.phase.PendingSession? || m.receipt.value.phase.Unenrolled?) {
      assert forall s <- Taken([RequirePending], n) :: !s.CommitPending? && !s.CommitUnenrolled?;
      QuietStays(c, m, Taken([RequirePending], n));
    } else {
      PrepareIs(c, m, before);
      hide *;
      QuietFront(before, Registering(c.accounts), Mapped(c.accounts));
      FrontThenCommit(c, m, opening, front, n);
    }
  }

  lemma PrepareIs(c: Config, m: Machine, before: seq<Step>)
    requires !(m.receipt.Some? && (m.receipt.value.phase.PendingSession? || m.receipt.value.phase.Unenrolled?))
    requires before == if m.receipt.None? || m.receipt.value.phase.Preparing? then Preparation(m) else []
    ensures Program(c, m, Prepare)
      == before + ([RequirePrepared] + Registering(c.accounts)) + Mapped(c.accounts) + [CommitPending, RequirePending]
  {
    hide Preparation, Registering, Mapped;
    Regrouped(before, [RequirePrepared] + Registering(c.accounts), Mapped(c.accounts), [CommitPending, RequirePending]);
    assert [] + Finishing(c) == Finishing(c);
  }

  lemma Regrouped(a: seq<Step>, b: seq<Step>, d: seq<Step>, e: seq<Step>)
    ensures a + (b + d + e) == a + b + d + e
  {
  }

  lemma QuietFront(before: seq<Step>, registering: seq<Step>, mapped: seq<Step>)
    requires forall s <- before :: !s.CommitPending? && !s.CommitUnenrolled?
    requires forall s <- registering + mapped :: !s.CommitPending? && !s.CommitUnenrolled?
    ensures forall s <- before + ([RequirePrepared] + registering) + mapped :: !s.CommitPending? && !s.CommitUnenrolled?
  {
    forall s | s in before + ([RequirePrepared] + registering) + mapped
      ensures !s.CommitPending? && !s.CommitUnenrolled?
    {
      assert s in before || s == RequirePrepared || s in registering + mapped;
    }
  }

  lemma FrontThenCommit(c: Config, m: Machine, opening: seq<Step>, front: seq<Step>, n: nat)
    requires !InPhase(m, PendingSession) && front == opening + Mapped(c.accounts)
    requires forall s <- front :: !s.CommitPending? && !s.CommitUnenrolled?
    ensures (var r := Reached(c, m, Taken(front + [CommitPending, RequirePending], n));
             InPhase(r, PendingSession) ==> forall a <- c.accounts :: MappingOf(c, r, a) == GUARD)
  {
    var commit := [CommitPending, RequirePending];
    TakenConcat(front, commit, n);
    if n < |front| {
      assert forall s <- Taken(front, n) :: s in front;
      hide Reached, InPhase;
      QuietStays(c, m, Taken(front, n));
    } else {
      var k := n - |front|;
      hide Reached, InPhase, Final, Mapped, Taken;
      FinalConcat(c, m, front, Taken(commit, k));
      FinalConcat(c, m, opening, Mapped(c.accounts));
      if Final(c, m, front).None? {
        QuietStays(c, m, front);
      } else {
        MappedFinal(c, Final(c, m, opening).value, c.accounts);
        CommitReached(c, Final(c, m, front).value, k);
      }
    }
  }

  // ---------------------------------------------------------------- restarting a preparation

  /** A finished preparation of the machine that was found as `start`. */
  ghost predicate Ready(c: Config, start: Machine, m: Machine) {
    var previous := Present(c, start);
    && m.receipt == Some(Receipt(PreparedInputs, previous, Some(Inputs(DesktopFor(previous), AdminFor(previous)))))
    && TreeOf(m, Ordinary) == Built(OrdinaryClosure) && TreeOf(m, Source) == Built(SourceCopy)
    && TreeOf(m, Desktop) == Built(DesktopFor(previous)) && TreeOf(m, Admin) == Built(AdminFor(previous))
    && m.entries == start.entries && m.registered == {} && m.sudoers == start.sudoers
    && m.snapshot == Some(start.policy)
    && m.policy == Policy(Closed, start.policy.users + USERS, start.policy.rest)
  }

  /** In preparation with no tree in the way. */
  ghost predicate Cleared(c: Config, start: Machine, m: Machine) {
    InPreparation(c, start, m) && NoTrees(m)
  }

  lemma {:induction false} FinalStep(c: Config, m: Machine, step: Step, rest: seq<Step>)
    ensures Final(c, m, [step] + rest)
      == if Perform(c, m, step).None? then None else Final(c, Perform(c, m, step).value, rest)
  {
    hide Perform;
    FinalConcat(c, m, [step], rest);
    FinalOne(c, m, step);
  }

  /** The opening of a preparation always succeeds and clears the way. */
  lemma OpeningClears(c: Config, start: Machine, m: Machine)
    requires Untouched(c, start) && (m == start || InPreparation(c, start, m))
    ensures (var steps := if m.receipt.None? then [RequireFresh, CommitPreparing] else [RequirePreparing] + DISCARDING;
             && Final(c, m, steps).Some? && Cleared(c, start, Final(c, m, steps).value)
             && Final(c, m, steps).value.context == m.context)
  {
    if m == start {
      FinalTwo(c, m, RequireFresh, CommitPreparing);
      hide Final;
    } else {
      ResumeOpens(c, start, m);
      FinalStep(c, m, RequirePreparing, DISCARDING);
      DiscardingClears(c, m);
      hide Final, DISCARDING;
      var n := Final(c, m, DISCARDING).value;
      assert InPreparation(c, start, n);
    }
  }

  lemma ResumeOpens(c: Config, start: Machine, m: Machine)
    requires Untouched(c, start) && InPreparation(c, start, m)
    ensures Perform(c, m, RequirePreparing) == Some(m)
  {
    assert Present(c, m) == Present(c, start);
    forall a | a in c.accounts ensures MappingOf(c, m, a).seuser != GUARD_USER {
      assert MappingOf(c, m, a) == MappingOf(c, start, a);
    }
    hide PolicyKept;
  }

  lemma DiscardingClears(c: Config, m: Machine)
    ensures Final(c, m, DISCARDING).Some?
    ensures (var n := Final(c, m, DISCARDING).value;
             n == m.(trees := n.trees) && NoTrees(n))
  {
    var d4: seq<Step> := [Discard(Admin)];
    var d3 := [Discard(Desktop)] + d4;
    var d2 := [Discard(Source)] + d3;
    assert DISCARDING == [Discard(Ordinary)] + d2;
    var m1 := m.(trees := m.trees[Ordinary := Absent]);
    var m2 := m1.(trees := m1.trees[Source := Absent]);
    var m3 := m2.(trees := m2.trees[Desktop := Absent]);
    var m4 := m3.(trees := m3.trees[Admin := Absent]);
    FinalStep(c, m, Discard(Ordinary), d2);
    FinalStep(c, m1, Discard(Source), d3);
    FinalStep(c, m2, Discard(Desktop), d4);
    FinalOne(c, m3, Discard(Admin));
    hide Final;
    assert Final(c, m, DISCARDING) == Some(m4);
  }

  /** The machine once its policy is loaded. */
  function Loaded(start: Machine, m: Machine): Machine {
    With(m, Ordinary, OrdinaryClosure).(snapshot := Some(start.policy),
      policy := Policy(Closed, start.policy.users + USERS, start.policy.rest))
  }

  lemma UsersDefined(c: Config, m: Machine)
    requires forall u <- USERS :: u in m.policy.users ==> m.policy.users[u] == USERS[u]
    ensures Final(c, m, [DefineUser(GUARD_USER), DefineUser("greyward_admin_u")])
      == Some(m.(policy := m.policy.(users := m.policy.users + USERS)))
  {
    FinalTwo(c, m, DefineUser(GUARD_USER), DefineUser("greyward_admin_u"));
    hide Final;
    var n := Perform(c, m, DefineUser(GUARD_USER)).value;
    var o := Perform(c, n, DefineUser("greyward_admin_u")).value;
    assert USERS.Keys == {GUARD_USER, "greyward_admin_u"};
    assert o.policy.users == m.policy.users + USERS;
  }

  /** The first policy snapshot is the export taken before any change; then the policy is loaded. */
  lemma PolicyLoads(c: Config, start: Machine, m: Machine)
    requires Cleared(c, start, m)
    ensures Final(c, m, POLICY) == Some(Loaded(start, m))
  {
    var users: seq<Step> := [DefineUser(GUARD_USER), DefineUser("greyward_admin_u")];
    var r3 := [LoadAttribute(Closed)] + users;
    var r2 := Building(Ordinary) + r3;
    var r1 := [LoadAttribute(Empty)] + r2;
    assert POLICY == [TakeSnapshot] + r1;
    var m1 := m.(snapshot := Some(start.policy));
    var m2 := m1.(policy := m1.policy.(attribute := Empty));
    var m3 := With(m2, Ordinary, OrdinaryClosure);
    var m4 := m3.(policy := m3.policy.(attribute := Closed));
    SnapshotTaken(c, start, m);
    AttributeLoaded(c, m1, Empty);
    AttributeLoaded(c, m3, Closed);
    assert forall u <- USERS :: u in m4.policy.users ==> m4.policy.users[u] == USERS[u];
    assert m4.policy.users + USERS == start.policy.users + USERS && m4.policy.rest == start.policy.rest;
    hide Final, Building, Perform, InPreparation, Filled, USERS;
    FinalStep(c, m, TakeSnapshot, r1);
    FinalStep(c, m1, LoadAttribute(Empty), r2);
    FinalConcat(c, m2, Building(Ordinary), r3);
    TreeBuilds(c, m2, Ordinary);
    OrdinaryFilled(m2);
    FinalStep(c, m3, LoadAttribute(Closed), users);
    UsersDefined(c, m4);
  }

  lemma SnapshotTaken(c: Config, start: Machine, m: Machine)
    requires PolicyKept(start, m)
    ensures Perform(c, m, TakeSnapshot) == Some(m.(snapshot := Some(start.policy)))
  {
  }

  lemma AttributeLoaded(c: Config, m: Machine, attribute: Attribute)
    requires attribute.Closed? ==> TreeOf(m, Ordinary) == Built(OrdinaryClosure)
    ensures Perform(c, m, LoadAttribute(attribute)) == Some(m.(policy := m.policy.(attribute := attribute)))
  {
  }

  lemma OrdinaryFilled(m: Machine)
    ensures Filled(m, Ordinary) == OrdinaryClosure
  {
  }

  /** The context file is written where there is none and left alone where it is whole; where it was
      cut short the preparation refuses. */
  lemma ContextReaches(c: Config, m: Machine, before: Machine)
    requires m.context == before.context
    ensures Final(c, m, ContextSteps(before)) ==
      if m.context.Torn? then None
      else Some(if m.context.NoContext? then m.(context := Written(true, true)) else m)
  {
    if m.context.NoContext? {
      var m1, m2, m3 := m.(context := Torn), m.(context := Written(false, false)), m.(context := Written(true, false));
      var rest3: seq<Step> := [LabelContext];
      var rest2 := [ReadableContext] + rest3;
      var rest1 := [FillContext] + rest2;
      assert ContextSteps(before) == [OpenContext] + rest1;
      FinalStep(c, m, OpenContext, rest1);
      FinalStep(c, m1, FillContext, rest2);
      FinalStep(c, m2, ReadableContext, rest3);
      FinalOne(c, m3, LabelContext);
      hide Final;
    } else {
      FinalOne(c, m, RequireContext);
    }
  }

  /** A preparation restarted from any point where an earlier one was interrupted reaches the same
      prepared inputs, receipt, trees, snapshot and policy as one that was never interrupted, exactly
      when the context file is not cut short. The file ends readable and labelled unless an earlier
      attempt stopped between writing its text and doing that. */
  lemma RestartExactly(c: Config, start: Machine, m: Machine)
    requires Untouched(c, start) && (m == start || InPreparation(c, start, m))
    ensures Final(c, m, Preparation(m)).Some? <==> !m.context.Torn?
    ensures Final(c, m, Preparation(m)).Some? ==>
      && Ready(c, start, Final(c, m, Preparation(m)).value)
      && Final(c, m, Preparation(m)).value.context == if m.context.NoContext? then Written(true, true) else m.context
  {
    var opening := if m.receipt.None? then [RequireFresh, CommitPreparing] else [RequirePreparing] + DISCARDING;
    var middle := ContextSteps(m) + CLOSURE;
    assert POLICY + ContextSteps(m) + CLOSURE == POLICY + middle;
    assert Preparation(m) == opening + (POLICY + middle);
    hide Untouched, InPreparation, Cleared, Final, Perform, ContextSteps, POLICY, CLOSURE, DISCARDING, Ready, Loaded, Assembled;
    OpeningClears(c, start, m);
    FinalConcat(c, m, opening, POLICY + middle);
    var m1 := Final(c, m, opening).value;
    PolicyLoads(c, start, m1);
    FinalConcat(c, m1, POLICY, middle);
    var m2 := Loaded(start, m1);
    LoadedParts(c, start, m1);
    FinalConcat(c, m2, ContextSteps(m), CLOSURE);
    ContextReaches(c, m2, m);
    if !m.context.Torn? {
      var m3 := if m.context.NoContext? then m2.(context := Written(true, true)) else m2;
      ClosureBuilds(c, m3);
      ReadyAfter(c, start, m1, m3);
    }
  }

  lemma LoadedParts(c: Config, start: Machine, m: Machine)
    requires Cleared(c, start, m)
    ensures (var n := Loaded(start, m);
             && n.context == m.context && n.receipt.Some? && n.receipt == m.receipt
             && TreeOf(n, Source).Absent? && TreeOf(n, Desktop).Absent? && TreeOf(n, Admin).Absent?)
  {
    hide PolicyKept;
  }

  lemma ReadyAfter(c: Config, start: Machine, m: Machine, n: Machine)
    requires Cleared(c, start, m) && n == Loaded(start, m).(context := n.context)
    ensures (var previous := n.receipt.value.previous;
             TreeOf(n, Source).Absent? && TreeOf(n, Desktop).Absent? && TreeOf(n, Admin).Absent?
             && Ready(c, start, Assembled(n, previous).(receipt :=
                  Some(Receipt(PreparedInputs, previous, Some(Inputs(DesktopFor(previous), AdminFor(previous))))))))
  {
    hide PolicyKept;
  }

  /** Over any run: as long as the machine is in preparation, the next undisturbed preparation
      reaches just what a first one would have reached, or refuses because of the context file. */
  lemma RunRestarts(c: Config, start: Machine, attempts: seq<Attempt>)
    requires Untouched(c, start)
    requires (var m := After(c, start, attempts); m.receipt.None? || InPhase(m, Preparing))
    ensures (var m := After(c, start, attempts); var undisturbed := Final(c, start, Preparation(start));
             && undisturbed.Some? && Ready(c, start, undisturbed.value)
             && (Final(c, m, Preparation(m)).Some? <==> !m.context.Torn?)
             && (!m.context.Torn? ==>
                   && Ready(c, start, Final(c, m, Preparation(m)).value)
                   && Final(c, m, Preparation(m)).value.receipt == undisturbed.value.receipt))
  {
    RunKeeps(c, start, attempts);
    UntouchedParts(c, start);
    var m := After(c, start, attempts);
    hide After, Untouched, Final, Preparation;
    InvCases(c, start, m);
    RestartExactly(c, start, m);
    RestartExactly(c, start, start);
  }

  // ---------------------------------------------------------------- a context file cut short

  /** Steps that neither read nor write the context file, nor commit a phase. */
  predicate Neutral(step: Step) {
    Assembling(step) && !step.RequireContext? && !step.OpenContext? && !step.FillContext?
    && !step.ReadableContext? && !step.LabelContext?
  }

  lemma {:induction false} NeutralStays(c: Config, m: Machine, steps: seq<Step>)
    requires forall s <- steps :: Neutral(s)
    ensures Reached(c, m, steps).context == m.context && Reached(c, m, steps).receipt == m.receipt
    ensures Final(c, m, steps).Some? ==> Final(c, m, steps).value == Reached(c, m, steps)
    decreases |steps|
  {
    if steps != [] {
      assert steps[0] in steps && forall s <- steps[1..] :: s in steps;
      NeutralStep(c, m, steps[0]);
      hide Perform, Neutral;
      if Perform(c, m, steps[0]).Some? {
        NeutralStays(c, Perform(c, m, steps[0]).value, steps[1..]);
      }
    }
  }

  lemma NeutralStep(c: Config, m: Machine, step: Step)
    requires Neutral(step)
    ensures Perform(c, m, step).Some?
      ==> Perform(c, m, step).value.context == m.context && Perform(c, m, step).value.receipt == m.receipt
  {
    hide MayResume, PreparedNow;
  }

  /** Such a machine stays in preparation with its torn file, however often it is tried again. */
  lemma TornStays(c: Config, start: Machine, m: Machine, n: nat)
    requires InPreparation(c, start, m) && m.context.Torn?
    ensures (var r := Reached(c, m, Taken(Program(c, m, Prepare), n));
             r.context.Torn? && r.receipt == m.receipt)
  {
    var front := [RequirePreparing] + DISCARDING + POLICY;
    var back := CLOSURE + Finishing(c);
    TornProgram(c, start, m);
    hide *;
    TakenConcat(front, [RequireContext] + back, n);
    if n < |front| {
      assert forall s <- Taken(front, n) :: s in front;
      NeutralStays(c, m, Taken(front, n));
    } else {
      FinalConcat(c, m, front, Taken([RequireContext] + back, n - |front|));
      NeutralStays(c, m, front);
      if Final(c, m, front).Some? {
        TornRefuses(c, Final(c, m, front).value, back, n - |front|);
      }
    }
  }

  lemma TornProgram(c: Config, start: Machine, m: Machine)
    requires InPreparation(c, start, m) && m.context.Torn?
    ensures (var front := [RequirePreparing] + DISCARDING + POLICY;
             && Program(c, m, Prepare) == front + ([RequireContext] + (CLOSURE + Finishing(c)))
             && forall s <- front :: Neutral(s))
  {
    hide Finishing, CLOSURE;
    assert ContextSteps(m) == [RequireContext];
    assert [RequirePreparing] + DISCARDING + (POLICY + [RequireContext] + CLOSURE) + Finishing(c)
      == [RequirePreparing] + DISCARDING + POLICY + ([RequireContext] + (CLOSURE + Finishing(c)));
  }

  lemma TornRefuses(c: Config, m: Machine, back: seq<Step>, n: nat)
    requires m.context.Torn?
    ensures Reached(c, m, Taken([RequireContext] + back, n)) == m
  {
    var taken := Taken([RequireContext] + back, n);
    assert taken == [] || taken[0] == RequireContext;
  }

  // ---------------------------------------------------------------- finishing

  /** The broker accepts every account it does not know, and a missing sudo rule is written. */
  ghost predicate Registrable(c: Config, m: Machine, accounts: seq<Name>) {
    forall a <- accounts :: a !in m.registered && (a in c.wheel ==> a !in m.sudoers)
  }

  ghost predicate DistinctNames(accounts: seq<Name>) {
    forall i, j | 0 <= i < j < |accounts| :: accounts[i] != accounts[j]
  }

  lemma RegisterOne(c: Config, m: Machine, name: Name)
    ensures Final(c, m, [Register(name), AllowSudo(name)]).Some?
      <==> name !in m.registered && (name in c.wheel ==> name !in m.sudoers)
    ensures Final(c, m, [Register(name), AllowSudo(name)]).Some? ==>
      (var n := Final(c, m, [Register(name), AllowSudo(name)]).value;
       && n == m.(registered := n.registered, sudoers := n.sudoers)
       && n.registered == m.registered + {name}
       && n.sudoers == if name in c.wheel then m.sudoers + {name} else m.sudoers)
  {
    FinalTwo(c, m, Register(name), AllowSudo(name));
    hide Final;
  }

  lemma DistinctTail(accounts: seq<Name>)
    requires accounts != [] && DistinctNames(accounts)
    ensures DistinctNames(accounts[1..]) && accounts[0] !in accounts[1..]
    ensures forall a :: a in accounts <==> a == accounts[0] || a in accounts[1..]
  {
    assert accounts == [accounts[0]] + accounts[1..];
  }

  lemma RegisteringFront(accounts: seq<Name>)
    requires accounts != []
    ensures Registering(accounts) == [Register(accounts[0]), AllowSudo(accounts[0])] + Registering(accounts[1..])
  {
  }

  lemma {:induction false} RegisteringFinal(c: Config, m: Machine, accounts: seq<Name>)
    requires DistinctNames(accounts)
    ensures Final(c, m, Registering(accounts)).Some? <==> Registrable(c, m, accounts)
    ensures Final(c, m, Registering(accounts)).Some? ==>
      (var n := Final(c, m, Registering(accounts)).value; n == m.(registered := n.registered, sudoers := n.sudoers))
    decreases |accounts|
  {
    if accounts != [] {
      var a, rest := accounts[0], accounts[1..];
      RegisteringFront(accounts);
      DistinctTail(accounts);
      hide Final, Registering, DistinctNames;
      FinalConcat(c, m, [Register(a), AllowSudo(a)], Registering(rest));
      RegisterOne(c, m, a);
      if Final(c, m, [Register(a), AllowSudo(a)]).Some? {
        var n := Final(c, m, [Register(a), AllowSudo(a)]).value;
        RegisteringFinal(c, n, rest);
        assert forall b <- rest :: b != a;
      }
    }
  }

  lemma CommitFinal(c: Config, m: Machine)
    requires m.receipt.Some? && m.receipt.value.inputs == PreparedNow(m)
    requires forall a <- c.accounts :: MappingOf(c, m, a) == GUARD
    ensures Final(c, m, [CommitPending, RequirePending]).Some?
    ensures Enrolled(c, Final(c, m, [CommitPending, RequirePending]).value)
  {
    FinalTwo(c, m, CommitPending, RequirePending);
    hide Final;
  }

  /** The activation completes exactly when the broker knows none of the accounts yet, no sudo rule
      is in the way, no mapping has changed and the inputs are those of the receipt. */
  lemma FinishingExactly(c: Config, m: Machine)
    requires InPhase(m, PreparedInputs) && DistinctNames(c.accounts)
    ensures Final(c, m, Finishing(c)).Some? <==> MayFinish(c, m) && Registrable(c, m, c.accounts)
    ensures Final(c, m, Finishing(c)).Some? ==> Enrolled(c, Final(c, m, Finishing(c)).value)
  {
    var commit := [CommitPending, RequirePending];
    var last := Mapped(c.accounts) + commit;
    assert Finishing(c) == [RequirePrepared] + (Registering(c.accounts) + last);
    PreparedStep(c, m);
    hide Final, Finishing, Registering, Mapped, Perform, DistinctNames, Registrable, Enrolled;
    FinalStep(c, m, RequirePrepared, Registering(c.accounts) + last);
    if MayFinish(c, m) {
      FinalConcat(c, m, Registering(c.accounts), last);
      RegisteringFinal(c, m, c.accounts);
      if Registrable(c, m, c.accounts) {
        var n := Final(c, m, Registering(c.accounts)).value;
        FinalConcat(c, n, Mapped(c.accounts), commit);
        MappedFinal(c, n, c.accounts);
        CommitFinal(c, Final(c, n, Mapped(c.accounts)).value);
      }
    }
  }

  lemma PreparedStep(c: Config, m: Machine)
    ensures Perform(c, m, RequirePrepared) == if MayFinish(c, m) then Some(m) else None
  {
    hide MayFinish;
  }

  /** On a machine this transaction has prepared, the activation can be run to its end exactly as
      long as no earlier one got as far as registering an account: after that it is refused, and
      only a rollback is left. */
  lemma ActivationRestartsExactly(c: Config, start: Machine, m: Machine)
    requires Untouched(c, start) && BeyondPreparation(c, start, m) && InPhase(m, PreparedInputs)
    ensures Final(c, m, Program(c, m, Prepare)).Some? <==> m.registered == {}
    ensures Final(c, m, Program(c, m, Prepare)).Some? ==> Enrolled(c, Final(c, m, Program(c, m, Prepare)).value)
  {
    assert DistinctNames(c.accounts);
    FinishingExactly(c, m);
    hide Final, Finishing, PolicyKept;
    if m.registered == {} {
      assert Present(c, m) == Present(c, start);
      assert MayFinish(c, m) && Registrable(c, m, c.accounts);
    } else {
      var a :| a in m.registered;
      assert a in c.accounts;
    }
  }

  /** From first boot or any interrupted preparation without a torn context file, an undisturbed
      `prepare` ends with every account enrolled. */
  lemma PrepareEnrols(c: Config, start: Machine, m: Machine)
    requires Untouched(c, start) && (m == start || InPreparation(c, start, m)) && !m.context.Torn?
    ensures Final(c, m, Program(c, m, Prepare)).Some?
    ensures Enrolled(c, Final(c, m, Program(c, m, Prepare)).value)
  {
    RestartExactly(c, start, m);
    PhaseOfPreparation(c, start, m);
    var n := Final(c, m, Preparation(m)).value;
    assert DistinctNames(c.accounts);
    ReadyFinishes(c, start, n);
    FinishingExactly(c, n);
    assert Program(c, m, Prepare) == Preparation(m) + Finishing(c);
    hide *;
    FinalConcat(c, m, Preparation(m), Finishing(c));
  }

  lemma PhaseOfPreparation(c: Config, start: Machine, m: Machine)
    requires Untouched(c, start) && (m == start || InPreparation(c, start, m))
    ensures m.receipt.None? || m.receipt.value.phase.Preparing?
  {
  }

  lemma ReadyFinishes(c: Config, start: Machine, m: Machine)
    requires Untouched(c, start) && Ready(c, start, m)
    ensures InPhase(m, PreparedInputs) && MayFinish(c, m) && Registrable(c, m, c.accounts)
  {
    assert Present(c, m) == Present(c, start);
  }

  // ---------------------------------------------------------------- rolling back

  /** The account has its previous mapping, or has it as the default behind our own entry. */
  ghost predicate Restorable(c: Config, m: Machine, a: Name) {
    && m.receipt.Some? && a in m.receipt.value.previous
    && (MappingOf(c, m, a) == m.receipt.value.previous[a]
        || (MappingOf(c, m, a).seuser == GUARD_USER && a in m.entries && c.default == m.receipt.value.previous[a]))
  }

  /** The receipt names a previous mapping for every account, and none of them is the guard's. */
  ghost predicate Honest(c: Config, m: Machine) {
    m.receipt.Some? && forall a <- c.accounts ::
      a in m.receipt.value.previous && m.receipt.value.previous[a].seuser != GUARD_USER
  }

  function Cleaned(m: Machine, accounts: seq<Name>): Machine {
    m.(entries := map n | n in m.entries && !(n in accounts && m.entries[n].seuser == GUARD_USER) :: m.entries[n])
  }

  lemma RestoreOne(c: Config, m: Machine, a: Name)
    requires m.receipt.Some? && a in m.receipt.value.previous && m.receipt.value.previous[a].seuser != GUARD_USER
    ensures Final(c, m, [UnmapAccount(a), RequireRestored(a)])
      == if Restorable(c, m, a) then Some(Cleaned(m, [a])) else None
  {
    FinalTwo(c, m, UnmapAccount(a), RequireRestored(a));
    hide Final;
    var n := Perform(c, m, UnmapAccount(a));
    if MappingOf(c, m, a).seuser == GUARD_USER {
      if a in m.entries {
        assert m.entries - {a} == Cleaned(m, [a]).entries;
      }
    } else {
      assert m.entries == Cleaned(m, [a]).entries;
    }
  }

  lemma CleanedFront(m: Machine, accounts: seq<Name>)
    requires accounts != []
    ensures Cleaned(Cleaned(m, [accounts[0]]), accounts[1..]) == Cleaned(m, accounts)
  {
    var a, b := Cleaned(Cleaned(m, [accounts[0]]), accounts[1..]).entries, Cleaned(m, accounts).entries;
    assert accounts == [accounts[0]] + accounts[1..];
    assert a == b;
  }

  lemma {:induction false} RestoringFinal(c: Config, m: Machine, accounts: seq<Name>)
    requires DistinctNames(accounts) && m.receipt.Some?
    requires forall a <- accounts ::
               a in m.receipt.value.previous && m.receipt.value.previous[a].seuser != GUARD_USER
    ensures Final(c, m, Restoring(accounts))
      == if forall a <- accounts :: Restorable(c, m, a) then Some(Cleaned(m, accounts)) else None
    decreases |accounts|
  {
    if accounts == [] {
      assert Cleaned(m, []).entries == m.entries;
    } else {
      var a, rest := accounts[0], accounts[1..];
      var one := [UnmapAccount(a), RequireRestored(a)];
      assert Restoring(accounts) == one + Restoring(rest);
      DistinctTail(accounts);
      FinalConcat(c, m, one, Restoring(rest));
      RestoreOne(c, m, a);
      CleanedFront(m, accounts);
      var n := Cleaned(m, [a]);
      forall b | b in rest ensures Restorable(c, n, b) <==> Restorable(c, m, b) {
        assert MappingOf(c, n, b) == MappingOf(c, m, b);
      }
      hide Final, Restoring, Restorable, Cleaned, DistinctNames;
      if Restorable(c, m, a) {
        assert n.receipt == m.receipt by {
          CleanedReceipt(m, [a]);
        }
        RestoringFinal(c, n, rest);
      }
    }
  }

  lemma CleanedReceipt(m: Machine, accounts: seq<Name>)
    ensures Cleaned(m, accounts) == m.(entries := Cleaned(m, accounts).entries)
  {
  }

  /** A rollback completes exactly when every account still has its previous mapping or has it as the
      default behind the entry made here, that is, had no other entry of its own before; it then has
      restored every previous mapping. */
  lemma RollbackExactly(c: Config, m: Machine)
    requires DistinctNames(c.accounts) && Honest(c, m)
    ensures Final(c, m, Program(c, m, Rollback)).Some? <==> forall a <- c.accounts :: Restorable(c, m, a)
    ensures Final(c, m, Program(c, m, Rollback)).Some? ==>
      (var n := Final(c, m, Program(c, m, Rollback)).value;
       && n == Cleaned(m, c.accounts).(receipt := Some(m.receipt.value.(phase := Unenrolled)))
       && forall a <- c.accounts :: MappingOf(c, n, a) == m.receipt.value.previous[a])
  {
    FinalConcat(c, m, Restoring(c.accounts), [CommitUnenrolled]);
    RestoringFinal(c, m, c.accounts);
    if forall a <- c.accounts :: Restorable(c, m, a) {
      var n := Cleaned(m, c.accounts);
      FinalOne(c, n, CommitUnenrolled);
      forall a | a in c.accounts ensures MappingOf(c, n, a) == m.receipt.value.previous[a] {
        assert Restorable(c, m, a);
      }
    }
    hide Final, Restoring;
  }

  lemma CleanedAgain(m: Machine, accounts: seq<Name>, done: seq<Name>)
    requires forall a <- done :: a in accounts
    ensures Cleaned(Cleaned(m, done), accounts) == Cleaned(m, accounts)
  {
    assert Cleaned(Cleaned(m, done), accounts).entries == Cleaned(m, accounts).entries;
  }

  lemma RestorableAgain(c: Config, m: Machine, done: seq<Name>, a: Name)
    requires Honest(c, m) && a in c.accounts && Restorable(c, m, a)
    ensures Restorable(c, Cleaned(m, done), a)
  {
    if a in m.entries && m.entries[a].seuser == GUARD_USER && a in done {
      assert MappingOf(c, Cleaned(m, done), a) == c.default;
    } else {
      assert MappingOf(c, Cleaned(m, done), a) == MappingOf(c, m, a);
    }
  }

  /** Where an interrupted rollback stops: some accounts are cleaned, nothing else has changed. */
  lemma {:induction false} RestoringStops(c: Config, m: Machine, accounts: seq<Name>, n: nat) returns (done: seq<Name>)
    requires DistinctNames(accounts) && m.receipt.Some?
    requires forall a <- accounts ::
               a in m.receipt.value.previous && m.receipt.value.previous[a].seuser != GUARD_USER && Restorable(c, m, a)
    ensures Reached(c, m, Taken(Restoring(accounts), n)) == Cleaned(m, done) && forall a <- done :: a in accounts
    decreases |accounts|
  {
    if accounts == [] {
      done := [];
      assert Cleaned(m, []).entries == m.entries;
    } else {
      var a, rest := accounts[0], accounts[1..];
      var one := [UnmapAccount(a), RequireRestored(a)];
      assert Restoring(accounts) == one + Restoring(rest);
      DistinctTail(accounts);
      RestoreOne(c, m, a);
      TakenConcat(one, Restoring(rest), n);
      if n < 2 {
        done := if n == 0 then [] else [a];
        StopsWithin(c, m, a, n);
      } else {
        var k := Cleaned(m, [a]);
        forall b | b in rest ensures Restorable(c, k, b) {
          assert Restorable(c, m, b) && MappingOf(c, k, b) == MappingOf(c, m, b);
        }
        hide Final, Reached, Restoring, Restorable, Taken, DistinctNames;
        FinalConcat(c, m, one, Taken(Restoring(rest), n - 2));
        CleanedReceipt(m, [a]);
        var more := RestoringStops(c, k, rest, n - 2);
        done := [a] + more;
        CleanedFront(m, done);
        assert done[1..] == more;
      }
    }
  }

  lemma StopsWithin(c: Config, m: Machine, a: Name, n: nat)
    requires n < 2 && m.receipt.Some? && Restorable(c, m, a)
    requires a in m.receipt.value.previous && m.receipt.value.previous[a].seuser != GUARD_USER
    ensures Reached(c, m, Taken([UnmapAccount(a), RequireRestored(a)], n)) == Cleaned(m, if n == 0 then [] else [a])
  {
    var one: seq<Step> := [UnmapAccount(a), RequireRestored(a)];
    if n == 0 {
      assert Taken(one, 0) == [] && Cleaned(m, []).entries == m.entries;
    } else {
      assert Taken(one, 1) == [UnmapAccount(a)] && [UnmapAccount(a)][1..] == [];
      if MappingOf(c, m, a).seuser == GUARD_USER {
        assert m.entries - {a} == Cleaned(m, [a]).entries;
      } else {
        assert m.entries == Cleaned(m, [a]).entries;
      }
    }
  }

  /** A rollback that can complete can be interrupted after any of its steps and run again: it ends
      where an uninterrupted one would have ended. */
  lemma RollbackResumes(c: Config, m: Machine, n: nat)
    requires DistinctNames(c.accounts) && Honest(c, m) && forall a <- c.accounts :: Restorable(c, m, a)
    ensures (var steps := Program(c, m, Rollback); var stopped := Reached(c, m, Taken(steps, n));
             Final(c, stopped, steps) == Final(c, m, steps) && Final(c, m, steps).Some?)
  {
    var restoring := Restoring(c.accounts);
    RollbackExactly(c, m);
    TakenConcat(restoring, [CommitUnenrolled], n);
    if n < |restoring| {
      var done := RestoringStops(c, m, c.accounts, n);
      StoppedResumes(c, m, done);
    } else {
      hide Restoring, Restorable;
      RestoringFinal(c, m, c.accounts);
      FinalConcat(c, m, restoring, Taken([CommitUnenrolled], n - |restoring|));
      CommitStops(c, Cleaned(m, c.accounts), n - |restoring|);
      StoppedResumes(c, m, c.accounts);
    }
  }

  lemma CommitStops(c: Config, m: Machine, n: nat)
    requires m.receipt.Some?
    ensures (var r := Reached(c, m, Taken([CommitUnenrolled], n));
             r == m || r == m.(receipt := Some(m.receipt.value.(phase := Unenrolled))))
  {
    assert Taken([CommitUnenrolled], n) == [] || Taken([CommitUnenrolled], n) == [CommitUnenrolled];
    assert [CommitUnenrolled][1..] == [];
  }

  lemma StoppedResumes(c: Config, m: Machine, done: seq<Name>)
    requires DistinctNames(c.accounts) && Honest(c, m) && forall a <- c.accounts :: Restorable(c, m, a)
    requires forall a <- done :: a in c.accounts
    ensures (var k := Cleaned(m, done);
             var over := k.(receipt := Some(m.receipt.value.(phase := Unenrolled)));
             var end := Some(Cleaned(m, c.accounts).(receipt := Some(m.receipt.value.(phase := Unenrolled))));
             Final(c, k, Program(c, k, Rollback)) == end && Final(c, over, Program(c, over, Rollback)) == end)
  {
    var k := Cleaned(m, done);
    var over := k.(receipt := Some(m.receipt.value.(phase := Unenrolled)));
    CleanedAgain(m, c.accounts, done);
    CleanedReceipt(k, c.accounts);
    forall a | a in c.accounts ensures Restorable(c, k, a) && Restorable(c, over, a) {
      RestorableAgain(c, m, done, a);
      assert MappingOf(c, over, a) == MappingOf(c, k, a);
    }
    RollbackExactly(c, k);
    RollbackExactly(c, over);
    assert Cleaned(over, c.accounts).entries == Cleaned(k, c.accounts).entries;
    hide Final, Restorable, DistinctNames, Restoring;
  }

  /** From any point of any run on a machine whose installer accounts had no entry of their own, a
      rollback completes and gives every account its previous mapping back. */
  lemma RunRollsBack(c: Config, start: Machine, attempts: seq<Attempt>)
    requires Untouched(c, start) && forall a <- c.accounts :: a !in start.entries
    requires After(c, start, attempts).receipt.Some?
    ensures (var m := After(c, start, attempts); var steps := Program(c, m, Rollback);
             Final(c, m, steps).Some? && Present(c, Final(c, m, steps).value) == Present(c, start))
  {
    RunKeeps(c, start, attempts);
    var m := After(c, start, attempts);
    hide After, PolicyKept;
    assert DistinctNames(c.accounts);
    assert m.receipt.value.previous == Present(c, start);
    forall a | a in c.accounts ensures Restorable(c, m, a) && Present(c, start)[a].seuser != GUARD_USER {
      assert MappingOf(c, start, a) == c.default;
    }
    RollbackExactly(c, m);
    hide Final, Program, Restorable, DistinctNames;
    assert Present(c, Final(c, m, Program(c, m, Rollback)).value) == Present(c, start);
  }
}
