/** Leases on reviews and prepared launches between a session and the root broker.

    Times are nanoseconds of one clock. Every reading of the clock and every answer of the bus is
    an argument of the call that meets it, so a list of calls determines a run. */
module ReviewLeases {
  datatype Option<+T> = None | Some(value: T)

  type Time = int
  type Reference = string
  type Actor = string
  type Owner = string

  const MILLISECOND: Time := 1_000_000
  const SECOND: Time := 1_000 * MILLISECOND
  const CAPACITY := 32
  const LONGEST_LEASE := 120_000
  const KEPT_AFTER: Time := 300 * SECOND
  const LAUNCH_LEASE: Time := 90 * SECOND

  /** Until `kept` the operation can be asked about, before `expires` it can be applied. */
  datatype Lease = Lease(actor: Actor, kept: Time, expires: Time)
  datatype Launch = Launch(actor: Actor, expires: Time)

  datatype Action = GetOperation | ApplyPolicyChange | CancelOperation

  /** What happened, oldest first: leases taken, requests sent to the broker, results recorded. */
  datatype Event =
    | Previewed(ref: Reference, actor: Actor, owner: Owner, started: Time, lease: int)
    | Forwarded(ref: Reference, action: Action, actor: Actor, owner: Owner, at: Time)
    | Recorded(ref: Reference)
    | Prepared(ref: Reference, actor: Actor, owner: Owner, at: Time)
    | Started(ref: Reference, actor: Actor, owner: Owner, at: Time)

  /** `epoch` is the bus name of the root broker the connection was authenticated with. */
  datatype State = State(
    owners: map<Reference, Lease>,
    launches: map<Reference, Launch>,
    published: set<Reference>,
    epoch: Option<Owner>,
    history: seq<Event>)

  const INITIAL := State(map[], map[], {}, None, [])

  // ---------------------------------------------------------------- one call over the bus

  /** A decoded and checked reply, or one that is not acceptable. */
  datatype Reply =
    | Review(ref: Reference, lease: int)
    | Result(terminal: bool)
    | Reserved(ref: Reference)
    | Streams
    | Garbage

  /** The bus during one call: who owns the broker's name before and after, whether that owner
      is root's, and what comes back. `None` is a bus error. */
  datatype Wire = Wire(before: Option<Owner>, trusted: bool, reply: Option<Reply>, after: Option<Owner>)

  datatype Outcome = Unavailable | Changed | Replied(reply: Reply)
  datatype Call = Call(epoch: Option<Owner>, sentTo: Option<Owner>, outcome: Outcome)

  function Dispatch(epoch: Option<Owner>, wire: Wire): Call {
    if wire.before.None? then Call(epoch, None, Unavailable)
    else if epoch.None? && !wire.trusted then Call(None, None, Unavailable)
    else
      var owner := if epoch.None? then wire.before.value else epoch.value;
      if wire.before.value != owner then Call(Some(owner), None, Changed)
      else if wire.reply.None? || wire.after.None? then Call(Some(owner), Some(owner), Unavailable)
      else if wire.after.value != owner then Call(Some(owner), Some(owner), Changed)
      else Call(Some(owner), Some(owner), Replied(wire.reply.value))
  }

  lemma RepliedWasSent(epoch: Option<Owner>, wire: Wire)
    ensures Dispatch(epoch, wire).outcome.Replied?
      ==> Dispatch(epoch, wire).sentTo.Some? && Dispatch(epoch, wire).epoch == Dispatch(epoch, wire).sentTo
  {
  }

  /** A changed broker takes every lease with it, and the connection. */
  function Settled(s: State, call: Call): State {
    if call.outcome.Changed? then State(map[], map[], {}, None, s.history) else s.(epoch := call.epoch)
  }

  // ---------------------------------------------------------------- the operations

  datatype Error =
    | WorkflowCapacity | BrokerUnavailable | BrokerChanged | InvalidWorkflow | ReviewExpired | ReviewOwnerChanged

  datatype Answer =
    | Raised(error: Error)
    | Shown(ref: Reference, milliseconds: int)
    | Progress(terminal: bool)
    | Launchable(ref: Reference)
    | Launched
    | Passed

  datatype Done = Done(state: State, answer: Answer)

  /** The entries whose own reading of the clock finds them alive. */
  function SweptLeases(owners: map<Reference, Lease>, readings: map<Reference, Time>): map<Reference, Lease> {
    map r | r in owners && r in readings && owners[r].kept > readings[r] :: owners[r]
  }

  function SweptLaunches(launches: map<Reference, Launch>, readings: map<Reference, Time>): map<Reference, Launch> {
    map r | r in launches && r in readings && launches[r].expires > readings[r] :: launches[r]
  }

  /** Whole milliseconds, truncated toward zero. */
  function Milliseconds(t: Time): int {
    if t >= 0 then t / MILLISECOND else -(-t / MILLISECOND)
  }

  function ShownLease(remaining: Time): int {
    if Milliseconds(remaining) > 1 then Milliseconds(remaining) else 1
  }

  function Failure(call: Call): Answer {
    Raised(if call.outcome.Changed? then BrokerChanged else BrokerUnavailable)
  }

  datatype Op =
    | Preview(actor: Actor, sweep: map<Reference, Time>, started: Time, wire: Wire, checked: Time, shown: Time)
    | Operation(actor: Actor, ref: Reference, action: Action, held: Time, applied: Time, wire: Wire, recorded: bool)
    | PrepareLaunch(actor: Actor, sweep: map<Reference, Time>, wire: Wire, stored: Time)
    | StartLaunch(actor: Actor, ref: Reference, checked: Time, wire: Wire)
    | Read(wire: Wire)

  function PreviewDone(s: State, op: Op): Done
    requires op.Preview?
  {
    var owners := SweptLeases(s.owners, op.sweep);
    var swept := s.(owners := owners, published := s.published * owners.Keys);
    var call := Dispatch(s.epoch, op.wire);
    var settled := Settled(swept, call);
    if |owners| >= CAPACITY then Done(swept, Raised(WorkflowCapacity))
    else if !call.outcome.Replied? then Done(settled, Failure(call))
    else
      var reply := call.outcome.reply;
      if !reply.Review? || !(0 < reply.lease <= LONGEST_LEASE) then Done(settled, Raised(InvalidWorkflow))
      else
        var expires := op.started + reply.lease * MILLISECOND;
        if op.checked >= expires then Done(settled, Raised(ReviewExpired))
        else Done(settled.(owners := owners[reply.ref := Lease(op.actor, expires + KEPT_AFTER, expires)],
                           history := s.history
                             + [Previewed(reply.ref, op.actor, call.sentTo.value, op.started, reply.lease)]),
                  Shown(reply.ref, ShownLease(expires - op.shown)))
  }

  function OperationDone(s: State, op: Op): Done
    requires op.Operation?
  {
    if op.ref !in s.owners || s.owners[op.ref].actor != op.actor || s.owners[op.ref].kept <= op.held
    then Done(s, Raised(ReviewOwnerChanged))
    else if op.action.ApplyPolicyChange? && s.owners[op.ref].expires <= op.applied
    then Done(s, Raised(ReviewExpired))
    else
      var call := Dispatch(s.epoch, op.wire);
      var at := if op.action.ApplyPolicyChange? then op.applied else op.held;
      var sent := if call.sentTo.Some?
                  then s.(history := s.history + [Forwarded(op.ref, op.action, op.actor, call.sentTo.value, at)])
                  else s;
      var settled := Settled(sent, call);
      if !call.outcome.Replied? then Done(settled, Failure(call))
      else if !call.outcome.reply.Result? then Done(settled, Raised(InvalidWorkflow))
      else if call.outcome.reply.terminal && op.ref !in s.published && op.recorded
      then Done(settled.(published := settled.published + {op.ref}, history := settled.history + [Recorded(op.ref)]),
                Progress(true))
      else Done(settled, Progress(call.outcome.reply.terminal))
  }

  function PrepareDone(s: State, op: Op): Done
    requires op.PrepareLaunch?
  {
    var launches := SweptLaunches(s.launches, op.sweep);
    var swept := s.(launches := launches);
    var call := Dispatch(s.epoch, op.wire);
    var settled := Settled(swept, call);
    if |launches| >= CAPACITY then Done(swept, Raised(WorkflowCapacity))
    else if !call.outcome.Replied? then Done(settled, Failure(call))
    else if !call.outcome.reply.Reserved? then Done(settled, Raised(InvalidWorkflow))
    else
      var ref := call.outcome.reply.ref;
      Done(settled.(launches := launches[ref := Launch(op.actor, op.stored + LAUNCH_LEASE)],
                    history := s.history + [Prepared(ref, op.actor, call.sentTo.value, op.stored)]),
           Launchable(ref))
  }

  function StartDone(s: State, op: Op): Done
    requires op.StartLaunch?
  {
    if op.ref !in s.launches || s.launches[op.ref].actor != op.actor || s.launches[op.ref].expires <= op.checked
    then Done(s, Raised(ReviewOwnerChanged))
    else
      var taken := s.(launches := s.launches - {op.ref});
      var call := Dispatch(s.epoch, op.wire);
      var sent := if call.sentTo.Some?
                  then taken.(history := s.history + [Started(op.ref, op.actor, call.sentTo.value, op.checked)])
                  else taken;
      var settled := Settled(sent, call);
      if !call.outcome.Replied? then Done(settled, Failure(call))
      else Done(settled, if call.outcome.reply.Streams? then Launched else Raised(InvalidWorkflow))
  }

  function Perform(s: State, op: Op): Done {
    match op
    case Preview(_, _, _, _, _, _) => PreviewDone(s, op)
    case Operation(_, _, _, _, _, _, _) => OperationDone(s, op)
    case PrepareLaunch(_, _, _, _) => PrepareDone(s, op)
    case StartLaunch(_, _, _, _) => StartDone(s, op)
    case Read(wire) =>
      var call := Dispatch(s.epoch, wire);
      Done(Settled(s, call), if call.outcome.Replied? then Passed else Failure(call))
  }

  function After(ops: seq<Op>): State {
    if ops == [] then INITIAL else Perform(After(ops[..|ops| - 1]), ops[|ops| - 1]).state
  }

  // ---------------------------------------------------------------- what the history must show

  /** The last lease taken on a reference. */
  function LastPreview(history: seq<Event>, ref: Reference): Option<Event> {
    if history == [] then None
    else
      var last := history[|history| - 1];
      if last.Previewed? && last.ref == ref then Some(last) else LastPreview(history[..|history| - 1], ref)
  }

  /** The last lease taken on a reference or record made of it. */
  function LastReview(history: seq<Event>, ref: Reference): Option<Event> {
    if history == [] then None
    else
      var last := history[|history| - 1];
      if (last.Previewed? || last.Recorded?) && last.ref == ref then Some(last)
      else LastReview(history[..|history| - 1], ref)
  }

  /** The last preparation or start of a launch. */
  function LastLaunch(history: seq<Event>, ref: Reference): Option<Event> {
    if history == [] then None
    else
      var last := history[|history| - 1];
      if (last.Prepared? || last.Started?) && last.ref == ref then Some(last)
      else LastLaunch(history[..|history| - 1], ref)
  }

  /** An event may follow this history.
      - A request goes out only for the actor of the last lease on its reference and to the same
        broker, and a change only before the lease, counted from the start of the preview, has run out.
      - A launch is started only by the actor it was prepared for, at the same broker, within 90 s,
        and only if it has not been started since it was prepared.
      - A result is recorded only if it has not been recorded since the lease was taken. */
  ghost predicate MayFollow(history: seq<Event>, e: Event) {
    match e
    case Previewed(_, _, _, _, lease) => 0 < lease <= LONGEST_LEASE
    case Forwarded(ref, action, actor, owner, at) =>
      var p := LastPreview(history, ref);
      && p.Some? && p.value.Previewed? && p.value.actor == actor && p.value.owner == owner
      && at < p.value.started + p.value.lease * MILLISECOND + (if action.ApplyPolicyChange? then 0 else KEPT_AFTER)
    case Recorded(ref) =>
      LastReview(history, ref).Some? && LastReview(history, ref).value.Previewed?
    case Prepared(_, _, _, _) => true
    case Started(ref, actor, owner, at) =>
      var p := LastLaunch(history, ref);
      p.Some? && p.value.Prepared? && p.value.actor == actor && p.value.owner == owner && at < p.value.at + LAUNCH_LEASE
  }

  ghost predicate Lawful(history: seq<Event>) {
    forall i | 0 <= i < |history| :: MayFollow(history[..i], history[i])
  }

  // ---------------------------------------------------------------- invariant

  /** A lease in the table is the last one taken on its reference, at the present broker. */
  ghost predicate LeaseTraced(s: State, ref: Reference)
    requires ref in s.owners
  {
    var p, entry := LastPreview(s.history, ref), s.owners[ref];
    && p.Some? && p.value.Previewed? && p.value.actor == entry.actor && s.epoch == Some(p.value.owner)
    && entry.expires == p.value.started + p.value.lease * MILLISECOND
    && entry.kept == entry.expires + KEPT_AFTER
  }

  ghost predicate LaunchTraced(s: State, ref: Reference)
    requires ref in s.launches
  {
    var p, entry := LastLaunch(s.history, ref), s.launches[ref];
    && p.Some? && p.value.Prepared? && p.value.actor == entry.actor && s.epoch == Some(p.value.owner)
    && entry.expires == p.value.at + LAUNCH_LEASE
  }

  ghost predicate Unrecorded(s: State, ref: Reference) {
    LastReview(s.history, ref).Some? && LastReview(s.history, ref).value.Previewed?
  }

  ghost predicate Traced(s: State) {
    && (forall ref <- s.owners :: LeaseTraced(s, ref))
    && (forall ref <- s.launches :: LaunchTraced(s, ref))
    && (forall ref <- s.owners :: ref !in s.published ==> Unrecorded(s, ref))
  }

  ghost predicate Bounded(s: State) {
    |s.owners| <= CAPACITY && |s.launches| <= CAPACITY && s.published <= s.owners.Keys
  }

  ghost predicate Inv(s: State) {
    Lawful(s.history) && Traced(s) && Bounded(s)
  }

  lemma LastOfLonger(history: seq<Event>, e: Event, ref: Reference)
    ensures LastPreview(history + [e], ref) == if e.Previewed? && e.ref == ref then Some(e) else LastPreview(history, ref)
    ensures LastReview(history + [e], ref)
      == if (e.Previewed? || e.Recorded?) && e.ref == ref then Some(e) else LastReview(history, ref)
    ensures LastLaunch(history + [e], ref)
      == if (e.Prepared? || e.Started?) && e.ref == ref then Some(e) else LastLaunch(history, ref)
  {
    assert (history + [e])[..|history|] == history;
  }

  lemma Looks(history: seq<Event>, e: Event)
    ensures forall r ::
              LastPreview(history + [e], r) == if e.Previewed? && e.ref == r then Some(e) else LastPreview(history, r)
    ensures forall r ::
              LastReview(history + [e], r)
              == if (e.Previewed? || e.Recorded?) && e.ref == r then Some(e) else LastReview(history, r)
    ensures forall r ::
              LastLaunch(history + [e], r)
              == if (e.Prepared? || e.Started?) && e.ref == r then Some(e) else LastLaunch(history, r)
  {
    hide LastPreview, LastReview, LastLaunch;
    forall r ensures LastPreview(history + [e], r)
        == if e.Previewed? && e.ref == r then Some(e) else LastPreview(history, r)
      ensures LastReview(history + [e], r)
        == if (e.Previewed? || e.Recorded?) && e.ref == r then Some(e) else LastReview(history, r)
      ensures LastLaunch(history + [e], r)
        == if (e.Prepared? || e.Started?) && e.ref == r then Some(e) else LastLaunch(history, r)
    {
      LastOfLonger(history, e, r);
    }
  }

  lemma LawfulLonger(history: seq<Event>, e: Event)
    requires Lawful(history) && MayFollow(history, e)
    ensures Lawful(history + [e])
  {
    hide MayFollow;
    var longer := history + [e];
    forall i | 0 <= i < |longer| ensures MayFollow(longer[..i], longer[i]) {
      if i < |history| {
        assert longer[..i] == history[..i];
      } else {
        assert longer[..i] == history;
      }
    }
  }

  // ---------------------------------------------------------------- every operation keeps it

  lemma {:induction false} Fewer<T>(a: set<T>, b: set<T>)
    requires a <= b
    ensures |a| <= |b|
  {
    if a != {} {
      var x :| x in a;
      Fewer(a - {x}, b - {x});
    }
  }

  /** With one entry more or replaced, a table below capacity stays within it. */
  lemma OneMore<V>(table: map<Reference, V>, ref: Reference, entry: V)
    requires |table| < CAPACITY
    ensures |table[ref := entry]| <= CAPACITY
  {
    var more := table[ref := entry];
    assert more.Keys == table.Keys + {ref};
    assert |more| == |more.Keys| && |table| == |table.Keys|;
  }

  /** Dropping entries keeps what the tables say. */
  lemma DropKeeps(s: State, t: State)
    requires Inv(s) && t.history == s.history && t.epoch == s.epoch
    requires t.owners.Keys <= s.owners.Keys && (forall r <- t.owners :: t.owners[r] == s.owners[r])
    requires t.launches.Keys <= s.launches.Keys && (forall r <- t.launches :: t.launches[r] == s.launches[r])
    requires t.published == s.published * t.owners.Keys
    ensures Inv(t)
  {
    hide Lawful, LastPreview, LastReview, LastLaunch;
    Fewer(t.owners.Keys, s.owners.Keys);
    Fewer(t.launches.Keys, s.launches.Keys);
    assert |t.owners| == |t.owners.Keys| && |s.owners| == |s.owners.Keys|;
    assert |t.launches| == |t.launches.Keys| && |s.launches| == |s.launches.Keys|;
    assert forall ref <- t.owners :: LeaseTraced(s, ref);
    assert forall ref <- t.launches :: LaunchTraced(s, ref);
    forall ref | ref in t.owners && ref !in t.published ensures Unrecorded(t, ref) {
      assert ref in s.owners && ref !in s.published;
    }
  }

  /** A call that reaches no broker, or the same one, leaves every lease with its broker. */
  lemma SettledKeeps(s: State, wire: Wire)
    requires Inv(s)
    ensures Inv(Settled(s, Dispatch(s.epoch, wire)))
  {
    hide Lawful, LastPreview, LastReview, LastLaunch;
    var t := Settled(s, Dispatch(s.epoch, wire));
    if !Dispatch(s.epoch, wire).outcome.Changed? {
      assert s.epoch.Some? ==> t.epoch == s.epoch;
      forall ref | ref in t.owners ensures LeaseTraced(t, ref) {
        assert LeaseTraced(s, ref);
      }
      forall ref | ref in t.launches ensures LaunchTraced(t, ref) {
        assert LaunchTraced(s, ref);
      }
      assert forall ref <- t.owners :: ref !in t.published ==> Unrecorded(s, ref);
    }
  }

  /** Requests change no table. */
  lemma LogKeeps(s: State, e: Event)
    requires Inv(s) && e.Forwarded? && MayFollow(s.history, e)
    ensures Inv(s.(history := s.history + [e]))
  {
    hide Lawful, LastPreview, LastReview, LastLaunch, MayFollow, Bounded;
    LawfulLonger(s.history, e);
    Looks(s.history, e);
    BoundedSame(s, s.(history := s.history + [e]));
    forall ref | ref in s.owners ensures LeaseTraced(s.(history := s.history + [e]), ref) {
      assert LeaseTraced(s, ref);
    }
    forall ref | ref in s.launches ensures LaunchTraced(s.(history := s.history + [e]), ref) {
      assert LaunchTraced(s, ref);
    }
    assert forall ref <- s.owners :: ref !in s.published ==> Unrecorded(s, ref);
  }

  lemma BoundedSame(s: State, t: State)
    requires Bounded(s) && t.owners == s.owners && t.launches == s.launches && t.published == s.published
    ensures Bounded(t)
  {
  }

  lemma RecordKeeps(s: State, ref: Reference)
    requires Inv(s) && ref in s.owners && ref !in s.published
    ensures Inv(s.(published := s.published + {ref}, history := s.history + [Recorded(ref)]))
  {
    hide Lawful, LastPreview, LastReview, LastLaunch;
    var t := s.(published := s.published + {ref}, history := s.history + [Recorded(ref)]);
    assert Unrecorded(s, ref);
    LawfulLonger(s.history, Recorded(ref));
    hide MayFollow;
    Looks(s.history, Recorded(ref));
    assert Bounded(t);
    hide Bounded;
    forall r | r in t.owners ensures LeaseTraced(t, r) && (r !in t.published ==> Unrecorded(t, r)) {
      assert LeaseTraced(s, r);
      assert r !in s.published ==> Unrecorded(s, r);
    }
    forall r | r in t.launches ensures LaunchTraced(t, r) {
      assert LaunchTraced(s, r);
    }
  }

  function WithLease(s: State, ref: Reference, actor: Actor, owner: Owner, started: Time, lease: int): State {
    var expires := started + lease * MILLISECOND;
    s.(owners := s.owners[ref := Lease(actor, expires + KEPT_AFTER, expires)],
       history := s.history + [Previewed(ref, actor, owner, started, lease)])
  }

  lemma LeaseTraces(s: State, ref: Reference, actor: Actor, owner: Owner, started: Time, lease: int)
    requires Traced(s) && s.epoch == Some(owner)
    ensures Traced(WithLease(s, ref, actor, owner, started, lease))
  {
    hide LastPreview, LastReview, LastLaunch;
    var t := WithLease(s, ref, actor, owner, started, lease);
    Looks(s.history, Previewed(ref, actor, owner, started, lease));
    forall r | r in t.owners ensures LeaseTraced(t, r) && (r !in t.published ==> Unrecorded(t, r)) {
      assert r != ref ==> LeaseTraced(s, r) && (r !in s.published ==> Unrecorded(s, r));
    }
    forall r | r in t.launches ensures LaunchTraced(t, r) {
      assert LaunchTraced(s, r);
    }
  }

  lemma LeaseKeeps(s: State, ref: Reference, actor: Actor, started: Time, lease: int)
    requires Inv(s) && |s.owners| < CAPACITY && 0 < lease <= LONGEST_LEASE && s.epoch.Some?
    ensures Inv(WithLease(s, ref, actor, s.epoch.value, started, lease))
  {
    hide Traced, Lawful;
    var expires := started + lease * MILLISECOND;
    OneMore(s.owners, ref, Lease(actor, expires + KEPT_AFTER, expires));
    LawfulLonger(s.history, Previewed(ref, actor, s.epoch.value, started, lease));
    LeaseTraces(s, ref, actor, s.epoch.value, started, lease);
  }

  function WithLaunch(s: State, ref: Reference, actor: Actor, owner: Owner, at: Time): State {
    s.(launches := s.launches[ref := Launch(actor, at + LAUNCH_LEASE)],
       history := s.history + [Prepared(ref, actor, owner, at)])
  }

  lemma LaunchTraces(s: State, ref: Reference, actor: Actor, owner: Owner, at: Time)
    requires Traced(s) && s.epoch == Some(owner)
    ensures Traced(WithLaunch(s, ref, actor, owner, at))
  {
    hide LastPreview, LastReview, LastLaunch;
    var t := WithLaunch(s, ref, actor, owner, at);
    Looks(s.history, Prepared(ref, actor, owner, at));
    forall r | r in t.owners ensures LeaseTraced(t, r) && (r !in t.published ==> Unrecorded(t, r)) {
      assert LeaseTraced(s, r) && (r !in s.published ==> Unrecorded(s, r));
    }
    forall r | r in t.launches ensures LaunchTraced(t, r) {
      assert r != ref ==> LaunchTraced(s, r);
    }
  }

  lemma LaunchKeeps(s: State, ref: Reference, actor: Actor, at: Time)
    requires Inv(s) && |s.launches| < CAPACITY && s.epoch.Some?
    ensures Inv(WithLaunch(s, ref, actor, s.epoch.value, at))
  {
    hide Traced, Lawful;
    OneMore(s.launches, ref, Launch(actor, at + LAUNCH_LEASE));
    LawfulLonger(s.history, Prepared(ref, actor, s.epoch.value, at));
    LaunchTraces(s, ref, actor, s.epoch.value, at);
  }

  function WithStart(s: State, ref: Reference, actor: Actor, owner: Owner, at: Time): State {
    s.(launches := s.launches - {ref}, history := s.history + [Started(ref, actor, owner, at)])
  }

  lemma StartTraces(s: State, ref: Reference, actor: Actor, owner: Owner, at: Time)
    requires Traced(s)
    ensures Traced(WithStart(s, ref, actor, owner, at))
  {
    hide LastPreview, LastReview, LastLaunch;
    var t := WithStart(s, ref, actor, owner, at);
    Looks(s.history, Started(ref, actor, owner, at));
    forall r | r in t.owners ensures LeaseTraced(t, r) && (r !in t.published ==> Unrecorded(t, r)) {
      assert LeaseTraced(s, r) && (r !in s.published ==> Unrecorded(s, r));
    }
    forall r | r in t.launches ensures LaunchTraced(t, r) {
      assert LaunchTraced(s, r);
    }
  }

  /** Starting a launch uses it up. */
  lemma StartKeeps(s: State, ref: Reference, owner: Owner, at: Time)
    requires Inv(s) && ref in s.launches && s.launches[ref].expires > at && s.epoch == Some(owner)
    ensures Inv(WithStart(s, ref, s.launches[ref].actor, owner, at))
  {
    assert LaunchTraced(s, ref);
    hide Traced, Lawful, LastLaunch;
    var t := WithStart(s, ref, s.launches[ref].actor, owner, at);
    LawfulLonger(s.history, Started(ref, s.launches[ref].actor, owner, at));
    Fewer(t.launches.Keys, s.launches.Keys);
    assert |t.launches| == |t.launches.Keys| && |s.launches| == |s.launches.Keys|;
    StartTraces(s, ref, s.launches[ref].actor, owner, at);
  }

  lemma SweepLeasesKeeps(s: State, readings: map<Reference, Time>)
    requires Inv(s)
    ensures (var owners := SweptLeases(s.owners, readings);
             Inv(s.(owners := owners, published := s.published * owners.Keys)))
  {
    hide Lawful, Traced;
    var owners := SweptLeases(s.owners, readings);
    DropKeeps(s, s.(owners := owners, published := s.published * owners.Keys));
  }

  lemma SweepLaunchesKeeps(s: State, readings: map<Reference, Time>)
    requires Inv(s)
    ensures Inv(s.(launches := SweptLaunches(s.launches, readings)))
  {
    hide Lawful, Traced;
    assert s.published == s.published * s.owners.Keys;
    DropKeeps(s, s.(launches := SweptLaunches(s.launches, readings)));
  }

  lemma PreviewKeeps(s: State, op: Op)
    requires Inv(s) && op.Preview?
    ensures Inv(PreviewDone(s, op).state)
  {
    hide Inv, SweptLeases;
    var owners := SweptLeases(s.owners, op.sweep);
    var swept := s.(owners := owners, published := s.published * owners.Keys);
    var call := Dispatch(s.epoch, op.wire);
    SweepLeasesKeeps(s, op.sweep);
    SettledKeeps(swept, op.wire);
    if |owners| < CAPACITY && call.outcome.Replied? && call.outcome.reply.Review? {
      var reply := call.outcome.reply;
      if 0 < reply.lease <= LONGEST_LEASE {
        LeaseKeeps(Settled(swept, call), reply.ref, op.actor, op.started, reply.lease);
      }
    }
  }

  lemma OperationKeeps(s: State, op: Op)
    requires Inv(s) && op.Operation?
    ensures Inv(OperationDone(s, op).state)
  {
    if op.ref in s.owners && s.owners[op.ref].actor == op.actor && s.owners[op.ref].kept > op.held
       && (op.action.ApplyPolicyChange? ==> s.owners[op.ref].expires > op.applied)
    {
      var call := Dispatch(s.epoch, op.wire);
      var at := if op.action.ApplyPolicyChange? then op.applied else op.held;
      assert LeaseTraced(s, op.ref);
      hide Lawful, Traced, Bounded, LastPreview, LastLaunch, LastReview;
      var sent := s;
      if call.sentTo.Some? {
        var e := Forwarded(op.ref, op.action, op.actor, call.sentTo.value, at);
        assert MayFollow(s.history, e);
        LogKeeps(s, e);
        sent := s.(history := s.history + [e]);
      }
      hide Inv, MayFollow, LeaseTraced;
      SettledKeeps(sent, op.wire);
      if call.outcome.Replied? && op.ref !in s.published {
        RecordKeeps(Settled(sent, call), op.ref);
      }
    }
  }

  lemma PrepareKeeps(s: State, op: Op)
    requires Inv(s) && op.PrepareLaunch?
    ensures Inv(PrepareDone(s, op).state)
  {
    hide Inv, SweptLaunches;
    var launches := SweptLaunches(s.launches, op.sweep);
    var swept := s.(launches := launches);
    var call := Dispatch(s.epoch, op.wire);
    SweepLaunchesKeeps(s, op.sweep);
    SettledKeeps(swept, op.wire);
    if |launches| < CAPACITY && call.outcome.Replied? && call.outcome.reply.Reserved? {
      LaunchKeeps(Settled(swept, call), call.outcome.reply.ref, op.actor, op.stored);
    }
  }

  lemma StartDoneKeeps(s: State, op: Op)
    requires Inv(s) && op.StartLaunch?
    ensures Inv(StartDone(s, op).state)
  {
    if op.ref in s.launches && s.launches[op.ref].actor == op.actor && s.launches[op.ref].expires > op.checked {
      var call := Dispatch(s.epoch, op.wire);
      var taken := s.(launches := s.launches - {op.ref});
      assert LaunchTraced(s, op.ref) && s.published == s.published * s.owners.Keys;
      hide Lawful, Traced, Bounded, LastLaunch;
      if call.sentTo.Some? {
        StartKeeps(s, op.ref, call.sentTo.value, op.checked);
        hide Inv;
        SettledKeeps(taken.(history := s.history + [Started(op.ref, op.actor, call.sentTo.value, op.checked)]), op.wire);
      } else {
        DropKeeps(s, taken);
        hide Inv;
        SettledKeeps(taken, op.wire);
      }
    }
  }

  lemma PerformKeeps(s: State, op: Op)
    requires Inv(s)
    ensures Inv(Perform(s, op).state)
  {
    hide Inv, PreviewDone, OperationDone, PrepareDone, StartDone, Settled, Dispatch;
    match op
    case Preview(_, _, _, _, _, _) => PreviewKeeps(s, op);
    case Operation(_, _, _, _, _, _, _) => OperationKeeps(s, op);
    case PrepareLaunch(_, _, _, _) => PrepareKeeps(s, op);
    case StartLaunch(_, _, _, _) => StartDoneKeeps(s, op);
    case Read(wire) => SettledKeeps(s, wire);
  }

  // ---------------------------------------------------------------- over any run

  lemma {:induction false} RunKeeps(ops: seq<Op>)
    ensures Inv(After(ops))
  {
    if ops == [] {
      assert Inv(INITIAL);
    } else {
      RunKeeps(ops[..|ops| - 1]);
      hide Inv, Perform;
      PerformKeeps(After(ops[..|ops| - 1]), ops[|ops| - 1]);
    }
  }

  /** Over any run: every request to apply a change went to the broker that made the preview, for
      the actor that asked for it, in less than the reviewed lease, at most 120 s, after the preview
      began; and the tables never hold more than 32 entries each. */
  lemma AppliesAreReviewed(ops: seq<Op>, i: nat)
    requires i < |After(ops).history|
    requires After(ops).history[i].Forwarded? && After(ops).history[i].action.ApplyPolicyChange?
    ensures (var h, e := After(ops).history, After(ops).history[i];
             var p := LastPreview(h[..i], e.ref);
             && p.Some? && p.value in h[..i] && p.value.Previewed? && p.value.ref == e.ref
             && p.value.actor == e.actor && p.value.owner == e.owner
             && 0 < p.value.lease <= LONGEST_LEASE
             && e.at - p.value.started < p.value.lease * MILLISECOND <= 120 * SECOND)
    ensures |After(ops).owners| <= CAPACITY && |After(ops).launches| <= CAPACITY
    ensures After(ops).published <= After(ops).owners.Keys
  {
    RunKeeps(ops);
    var h := After(ops).history;
    hide After;
    assert MayFollow(h[..i], h[i]);
    var j := LastPreviewAt(h[..i], h[i].ref);
    assert MayFollow(h[..j], h[j]);
  }

  lemma {:induction false} LastPreviewAt(history: seq<Event>, ref: Reference) returns (j: nat)
    requires LastPreview(history, ref).Some?
    ensures j < |history| && Some(history[j]) == LastPreview(history, ref) && history[j].Previewed? && history[j].ref == ref
  {
    var last := history[|history| - 1];
    if last.Previewed? && last.ref == ref {
      j := |history| - 1;
    } else {
      j := LastPreviewAt(history[..|history| - 1], ref);
    }
  }

  /** Between two starts of one reference lies a preparation of it: no prepared launch is
      forwarded twice. */
  lemma StartsArePrepared(ops: seq<Op>, i: nat, j: nat)
    requires i < j < |After(ops).history|
    requires After(ops).history[i].Started? && After(ops).history[j].Started?
    requires After(ops).history[i].ref == After(ops).history[j].ref
    ensures exists k | i < k < j ::
              && After(ops).history[k].Prepared?
              && After(ops).history[k].ref == After(ops).history[j].ref
              && After(ops).history[k].actor == After(ops).history[j].actor
              && After(ops).history[k].owner == After(ops).history[j].owner
              && After(ops).history[j].at < After(ops).history[k].at + LAUNCH_LEASE
  {
    RunKeeps(ops);
    var h := After(ops).history;
    hide After;
    assert MayFollow(h[..j], h[j]);
    var k := LastLaunchAt(h[..j], h[j].ref, i);
    assert h[..j][k] == h[k];
  }

  lemma {:induction false} LastLaunchAt(history: seq<Event>, ref: Reference, since: nat) returns (k: nat)
    requires since < |history| && history[since].Started? && history[since].ref == ref
    ensures since <= k < |history| && Some(history[k]) == LastLaunch(history, ref)
    ensures history[k].ref == ref
  {
    var last := history[|history| - 1];
    if (last.Prepared? || last.Started?) && last.ref == ref {
      k := |history| - 1;
    } else {
      k := LastLaunchAt(history[..|history| - 1], ref, since);
    }
  }

  /** The lease shown exceeds what truly remains at that reading by at most one millisecond exactly
      when the lease has not run out by then. */
  lemma ShownLeaseExactly(remaining: Time)
    ensures ShownLease(remaining) * MILLISECOND <= remaining + MILLISECOND <==> remaining >= 0
    ensures ShownLease(remaining) >= 1
    ensures remaining >= MILLISECOND ==> ShownLease(remaining) * MILLISECOND <= remaining
  {
  }

  /** That is what a preview shows: never more than was reviewed, and more than remains only in
      the last millisecond, unless the clock passes the end of the lease between its two readings. */
  lemma PreviewShows(s: State, op: Op)
    requires op.Preview? && op.started <= op.shown && PreviewDone(s, op).answer.Shown?
    ensures (var done := PreviewDone(s, op);
             var ref, shown := done.answer.ref, done.answer.milliseconds;
             && ref in done.state.owners && 1 <= shown <= LONGEST_LEASE
             && done.state.owners[ref].expires <= op.started + LONGEST_LEASE * MILLISECOND
             && (shown * MILLISECOND <= done.state.owners[ref].expires - op.shown + MILLISECOND
                 <==> op.shown <= done.state.owners[ref].expires))
  {
    hide SweptLeases, Dispatch, ShownLease, Settled;
    var reply := Dispatch(s.epoch, op.wire).outcome.reply;
    var remaining := op.started + reply.lease * MILLISECOND - op.shown;
    ShownLeaseExactly(remaining);
    ShownWithin(remaining, reply.lease);
  }

  lemma ShownWithin(remaining: Time, lease: int)
    requires 0 < lease && remaining <= lease * MILLISECOND
    ensures ShownLease(remaining) <= lease
  {
  }
}
