/** The session object that holds the leases, over a connection to the broker and a clock. */
module ReviewSession {
  import opened ReviewLeases

  /** A clock that moves as the environment's script says, never backwards. */
  class Clock {
    var now: Time
    var script: seq<nat>

    constructor (now: Time, script: seq<nat>)
      ensures this.now == now && this.script == script
    {
      this.now, this.script := now, script;
    }

    method Read() returns (t: Time)
      modifies this
      ensures t == now >= old(now)
    {
      if script != [] {
        now, script := now + script[0], script[1..];
      }
      t := now;
    }
  }

  /** The one connection to the root broker; the script holds what the bus will answer. */
  class Transport {
    var owner: Option<Owner>
    var script: seq<Wire>

    constructor (script: seq<Wire>)
      ensures owner == None && this.script == script
    {
      owner, this.script := None, script;
    }

    method Send() returns (outcome: Outcome, ghost call: Call, ghost wire: Wire)
      modifies this
      ensures call == Dispatch(old(owner), wire) && outcome == call.outcome && owner == call.epoch
    {
      var bus := Wire(None, false, None, None);
      if script != [] {
        bus, script := script[0], script[1..];
      }
      wire, call := bus, Dispatch(owner, bus);
      if bus.before.None? {
        return Unavailable, call, wire;
      }
      if owner.None? {
        if !bus.trusted {
          return Unavailable, call, wire;
        }
        owner := bus.before;
      }
      if bus.before != owner {
        return Changed, call, wire;
      }
      if bus.reply.None? || bus.after.None? {
        return Unavailable, call, wire;
      }
      if bus.after != owner {
        return Changed, call, wire;
      }
      return Replied(bus.reply.value), call, wire;
    }

    method ResetOwner()
      modifies this
      ensures owner == None
    {
      owner := None;
    }
  }

  class Workflows {
    const clock: Clock
    const transport: Transport
    var owners: map<Reference, Lease>
    var launches: map<Reference, Launch>
    var published: set<Reference>
    ghost var history: seq<Event>

    ghost function Now(): State
      reads this, transport
    {
      State(owners, launches, published, transport.owner, history)
    }

    constructor (clock: Clock, transport: Transport)
      requires transport.owner == None
      ensures this.clock == clock && this.transport == transport
      ensures Now() == INITIAL
    {
      this.clock, this.transport := clock, transport;
      owners, launches, published, history := map[], map[], {}, [];
    }

    method Send() returns (outcome: Outcome, ghost call: Call, ghost wire: Wire)
      modifies this`owners, this`launches, this`published, transport
      ensures call == Dispatch(old(transport.owner), wire) && outcome == call.outcome
      ensures Now() == Settled(old(Now()), call)
    {
      outcome, call, wire := transport.Send();
      if outcome.Changed? {
        owners, published, launches := map[], {}, map[];
        transport.ResetOwner();
      }
    }

    /** Drops what has expired, reading the clock for each entry. */
    method SweepOwners() returns (ghost readings: map<Reference, Time>)
      modifies this`owners, clock
      ensures owners == SweptLeases(old(owners), readings) && clock.now >= old(clock.now)
    {
      var rest, kept := owners.Keys, map[];
      readings := map[];
      while rest != {}
        modifies clock
        invariant clock.now >= old(clock.now)
        invariant rest <= owners.Keys && readings.Keys == owners.Keys - rest
        invariant kept == SweptLeases(owners, readings)
        decreases rest
      {
        var r :| r in rest;
        var t := clock.Read();
        readings := readings[r := t];
        if owners[r].kept > t {
          kept := kept[r := owners[r]];
        }
        rest := rest - {r};
      }
      owners := kept;
    }

    method SweepLaunches() returns (ghost readings: map<Reference, Time>)
      modifies this`launches, clock
      ensures launches == SweptLaunches(old(launches), readings) && clock.now >= old(clock.now)
    {
      var rest, kept := launches.Keys, map[];
      readings := map[];
      while rest != {}
        modifies clock
        invariant clock.now >= old(clock.now)
        invariant rest <= launches.Keys && readings.Keys == launches.Keys - rest
        invariant kept == SweptLaunches(launches, readings)
        decreases rest
      {
        var r :| r in rest;
        var t := clock.Read();
        readings := readings[r := t];
        if launches[r].expires > t {
          kept := kept[r := launches[r]];
        }
        rest := rest - {r};
      }
      launches := kept;
    }

    method Preview(actor: Actor) returns (answer: Answer, ghost op: Op)
      modifies this, transport, clock
      ensures op.Preview? && op.actor == actor
      ensures old(clock.now) <= op.started <= op.checked <= op.shown <= clock.now
      ensures Done(Now(), answer) == PreviewDone(old(Now()), op)
    {
      hide SweptLeases, Dispatch, ShownLease, Perform;
      ghost var sweep := SweepOwners();
      published := published * owners.Keys;
      var started := clock.Read();
      op := Op.Preview(actor, sweep, started, Wire(None, false, None, None), started, started);
      if |owners| >= CAPACITY {
        return Raised(WorkflowCapacity), op;
      }
      var outcome;
      ghost var call, wire;
      outcome, call, wire := Send();
      op := Op.Preview(actor, sweep, started, wire, started, started);
      RepliedWasSent(old(transport.owner), wire);
      if !outcome.Replied? {
        return Raised(if outcome.Changed? then BrokerChanged else BrokerUnavailable), op;
      }
      var reply := outcome.reply;
      if !reply.Review? || !(0 < reply.lease <= LONGEST_LEASE) {
        return Raised(InvalidWorkflow), op;
      }
      var expires := started + reply.lease * MILLISECOND;
      var checked := clock.Read();
      if checked >= expires {
        op := Op.Preview(actor, sweep, started, wire, checked, checked);
        return Raised(ReviewExpired), op;
      }
      owners := owners[reply.ref := Lease(actor, expires + KEPT_AFTER, expires)];
      history := history + [Previewed(reply.ref, actor, call.sentTo.value, started, reply.lease)];
      var shown := clock.Read();
      op := Op.Preview(actor, sweep, started, wire, checked, shown);
      return Shown(reply.ref, ShownLease(expires - shown)), op;
    }

    method Operation(actor: Actor, ref: Reference, action: Action) returns (answer: Answer, ghost op: Op)
      modifies this, transport, clock
      ensures op.Operation? && op.actor == actor && op.ref == ref && op.action == action
      ensures old(clock.now) <= op.held <= op.applied <= clock.now
      ensures Done(Now(), answer) == OperationDone(old(Now()), op)
    {
      var held := clock.Read();
      op := Op.Operation(actor, ref, action, held, held, Wire(None, false, None, None), false);
      if ref !in owners || owners[ref].actor != actor || owners[ref].kept <= held {
        return Raised(ReviewOwnerChanged), op;
      }
      var applied := clock.Read();
      op := Op.Operation(actor, ref, action, held, applied, Wire(None, false, None, None), false);
      if action.ApplyPolicyChange? && owners[ref].expires <= applied {
        return Raised(ReviewExpired), op;
      }
      var outcome;
      ghost var call, wire;
      outcome, call, wire := Send();
      op := Op.Operation(actor, ref, action, held, applied, wire, false);
      if call.sentTo.Some? {
        history := history + [Forwarded(ref, action, actor, call.sentTo.value,
                                        if action.ApplyPolicyChange? then applied else held)];
      }
      if !outcome.Replied? {
        return Raised(if outcome.Changed? then BrokerChanged else BrokerUnavailable), op;
      }
      if !outcome.reply.Result? {
        return Raised(InvalidWorkflow), op;
      }
      if outcome.reply.terminal && ref !in published {
        var recorded: bool := *;
        op := Op.Operation(actor, ref, action, held, applied, wire, recorded);
        if recorded {
          published := published + {ref};
          history := history + [Recorded(ref)];
        }
      }
      return Progress(outcome.reply.terminal), op;
    }

    method PrepareLaunch(actor: Actor) returns (answer: Answer, ghost op: Op)
      modifies this, transport, clock
      ensures op.PrepareLaunch? && op.actor == actor && old(clock.now) <= op.stored <= clock.now
      ensures Done(Now(), answer) == PrepareDone(old(Now()), op)
    {
      ghost var sweep := SweepLaunches();
      op := Op.PrepareLaunch(actor, sweep, Wire(None, false, None, None), clock.now);
      if |launches| >= CAPACITY {
        return Raised(WorkflowCapacity), op;
      }
      var outcome;
      ghost var call, wire;
      outcome, call, wire := Send();
      op := Op.PrepareLaunch(actor, sweep, wire, clock.now);
      if !outcome.Replied? {
        return Raised(if outcome.Changed? then BrokerChanged else BrokerUnavailable), op;
      }
      if !outcome.reply.Reserved? {
        return Raised(InvalidWorkflow), op;
      }
      var stored := clock.Read();
      op := Op.PrepareLaunch(actor, sweep, wire, stored);
      launches := launches[outcome.reply.ref := Launch(actor, stored + LAUNCH_LEASE)];
      history := history + [Prepared(outcome.reply.ref, actor, call.sentTo.value, stored)];
      return Launchable(outcome.reply.ref), op;
    }

    method StartLaunch(actor: Actor, ref: Reference) returns (answer: Answer, ghost op: Op)
      modifies this, transport, clock
      ensures op.StartLaunch? && op.actor == actor && op.ref == ref && old(clock.now) <= op.checked <= clock.now
      ensures Done(Now(), answer) == StartDone(old(Now()), op)
    {
      var checked := clock.Read();
      op := Op.StartLaunch(actor, ref, checked, Wire(None, false, None, None));
      if ref !in launches || launches[ref].actor != actor || launches[ref].expires <= checked {
        return Raised(ReviewOwnerChanged), op;
      }
      launches := launches - {ref};
      var outcome;
      ghost var call, wire;
      outcome, call, wire := Send();
      op := Op.StartLaunch(actor, ref, checked, wire);
      if call.sentTo.Some? {
        history := history + [Started(ref, actor, call.sentTo.value, checked)];
      }
      if !outcome.Replied? {
        return Raised(if outcome.Changed? then BrokerChanged else BrokerUnavailable), op;
      }
      if !outcome.reply.Streams? {
        return Raised(InvalidWorkflow), op;
      }
      return Launched, op;
    }

    /** The calls that only read: grants, launch results, administration. */
    method Read() returns (answer: Answer, ghost op: Op)
      modifies this, transport
      ensures op.Read? && Done(Now(), answer) == Perform(old(Now()), op)
    {
      var outcome;
      ghost var call, wire;
      outcome, call, wire := Send();
      op := Op.Read(wire);
      if !outcome.Replied? {
        return Raised(if outcome.Changed? then BrokerChanged else BrokerUnavailable), op;
      }
      return Passed, op;
    }
  }
}
