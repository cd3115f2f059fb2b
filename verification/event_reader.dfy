/** The session object's reader of the broker's log: cursor, live counters and telemetry store. */
module EventReader {
  import opened EventIngestion
  import opened ReviewSession
  import opened Telemetry

  function Built(item: Item, c: Course): Value {
    Value(item.id, item.resource, c.proper, c.expires)
  }

  /** What was offered so far depends on no later entry of the environment. */
  lemma {:induction false} FedPrefix(s: State, items: seq<Item>, env: Env, more: Env, count: nat)
    requires count <= |items| && count <= |env.outcomes| && count <= |env.times|
    requires env.outcomes <= more.outcomes && env.times <= more.times
    ensures FedTo(s, items, env, count) == FedTo(s, items, more, count)
  {
    if count > 0 {
      hide Fed;
      FedPrefix(s, items, env, more, count - 1);
    }
  }

  lemma FedNext(s: State, items: seq<Item>, outcomes: seq<Outcome>, times: seq<Time>, i: nat, outcome: Outcome, now: Time)
    requires i < |items| && |outcomes| == |times| == i
    ensures FedTo(s, items, Env(outcomes + [outcome], times + [now], []), i + 1)
      == Fed(FedTo(s, items, Env(outcomes, times, []), i), items[i], outcome, now)
  {
    FedPrefix(s, items, Env(outcomes, times, []), Env(outcomes + [outcome], times + [now], []), i);
    hide Fed;
  }

  lemma {:induction false} OffersTo(env: Env, total: nat, from: nat, stop: nat)
    requires from <= stop < total && OutcomeOf(env, stop).Raised?
    requires forall i | from <= i < stop :: !OutcomeOf(env, i).Raised?
    ensures Offers(env, total, from) == stop + 1
    decreases stop - from
  {
    if from < stop {
      OffersTo(env, total, from + 1, stop);
    }
  }

  lemma {:induction false} AlivePrefix(blocks: seq<Block>, readings: seq<Time>, more: seq<Time>, count: nat)
    requires count <= |blocks| && count <= |readings| && readings <= more
    ensures Alive(blocks, readings, count) == Alive(blocks, more, count)
  {
    if count > 0 {
      AlivePrefix(blocks, readings, more, count - 1);
    }
  }

  lemma {:induction false} FedReadings(s: State, items: seq<Item>, env: Env, other: Env, count: nat)
    requires count <= |items| && env.outcomes == other.outcomes && env.times == other.times
    ensures FedTo(s, items, env, count) == FedTo(s, items, other, count)
  {
    if count > 0 {
      hide Fed;
      FedReadings(s, items, env, other, count - 1);
    }
  }

  lemma RisingIs(base: nat, items: seq<Item>)
    ensures Rising(base, items) <==> forall j | 0 <= j < |items| :: items[j].sequence > Top(base, items, j)
  {
    hide Top;
  }

  /** Only outcomes and times matter before the sweep. */
  lemma IngestedReadings(s: State, answer: Answer, env: Env, readings: seq<Time>)
    ensures Ingested(s, answer, Env(env.outcomes, env.times, readings)) == Ingested(s, answer, env)
  {
    var other := Env(env.outcomes, env.times, readings);
    if answer.Answered? {
      forall i: nat ensures OutcomeOf(env, i) == OutcomeOf(other, i) {
      }
      SameOffers(env, other, |answer.reply.items|, 0);
      FedReadings(s, answer.reply.items, env, other, Offers(env, |answer.reply.items|, 0));
    }
    hide FedTo, Acceptable;
  }

  lemma {:induction false} SameOffers(env: Env, other: Env, total: nat, from: nat)
    requires from <= total && env.outcomes == other.outcomes
    ensures Offers(env, total, from) == Offers(other, total, from)
    decreases total - from
  {
    if from < total {
      SameOffers(env, other, total, from + 1);
    }
  }

  class Reader {
    const clock: Clock
    const store: Store
    var cursor: nat
    var source: Source
    var blocks: seq<Block>
    ghost var history: seq<Event>

    ghost function Now(): State
      reads this, store
    {
      State(cursor, source, blocks, store.ever, history)
    }

    constructor (clock: Clock, store: Store)
      requires store.Valid() && store.ever == {}
      ensures this.clock == clock && this.store == store && store.Valid() && Now() == INITIAL
    {
      this.clock, this.store, cursor, source, blocks, history := clock, store, 0, Unknown, [], [];
    }

    /** The whole batch is checked before any of it is stored. */
    static method Check(cursor: nat, reply: Reply) returns (ok: bool)
      ensures ok <==> Acceptable(cursor, reply)
    {
      hide Top, Rising;
      var items := reply.items;
      ghost var base := Base(cursor, reply);
      RisingIs(base, items);
      TopIs(base, items, 0);
      TopIs(base, items, |items|);
      if |items| > BATCH || (!reply.available && items != []) {
        return false;
      }
      var sequence := cursor;
      if reply.cursor < sequence && reply.truncated {
        sequence := 0;
      }
      for i := 0 to |items|
        invariant sequence == Top(base, items, i)
        invariant forall j | 0 <= j < i :: items[j].sequence > Top(base, items, j)
      {
        TopIs(base, items, i + 1);
        if items[i].sequence <= sequence {
          return false;
        }
        sequence := items[i].sequence;
      }
      return items == [] || sequence == reply.cursor;
    }

    /** Offers the batch to the store, counting what it reports as recorded. */
    method Feed(items: seq<Item>) returns (raised: bool, ghost env: Env)
      requires store.Valid()
      modifies this`blocks, this`history, store, clock
      ensures store.Valid()
      ensures raised <==> !Whole(env, |items|)
      ensures Now() == FedTo(old(Now()), items, env, Offers(env, |items|, 0))
    {
      hide Fed, FedTo;
      ghost var outcomes: seq<Outcome>, times: seq<Time> := [], [];
      FedNone(Now(), items, Env([], [], []));
      for i := 0 to |items|
        invariant store.Valid()
        invariant |outcomes| == |times| == i
        invariant forall j | 0 <= j < i :: !outcomes[j].Raised?
        invariant Now() == FedTo(old(Now()), items, Env(outcomes, times, []), i)
        invariant cursor == old(cursor) && source == old(source)
      {
        ghost var before := Now();
        var c := store.Next();
        ghost var outcome := Outcomes(Built(items[i], c), c);
        var recorded, now := false, 0;
        if c.builds {
          recorded := store.RecordEvent(Built(items[i], c), c);
        }
        history := history + [Offered(items[i].id, items[i].resource, outcome, items[i].id !in before.store)];
        if recorded {
          now := clock.Read();
          blocks := Bumped(blocks, items[i].resource, now + KEPT);
        }
        FedIs(before, items[i], outcome, now);
        FedNext(old(Now()), items, outcomes, times, i, outcome, now);
        outcomes, times := outcomes + [outcome], times + [now];
        if !c.builds {
          env := Env(outcomes, times, []);
          OffersTo(env, |items|, 0, i);
          return true, env;
        }
      }
      env := Env(outcomes, times, []);
      WholeOffers(env, |items|, 0);
      return false, env;
    }

    /** Drops what has expired, reading the clock for each entry, and all but the newest 256. */
    method Sweep() returns (ghost readings: seq<Time>)
      modifies this`blocks, this`history, clock
      ensures Now() == Swept(old(Now()), readings)
    {
      hide Names;
      var kept := [];
      readings := [];
      for i := 0 to |blocks|
        modifies clock
        invariant |readings| == i && kept == Alive(blocks, readings, i)
      {
        var t := clock.Read();
        AlivePrefix(blocks, readings, readings + [t], i);
        readings := readings + [t];
        if blocks[i].expires > t {
          kept := kept + [blocks[i]];
        }
      }
      blocks := if |kept| > RESOURCES then kept[|kept| - RESOURCES..] else kept;
      history := history + [Cleaned(Names(blocks))];
    }

    method ReconcileAccessEvents(answer: Answer) returns (ghost env: Env)
      requires store.Valid()
      modifies this, store, clock
      ensures store.Valid()
      ensures Now() == Reconciled(old(Now()), answer, env)
    {
      hide FedTo, Acceptable, Swept;
      env := Env([], [], []);
      ghost var before := Now();
      match answer {
        case Changed =>
          cursor, blocks, source := 0, [], Unavailable;
          history := history + [Cleaned({})];
        case Unusable =>
          source := Unavailable;
        case Answered(reply) =>
          var ok := Check(cursor, reply);
          if !ok {
            source := Unavailable;
          } else {
            var raised;
            raised, env := Feed(reply.items);
            if raised {
              FedCursor(before, reply.items, env, Offers(env, |reply.items|, 0));
              source := Unavailable;
            } else {
              cursor, source := reply.cursor, if reply.available then Available else Unavailable;
            }
          }
      }
      assert Now() == Ingested(before, answer, env);
      ghost var readings := Sweep();
      IngestedReadings(before, answer, env, readings);
      env := Env(env.outcomes, env.times, readings);
    }

    /** The counters that have not expired when each is looked at. */
    method RecentAccessBlocks() returns (recent: seq<(Resource, nat)>, ghost readings: seq<Time>)
      modifies clock
      ensures |readings| == |blocks| && |recent| == |Alive(blocks, readings, |blocks|)|
      ensures forall i | 0 <= i < |recent| ::
                var b := Alive(blocks, readings, |blocks|)[i]; recent[i] == (b.resource, b.count)
    {
      recent, readings := [], [];
      for i := 0 to |blocks|
        invariant |readings| == i && |recent| == |Alive(blocks, readings, i)|
        invariant forall k | 0 <= k < |recent| ::
                    var b := Alive(blocks, readings, i)[k]; recent[k] == (b.resource, b.count)
      {
        var t := clock.Read();
        AlivePrefix(blocks, readings, readings + [t], i);
        readings := readings + [t];
        if blocks[i].expires > t {
          recent := recent + [(blocks[i].resource, blocks[i].count)];
        }
      }
    }
  }

  lemma FedNone(s: State, items: seq<Item>, env: Env)
    ensures FedTo(s, items, env, 0) == s
  {
  }

  lemma FedIs(s: State, item: Item, outcome: Outcome, now: Time)
    ensures Fed(s, item, outcome, now)
      == State(s.cursor, s.source,
               if outcome.Kept? then Bumped(s.blocks, item.resource, now + KEPT) else s.blocks,
               if outcome.Kept? || outcome.Unconfirmed? then s.store + {item.id} else s.store,
               s.history + [Offered(item.id, item.resource, outcome, item.id !in s.store)])
  {
  }
}
