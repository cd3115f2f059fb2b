/** Reading the broker's log of blocked accesses into the telemetry store, with live counters. */
module EventIngestion {
  import opened Telemetry

  const BATCH := 100
  const RESOURCES := 256
  const MOST := 1_000_000
  const KEPT: Time := 300_000_000_000

  datatype Item = Item(sequence: nat, id: Id, resource: Resource)

  /** A decoded reply whose fields have the right shape. */
  datatype Reply = Reply(available: bool, cursor: nat, truncated: bool, items: seq<Item>)

  /** What the bus call brings; `Unusable` stands for a bus error and for a reply of another shape. */
  datatype Answer = Answered(reply: Reply) | Changed | Unusable

  datatype Source = Unknown | Available | Unavailable

  datatype Block = Block(resource: Resource, count: nat, expires: Time)

  /** What happened, oldest first. `isNew` says that the identifier had never been committed. */
  datatype Event =
    | Offered(id: Id, resource: Resource, outcome: Outcome, isNew: bool)
    | Cleaned(kept: set<Resource>)

  /** `blocks` is in the order in which its entries were made; `store` holds every identifier the
      telemetry store has committed. */
  datatype State = State(cursor: nat, source: Source, blocks: seq<Block>, store: set<Id>, history: seq<Event>)

  const INITIAL := State(0, Unknown, [], {}, [])

  // ---------------------------------------------------------------- a reply

  /** A broker that starts over numbers its events anew. */
  function Base(cursor: nat, reply: Reply): nat {
    if reply.cursor < cursor && reply.truncated then 0 else cursor
  }

  /** The last number of the first `count` items. */
  function Top(base: nat, items: seq<Item>, count: nat): nat
    requires count <= |items|
  {
    if count == 0 then base else items[count - 1].sequence
  }

  predicate Rising(base: nat, items: seq<Item>) {
    forall i | 0 <= i < |items| :: items[i].sequence > Top(base, items, i)
  }

  predicate Acceptable(cursor: nat, reply: Reply) {
    && |reply.items| <= BATCH
    && (reply.available || reply.items == [])
    && Rising(Base(cursor, reply), reply.items)
    && (reply.items != [] ==> reply.items[|reply.items| - 1].sequence == reply.cursor)
  }

  // ---------------------------------------------------------------- one event

  function Bumped(blocks: seq<Block>, resource: Resource, expires: Time): seq<Block> {
    if blocks == [] then [Block(resource, 1, expires)]
    else if blocks[0].resource == resource
    then [Block(resource, if blocks[0].count + 1 < MOST then blocks[0].count + 1 else MOST, expires)] + blocks[1..]
    else [blocks[0]] + Bumped(blocks[1..], resource, expires)
  }

  /** One event offered to the store at that time; raising is the caller's business. */
  function Fed(s: State, item: Item, outcome: Outcome, now: Time): State {
    var noted := s.history + [Offered(item.id, item.resource, outcome, item.id !in s.store)];
    match outcome
    case Kept =>
      s.(store := s.store + {item.id}, blocks := Bumped(s.blocks, item.resource, now + KEPT), history := noted)
    case Unconfirmed => s.(store := s.store + {item.id}, history := noted)
    case Dropped => s.(history := noted)
    case Raised => s.(history := noted)
  }

  /** The environment of a reconciliation: one outcome and one reading of the clock per event,
      and one reading per entry swept afterwards. */
  datatype Env = Env(outcomes: seq<Outcome>, times: seq<Time>, readings: seq<Time>)

  function OutcomeOf(env: Env, i: nat): Outcome {
    if i < |env.outcomes| then env.outcomes[i] else Dropped
  }

  function TimeOf(times: seq<Time>, i: nat): Time {
    if i < |times| then times[i] else 0
  }

  function FedTo(s: State, items: seq<Item>, env: Env, count: nat): State
    requires count <= |items|
  {
    if count == 0 then s
    else Fed(FedTo(s, items, env, count - 1), items[count - 1], OutcomeOf(env, count - 1), TimeOf(env.times, count - 1))
  }

  /** How many events are offered: all of them, or those up to the first that raises. */
  function Offers(env: Env, total: nat, from: nat): (n: nat)
    requires from <= total
    ensures from <= n <= total
    ensures forall i | from <= i < n - 1 :: !OutcomeOf(env, i).Raised?
    ensures n < total ==> n > from && OutcomeOf(env, n - 1).Raised?
    decreases total - from
  {
    if from == total then total
    else if OutcomeOf(env, from).Raised? then from + 1 else Offers(env, total, from + 1)
  }

  predicate Whole(env: Env, total: nat) {
    forall i | 0 <= i < total :: !OutcomeOf(env, i).Raised?
  }

  // ---------------------------------------------------------------- sweeping

  function Alive(blocks: seq<Block>, readings: seq<Time>, count: nat): seq<Block>
    requires count <= |blocks|
  {
    if count == 0 then []
    else
      var before, b := Alive(blocks, readings, count - 1), blocks[count - 1];
      if b.expires > TimeOf(readings, count - 1) then before + [b] else before
  }

  function Newest(blocks: seq<Block>): seq<Block> {
    if |blocks| > RESOURCES then blocks[|blocks| - RESOURCES..] else blocks
  }

  function Names(blocks: seq<Block>): set<Resource> {
    set i | 0 <= i < |blocks| :: blocks[i].resource
  }

  function Swept(s: State, readings: seq<Time>): State {
    var blocks := Newest(Alive(s.blocks, readings, |s.blocks|));
    s.(blocks := blocks, history := s.history + [Cleaned(Names(blocks))])
  }

  // ---------------------------------------------------------------- a reconciliation

  function Ingested(s: State, answer: Answer, env: Env): State {
    match answer
    case Changed => State(0, Unavailable, [], s.store, s.history + [Cleaned({})])
    case Unusable => s.(source := Unavailable)
    case Answered(reply) =>
      if !Acceptable(s.cursor, reply) then s.(source := Unavailable)
      else
        var fed := FedTo(s, reply.items, env, Offers(env, |reply.items|, 0));
        if Whole(env, |reply.items|)
        then fed.(cursor := reply.cursor, source := if reply.available then Available else Unavailable)
        else fed.(source := Unavailable)
  }

  function Reconciled(s: State, answer: Answer, env: Env): State {
    Swept(Ingested(s, answer, env), env.readings)
  }

  datatype Round = Round(answer: Answer, env: Env)

  function After(rounds: seq<Round>): State {
    if rounds == [] then INITIAL
    else Reconciled(After(rounds[..|rounds| - 1]), rounds[|rounds| - 1].answer, rounds[|rounds| - 1].env)
  }

  // ---------------------------------------------------------------- the cursor

  lemma {:induction false} FedCursor(s: State, items: seq<Item>, env: Env, count: nat)
    requires count <= |items|
    ensures FedTo(s, items, env, count).cursor == s.cursor
  {
    if count > 0 {
      FedCursor(s, items, env, count - 1);
    }
  }

  /** The cursor moves only when an acceptable batch was offered to the store to its end, and then
      to the number the reply names, the last one of the batch unless that is empty; or back to 0
      when the broker has changed. */
  lemma CursorMovesExactly(s: State, answer: Answer, env: Env)
    ensures Reconciled(s, answer, env).cursor ==
      if answer.Changed? then 0
      else if answer.Answered? && Acceptable(s.cursor, answer.reply) && Whole(env, |answer.reply.items|)
      then answer.reply.cursor else s.cursor
  {
    if answer.Answered? {
      FedCursor(s, answer.reply.items, env, Offers(env, |answer.reply.items|, 0));
    }
    hide FedTo, Acceptable, Whole;
  }

  // ---------------------------------------------------------------- what is in the store

  ghost predicate StoredBy(s: State, items: seq<Item>, env: Env, count: nat, id: Id)
    requires count <= |items|
  {
    id in s.store
    || exists i | 0 <= i < count :: items[i].id == id && (OutcomeOf(env, i).Kept? || OutcomeOf(env, i).Unconfirmed?)
  }

  lemma {:induction false} FedStore(s: State, items: seq<Item>, env: Env, count: nat, id: Id)
    requires count <= |items|
    ensures id in FedTo(s, items, env, count).store <==> StoredBy(s, items, env, count, id)
  {
    if count > 0 {
      hide Bumped;
      FedStore(s, items, env, count - 1, id);
    }
  }

  /** Once the cursor has moved over a batch, all its events are in the store exactly when the
      store swallowed the failure of none that it did not hold, or keep, otherwise. */
  lemma MovedOverStored(s: State, reply: Reply, env: Env)
    requires Acceptable(s.cursor, reply) && Whole(env, |reply.items|)
    ensures (forall item <- reply.items :: item.id in Reconciled(s, Answered(reply), env).store)
      <==> (forall i | 0 <= i < |reply.items| ::
              OutcomeOf(env, i).Dropped? ==> StoredBy(s, reply.items, env, |reply.items|, reply.items[i].id))
  {
    var items := reply.items;
    var n := Offers(env, |items|, 0);
    assert n == |items|;
    hide FedTo, Acceptable, StoredBy;
    forall id ensures id in Reconciled(s, Answered(reply), env).store <==> StoredBy(s, items, env, n, id) {
      FedStore(s, items, env, n, id);
    }
    forall i | 0 <= i < |items| && !OutcomeOf(env, i).Dropped? ensures StoredBy(s, items, env, n, items[i].id) {
      KeptIsStored(s, items, env, i);
    }
  }

  lemma KeptIsStored(s: State, items: seq<Item>, env: Env, i: nat)
    requires i < |items| && (OutcomeOf(env, i).Kept? || OutcomeOf(env, i).Unconfirmed?)
    ensures StoredBy(s, items, env, |items|, items[i].id)
  {
  }

  /** So the promise fails for every event of every batch that a store drops and does not hold or
      keep otherwise: the cursor passes it, it is not in the store, and no later reply of the same
      numbering may contain it. */
  lemma DroppedIsLost(s: State, reply: Reply, env: Env, i: nat, later: Reply)
    requires Acceptable(s.cursor, reply) && Whole(env, |reply.items|)
    requires i < |reply.items| && !StoredBy(s, reply.items, env, |reply.items|, reply.items[i].id)
    requires Acceptable(reply.cursor, later) && Base(reply.cursor, later) == reply.cursor
    ensures (var t := Reconciled(s, Answered(reply), env);
             t.cursor == reply.cursor >= reply.items[i].sequence && reply.items[i].id !in t.store)
    ensures forall next <- later.items :: next.sequence > reply.items[i].sequence
  {
    hide *;
    var items := reply.items;
    CursorMovesExactly(s, Answered(reply), env);
    FedWhole(s, reply, env);
    FedStore(s, items, env, |items|, items[i].id);
    AcceptableRises(s.cursor, reply);
    RisingBelow(Base(s.cursor, reply), items, i, |items| - 1);
    AcceptableRises(reply.cursor, later);
    forall next | next in later.items ensures next.sequence > reply.cursor {
      var k :| 0 <= k < |later.items| && later.items[k] == next;
      RisingAt(reply.cursor, later.items, k);
    }
  }

  lemma AcceptableRises(cursor: nat, reply: Reply)
    requires Acceptable(cursor, reply)
    ensures Rising(Base(cursor, reply), reply.items) && |reply.items| <= BATCH
    ensures reply.items != [] ==> reply.items[|reply.items| - 1].sequence == reply.cursor
  {
  }

  lemma FedWhole(s: State, reply: Reply, env: Env)
    requires Acceptable(s.cursor, reply) && Whole(env, |reply.items|)
    ensures Reconciled(s, Answered(reply), env).store == FedTo(s, reply.items, env, |reply.items|).store
  {
    WholeOffers(env, |reply.items|, 0);
    hide FedTo, Acceptable;
  }

  lemma {:induction false} RisingBelow(base: nat, items: seq<Item>, i: nat, k: nat)
    requires Rising(base, items) && i <= k < |items|
    ensures items[i].sequence <= items[k].sequence
  {
    hide *;
    if i < k {
      RisingAbove(base, items, k);
      TopIs(base, items, k);
      RisingBelow(base, items, i, k - 1);
    }
  }

  lemma RisingAbove(base: nat, items: seq<Item>, i: nat)
    requires Rising(base, items) && i < |items|
    ensures items[i].sequence > Top(base, items, i)
  {
    hide Top;
  }

  lemma TopIs(base: nat, items: seq<Item>, count: nat)
    requires count <= |items|
    ensures count == 0 ==> Top(base, items, count) == base
    ensures count > 0 ==> Top(base, items, count) == items[count - 1].sequence
  {
  }

  lemma {:induction false} RisingAt(base: nat, items: seq<Item>, i: nat)
    requires Rising(base, items) && i < |items|
    ensures items[i].sequence > base
  {
    RisingAbove(base, items, i);
    hide Rising;
    TopIs(base, items, i);
    if i > 0 {
      RisingAt(base, items, i - 1);
    }
  }

  // ---------------------------------------------------------------- the counters

  /** Records reported for a resource since its counter was made. */
  function Live(history: seq<Event>, resource: Resource): nat {
    if history == [] then 0
    else
      var before, last := Live(history[..|history| - 1], resource), history[|history| - 1];
      match last
      case Offered(_, r, outcome, _) => if r == resource && outcome.Kept? then before + 1 else before
      case Cleaned(kept) => if resource in kept then before else 0
  }

  /** First-time records for a resource since its counter was made. */
  function FirstTimes(history: seq<Event>, resource: Resource): nat {
    if history == [] then 0
    else
      var before, last := FirstTimes(history[..|history| - 1], resource), history[|history| - 1];
      match last
      case Offered(_, r, outcome, isNew) =>
        if r == resource && isNew && (outcome.Kept? || outcome.Unconfirmed?) then before + 1 else before
      case Cleaned(kept) => if resource in kept then before else 0
  }

  function Count(blocks: seq<Block>, resource: Resource): nat {
    if blocks == [] then 0
    else if blocks[0].resource == resource then blocks[0].count else Count(blocks[1..], resource)
  }

  function Capped(n: nat): nat {
    if n < MOST then n else MOST
  }

  ghost predicate DistinctBlocks(blocks: seq<Block>) {
    blocks == [] || (blocks[0].resource !in Names(blocks[1..]) && DistinctBlocks(blocks[1..]))
  }

  ghost predicate Positive(blocks: seq<Block>) {
    forall i | 0 <= i < |blocks| :: 1 <= blocks[i].count <= MOST
  }

  /** Every counter is the number of records reported since it was made, up to a million. */
  ghost predicate Counting(s: State) {
    && DistinctBlocks(s.blocks) && Positive(s.blocks)
    && forall r :: Count(s.blocks, r) == Capped(Live(s.history, r))
  }

  lemma LiveLonger(history: seq<Event>, e: Event, r: Resource)
    ensures e.Offered? ==> Live(history + [e], r) == Live(history, r) + (if e.resource == r && e.outcome.Kept? then 1 else 0)
    ensures e.Cleaned? ==> Live(history + [e], r) == if r in e.kept then Live(history, r) else 0
  {
    assert (history + [e])[..|history|] == history;
  }

  lemma NamesFront(blocks: seq<Block>)
    requires blocks != []
    ensures Names(blocks) == {blocks[0].resource} + Names(blocks[1..])
  {
    forall r ensures r in Names(blocks) <==> r == blocks[0].resource || r in Names(blocks[1..]) {
      if r in Names(blocks) && r != blocks[0].resource {
        var i :| 0 <= i < |blocks| && blocks[i].resource == r;
        assert blocks[1..][i - 1].resource == r;
      }
      if r in Names(blocks[1..]) {
        var i :| 0 <= i < |blocks| - 1 && blocks[1..][i].resource == r;
        assert blocks[i + 1].resource == r;
      }
    }
  }

  lemma {:induction false} BumpedCounts(blocks: seq<Block>, resource: Resource, expires: Time, r: Resource)
    requires DistinctBlocks(blocks) && Positive(blocks)
    ensures DistinctBlocks(Bumped(blocks, resource, expires)) && Positive(Bumped(blocks, resource, expires))
    ensures Names(Bumped(blocks, resource, expires)) == Names(blocks) + {resource}
    ensures Count(Bumped(blocks, resource, expires), r)
      == if r == resource then Capped(Count(blocks, r) + 1) else Count(blocks, r)
  {
    var bumped := Bumped(blocks, resource, expires);
    NamesFront(bumped);
    if blocks == [] {
      assert bumped[1..] == [];
    } else {
      NamesFront(blocks);
      assert Positive(blocks[1..]) by {
        assert forall i | 0 <= i < |blocks| - 1 :: blocks[1..][i] == blocks[i + 1];
      }
      if blocks[0].resource == resource {
        assert bumped[1..] == blocks[1..];
      } else {
        BumpedCounts(blocks[1..], resource, expires, r);
        assert bumped[1..] == Bumped(blocks[1..], resource, expires);
      }
    }
  }

  lemma FedCounts(s: State, item: Item, outcome: Outcome, now: Time)
    requires Counting(s)
    ensures Counting(Fed(s, item, outcome, now))
  {
    hide DistinctBlocks, Positive, Bumped, Live, Count;
    var t := Fed(s, item, outcome, now);
    var e := Offered(item.id, item.resource, outcome, item.id !in s.store);
    BumpedCounts(s.blocks, item.resource, now + KEPT, item.resource);
    forall r ensures Count(t.blocks, r) == Capped(Live(t.history, r)) {
      LiveLonger(s.history, e, r);
      BumpedCounts(s.blocks, item.resource, now + KEPT, r);
    }
  }

  lemma {:induction false} FedToCounts(s: State, items: seq<Item>, env: Env, count: nat)
    requires count <= |items| && Counting(s)
    ensures Counting(FedTo(s, items, env, count))
  {
    if count > 0 {
      FedToCounts(s, items, env, count - 1);
      hide Counting, Fed;
      FedCounts(FedTo(s, items, env, count - 1), items[count - 1], OutcomeOf(env, count - 1), TimeOf(env.times, count - 1));
    }
  }

  // ---------------------------------------------------------------- sweeping keeps the counters

  ghost predicate Pairwise(blocks: seq<Block>) {
    forall i, j | 0 <= i < j < |blocks| :: blocks[i].resource != blocks[j].resource
  }

  lemma {:induction false} DistinctIsPairwise(blocks: seq<Block>)
    ensures DistinctBlocks(blocks) <==> Pairwise(blocks)
  {
    if blocks != [] {
      var rest := blocks[1..];
      DistinctIsPairwise(rest);
      if Pairwise(blocks) {
        assert Pairwise(rest) by {
          assert forall i | 0 <= i < |rest| :: rest[i] == blocks[i + 1];
        }
        forall i | 0 <= i < |rest| ensures rest[i].resource != blocks[0].resource {
          assert rest[i] == blocks[i + 1];
        }
      }
      if DistinctBlocks(blocks) {
        forall i, j | 0 <= i < j < |blocks| ensures blocks[i].resource != blocks[j].resource {
          assert blocks[j] == rest[j - 1];
          if i == 0 {
            assert rest[j - 1].resource in Names(rest);
          } else {
            assert blocks[i] == rest[i - 1];
          }
        }
      }
    }
  }

  lemma {:induction false} CountAt(blocks: seq<Block>, i: nat)
    requires Pairwise(blocks) && i < |blocks|
    ensures Count(blocks, blocks[i].resource) == blocks[i].count
  {
    if i > 0 {
      var rest := blocks[1..];
      assert forall k | 0 <= k < |rest| :: rest[k] == blocks[k + 1];
      CountAt(rest, i - 1);
    }
  }

  lemma {:induction false} CountNone(blocks: seq<Block>, r: Resource)
    requires r !in Names(blocks)
    ensures Count(blocks, r) == 0
  {
    if blocks != [] {
      NamesFront(blocks);
      CountNone(blocks[1..], r);
    }
  }

  /** Entries of one list, none twice. */
  ghost predicate Among(some: seq<Block>, blocks: seq<Block>) {
    Pairwise(some) && forall b <- some :: b in blocks
  }

  lemma {:induction false} AliveAmong(blocks: seq<Block>, readings: seq<Time>, count: nat)
    requires count <= |blocks| && Pairwise(blocks)
    ensures Among(Alive(blocks, readings, count), blocks[..count])
  {
    if count > 0 {
      AliveAmong(blocks, readings, count - 1);
      var before, b := Alive(blocks, readings, count - 1), blocks[count - 1];
      forall x | x in before ensures x in blocks[..count] && x.resource != b.resource {
        var i :| 0 <= i < count - 1 && blocks[i] == x;
        assert blocks[..count][i] == x;
      }
      assert b in blocks[..count] by {
        assert blocks[..count][count - 1] == b;
      }
    }
  }

  lemma SweptAmong(blocks: seq<Block>, readings: seq<Time>)
    requires Pairwise(blocks)
    ensures Among(Newest(Alive(blocks, readings, |blocks|)), blocks)
    ensures |Newest(Alive(blocks, readings, |blocks|))| <= RESOURCES
  {
    AliveAmong(blocks, readings, |blocks|);
    var alive := Alive(blocks, readings, |blocks|);
    assert blocks[..|blocks|] == blocks;
    hide Alive;
    var newest := Newest(alive);
    if |alive| > RESOURCES {
      var d := |alive| - RESOURCES;
      assert forall i | 0 <= i < |newest| :: newest[i] == alive[d + i];
    }
    assert forall b <- newest :: b in alive;
  }

  lemma AmongCounts(some: seq<Block>, blocks: seq<Block>, r: Resource)
    requires Among(some, blocks) && Pairwise(blocks)
    ensures Count(some, r) == if r in Names(some) then Count(blocks, r) else 0
  {
    if r in Names(some) {
      var i :| 0 <= i < |some| && some[i].resource == r;
      CountAt(some, i);
      assert some[i] in blocks;
      var j :| 0 <= j < |blocks| && blocks[j] == some[i];
      CountAt(blocks, j);
    } else {
      CountNone(some, r);
    }
  }

  lemma SweptCounts(s: State, readings: seq<Time>)
    requires Counting(s)
    ensures Counting(Swept(s, readings)) && |Swept(s, readings).blocks| <= RESOURCES
  {
    hide Count, Live, Names, DistinctBlocks, Alive, Newest, Pairwise;
    var t := Swept(s, readings);
    DistinctIsPairwise(s.blocks);
    DistinctIsPairwise(t.blocks);
    SweptAmong(s.blocks, readings);
    forall r ensures Count(t.blocks, r) == Capped(Live(t.history, r)) {
      AmongCounts(t.blocks, s.blocks, r);
      LiveLonger(s.history, Cleaned(Names(t.blocks)), r);
    }
    forall i | 0 <= i < |t.blocks| ensures 1 <= t.blocks[i].count <= MOST {
      assert t.blocks[i] in s.blocks;
    }
  }

  lemma ReconciledCounts(s: State, answer: Answer, env: Env)
    requires Counting(s)
    ensures Counting(Reconciled(s, answer, env)) && |Reconciled(s, answer, env).blocks| <= RESOURCES
  {
    hide Acceptable, Whole, FedTo;
    var t := Ingested(s, answer, env);
    match answer
    case Changed =>
      ClearedCounts(s);
      hide Counting, Swept, Ingested;
      SweptCounts(t, env.readings);
    case Unusable =>
      SweptCounts(t, env.readings);
    case Answered(reply) =>
      FedToCounts(s, reply.items, env, Offers(env, |reply.items|, 0));
      SweptCounts(t, env.readings);
  }

  lemma ClearedCounts(s: State)
    ensures Counting(State(0, Unavailable, [], s.store, s.history + [Cleaned({})]))
  {
    forall r ensures Live(s.history + [Cleaned({})], r) == 0 {
      LiveLonger(s.history, Cleaned({}), r);
    }
  }

  /** After any reconciliations, whatever fails in them: every live counter is the number of
      records reported for its resource since it was made, at most a million, a resource without
      a counter has none, and there are at most 256 counters. */
  lemma {:induction false} RunCounts(rounds: seq<Round>)
    ensures Counting(After(rounds)) && |After(rounds).blocks| <= RESOURCES
  {
    if rounds != [] {
      RunCounts(rounds[..|rounds| - 1]);
      hide Counting, Reconciled;
      ReconciledCounts(After(rounds[..|rounds| - 1]), rounds[|rounds| - 1].answer, rounds[|rounds| - 1].env);
    }
  }

  // ---------------------------------------------------------------- first-time records and replays

  /** What is counted is exactly what is recorded for the first time. */
  ghost predicate Honest(history: seq<Event>) {
    forall i | 0 <= i < |history| :: HonestAt(history[i])
  }

  ghost predicate HonestAt(e: Event) {
    e.Offered? ==> (e.outcome.Kept? <==> e.isNew && Written(e.outcome))
  }

  ghost predicate NoReplays(history: seq<Event>) {
    forall i | 0 <= i < |history| :: history[i].Offered? && history[i].outcome.Kept? ==> history[i].isNew
  }

  /** Every counter shows the first-time records since it was made. */
  ghost predicate ShowsFirstTimes(history: seq<Event>) {
    forall r :: Live(history, r) == FirstTimes(history, r)
  }

  lemma ShownAfter(history: seq<Event>, e: Event)
    requires ShowsFirstTimes(history)
    ensures ShowsFirstTimes(history + [e]) <==> HonestAt(e)
  {
    forall r ensures
      Live(history + [e], r) == FirstTimes(history + [e], r) <==> (e.Offered? && e.resource == r ==> HonestAt(e))
    {
      hide Live, FirstTimes;
      LiveLonger(history, e, r);
      FirstTimesLonger(history, e, r);
    }
    hide Live, FirstTimes;
    if ShowsFirstTimes(history + [e]) && e.Offered? {
      assert Live(history + [e], e.resource) == FirstTimes(history + [e], e.resource);
    }
  }

  lemma FirstTimesLonger(history: seq<Event>, e: Event, r: Resource)
    ensures e.Offered? ==>
      FirstTimes(history + [e], r)
        == FirstTimes(history, r) + (if e.resource == r && e.isNew && Written(e.outcome) then 1 else 0)
    ensures e.Cleaned? ==> FirstTimes(history + [e], r) == if r in e.kept then FirstTimes(history, r) else 0
  {
    assert (history + [e])[..|history|] == history;
  }

  /** The counters are right at every moment exactly when what was counted at each step was what
      was recorded for the first time. */
  lemma {:induction false} ShownExactly(history: seq<Event>)
    ensures (forall n | 0 <= n <= |history| :: ShowsFirstTimes(history[..n])) <==> Honest(history)
  {
    assert history[..|history|] == history;
    if history != [] {
      var front, last := history[..|history| - 1], history[|history| - 1];
      assert forall n | 0 <= n <= |front| :: history[..n] == front[..n];
      assert front + [last] == history;
      ShownExactly(front);
      if ShowsFirstTimes(front) {
        ShownAfter(front, last);
      }
      hide ShowsFirstTimes, HonestAt;
      assert Honest(history) <==> Honest(front) && HonestAt(last);
      assert history[..|front|] == front;
      assert front[..|front|] == front;
    }
  }

  /** The history a batch adds. */
  lemma {:induction false} FedHistory(s: State, items: seq<Item>, env: Env, count: nat)
    requires count <= |items|
    ensures |FedTo(s, items, env, count).history| == |s.history| + count
    ensures s.history <= FedTo(s, items, env, count).history
    ensures forall i | 0 <= i < count ::
      FedTo(s, items, env, count).history[|s.history| + i] == OfferedAt(s, items, env, i)
  {
    if count > 0 {
      FedHistory(s, items, env, count - 1);
      FedStore(s, items, env, count - 1, items[count - 1].id);
      hide Bumped, StoredBy;
    }
  }

  ghost function OfferedAt(s: State, items: seq<Item>, env: Env, i: nat): Event
    requires i < |items|
  {
    Offered(items[i].id, items[i].resource, OutcomeOf(env, i), !StoredBy(s, items, env, i, items[i].id))
  }

  /** No event of the batch is reported as recorded that was committed before, by an earlier batch
      or earlier in this one. */
  ghost predicate Unseen(s: State, round: Round) {
    round.answer.Answered? && Acceptable(s.cursor, round.answer.reply) ==>
      var items := round.answer.reply.items;
      forall i | 0 <= i < Offers(round.env, |items|, 0) ::
        OutcomeOf(round.env, i).Kept? ==> !StoredBy(s, items, round.env, i, items[i].id)
  }

  /** And every event committed for the first time is reported as recorded. */
  ghost predicate Confirmed(s: State, round: Round) {
    round.answer.Answered? && Acceptable(s.cursor, round.answer.reply) ==>
      var items := round.answer.reply.items;
      forall i | 0 <= i < Offers(round.env, |items|, 0) ::
        OutcomeOf(round.env, i).Unconfirmed? ==> StoredBy(s, items, round.env, i, items[i].id)
  }

  /** What a round adds to the history: what was offered, and then only what was cleaned up. */
  lemma RoundHistory(s: State, round: Round)
    ensures s.history <= Reconciled(s, round.answer, round.env).history
    ensures (var h := Reconciled(s, round.answer, round.env).history;
             forall i | |s.history| <= i < |h| && h[i].Offered? ::
               && round.answer.Answered? && Acceptable(s.cursor, round.answer.reply)
               && i - |s.history| < Offers(round.env, |round.answer.reply.items|, 0)
               && h[i] == OfferedAt(s, round.answer.reply.items, round.env, i - |s.history|))
    ensures round.answer.Answered? && Acceptable(s.cursor, round.answer.reply) ==>
      var h, n := Reconciled(s, round.answer, round.env).history, Offers(round.env, |round.answer.reply.items|, 0);
      |h| == |s.history| + n + 1
      && forall i | 0 <= i < n :: h[|s.history| + i] == OfferedAt(s, round.answer.reply.items, round.env, i)
  {
    hide Acceptable, FedTo, Alive, Newest, Names, OfferedAt, Whole;
    if round.answer.Answered? && Acceptable(s.cursor, round.answer.reply) {
      FedHistory(s, round.answer.reply.items, round.env, Offers(round.env, |round.answer.reply.items|, 0));
    }
  }

  lemma RoundReplays(s: State, round: Round)
    ensures NoReplays(Reconciled(s, round.answer, round.env).history) <==> NoReplays(s.history) && Unseen(s, round)
  {
    RoundHistory(s, round);
    hide Acceptable, Reconciled, StoredBy;
    var t := Reconciled(s, round.answer, round.env);
    if NoReplays(t.history) && round.answer.Answered? && Acceptable(s.cursor, round.answer.reply) {
      var items, n := round.answer.reply.items, Offers(round.env, |round.answer.reply.items|, 0);
      forall i | 0 <= i < n && OutcomeOf(round.env, i).Kept? ensures !StoredBy(s, items, round.env, i, items[i].id) {
        assert t.history[|s.history| + i] == OfferedAt(s, items, round.env, i);
      }
    }
  }

  lemma OfferedHonest(s: State, items: seq<Item>, env: Env, i: nat)
    requires i < |items|
    ensures HonestAt(OfferedAt(s, items, env, i)) <==>
      && (OutcomeOf(env, i).Kept? ==> !StoredBy(s, items, env, i, items[i].id))
      && (OutcomeOf(env, i).Unconfirmed? ==> StoredBy(s, items, env, i, items[i].id))
  {
    hide StoredBy;
  }

  lemma RoundHonest(s: State, round: Round)
    ensures Honest(Reconciled(s, round.answer, round.env).history)
      <==> Honest(s.history) && Unseen(s, round) && Confirmed(s, round)
  {
    RoundHistory(s, round);
    hide Acceptable, Reconciled, StoredBy, OfferedAt, HonestAt;
    var h := Reconciled(s, round.answer, round.env).history;
    if round.answer.Answered? && Acceptable(s.cursor, round.answer.reply) {
      var items, n := round.answer.reply.items, Offers(round.env, |round.answer.reply.items|, 0);
      forall i | 0 <= i < n ensures h[|s.history| + i] == OfferedAt(s, items, round.env, i) {
      }
      forall i | 0 <= i < n
        ensures HonestAt(OfferedAt(s, items, round.env, i)) <==>
          && (OutcomeOf(round.env, i).Kept? ==> !StoredBy(s, items, round.env, i, items[i].id))
          && (OutcomeOf(round.env, i).Unconfirmed? ==> StoredBy(s, items, round.env, i, items[i].id))
      {
        OfferedHonest(s, items, round.env, i);
      }
    }
    forall i | 0 <= i < |h| && !h[i].Offered? ensures HonestAt(h[i]) {
      CleanedHonest(h[i]);
    }
  }

  lemma CleanedHonest(e: Event)
    requires !e.Offered?
    ensures HonestAt(e)
  {
  }

  ghost predicate UnseenIn(rounds: seq<Round>, k: nat)
    requires k < |rounds|
  {
    Unseen(After(rounds[..k]), rounds[k])
  }

  ghost predicate ConfirmedIn(rounds: seq<Round>, k: nat)
    requires k < |rounds|
  {
    Confirmed(After(rounds[..k]), rounds[k])
  }

  ghost predicate AllUnseen(rounds: seq<Round>) {
    forall k | 0 <= k < |rounds| :: UnseenIn(rounds, k)
  }

  ghost predicate AllConfirmed(rounds: seq<Round>) {
    forall k | 0 <= k < |rounds| :: ConfirmedIn(rounds, k)
  }

  lemma InFront(rounds: seq<Round>, k: nat)
    requires k < |rounds| - 1
    ensures UnseenIn(rounds[..|rounds| - 1], k) == UnseenIn(rounds, k)
    ensures ConfirmedIn(rounds[..|rounds| - 1], k) == ConfirmedIn(rounds, k)
  {
    hide Unseen, Confirmed, After;
    assert rounds[..|rounds| - 1][..k] == rounds[..k];
  }

  lemma LastRound(rounds: seq<Round>, n: nat)
    requires |rounds| == n + 1
    ensures UnseenIn(rounds, n) == Unseen(After(rounds[..n]), rounds[n])
    ensures ConfirmedIn(rounds, n) == Confirmed(After(rounds[..n]), rounds[n])
  {
    hide Unseen, Confirmed, After;
  }

  lemma AllRounds(rounds: seq<Round>, front: seq<Round>, last: Round)
    requires rounds == front + [last]
    ensures AllUnseen(rounds) <==> AllUnseen(front) && Unseen(After(front), last)
    ensures AllConfirmed(rounds) <==> AllConfirmed(front) && Confirmed(After(front), last)
  {
    hide Unseen, Confirmed, After, UnseenIn, ConfirmedIn;
    assert rounds[..|front|] == front;
    LastRound(rounds, |front|);
    forall k: nat | k < |front|
      ensures UnseenIn(front, k) == UnseenIn(rounds, k) && ConfirmedIn(front, k) == ConfirmedIn(rounds, k)
    {
      InFront(rounds, k);
    }
  }

  lemma AfterLast(rounds: seq<Round>)
    requires rounds != []
    ensures After(rounds)
      == Reconciled(After(rounds[..|rounds| - 1]), rounds[|rounds| - 1].answer, rounds[|rounds| - 1].env)
  {
  }

  /** Over any run no event is counted twice exactly when no round reports as recorded an event
      committed before. */
  lemma {:induction false} NoReplaysExactly(rounds: seq<Round>)
    ensures NoReplays(After(rounds).history) <==> AllUnseen(rounds)
    ensures Honest(After(rounds).history) <==> AllUnseen(rounds) && AllConfirmed(rounds)
  {
    if rounds != [] {
      hide *;
      var front, last := rounds[..|rounds| - 1], rounds[|rounds| - 1];
      AfterLast(rounds);
      AllRounds(rounds, front, last);
      NoReplaysExactly(front);
      RoundReplays(After(front), last);
      RoundHonest(After(front), last);
    }
  }

  /** Over any run the counters show the first-time records since they were made, at every moment,
      exactly when no round reports as recorded an event committed before, or as not recorded one
      it has committed for the first time. */
  lemma CountsFirstTimesExactly(rounds: seq<Round>)
    ensures (var h := After(rounds).history; forall n | 0 <= n <= |h| :: ShowsFirstTimes(h[..n]))
      <==> AllUnseen(rounds) && AllConfirmed(rounds)
  {
    hide *;
    NoReplaysExactly(rounds);
    ShownExactly(After(rounds).history);
  }

  /** A batch that breaks off anywhere is counted again: the cursor stays, and of every batch that
      begins with the same events, each event committed before the break and reported as recorded
      now is counted as a replay. */
  lemma BrokenBatchCountsAgain(s: State, reply: Reply, broken: Env, again: Reply, retry: Env, i: nat)
    requires Acceptable(s.cursor, reply) && !Whole(broken, |reply.items|)
    requires Acceptable(s.cursor, again)
    requires i < Offers(broken, |reply.items|, 0) && Written(OutcomeOf(broken, i))
    requires i < Offers(retry, |again.items|, 0) && again.items[i].id == reply.items[i].id
    requires OutcomeOf(retry, i).Kept?
    ensures (var first := Reconciled(s, Answered(reply), broken);
             var h := Reconciled(first, Answered(again), retry).history;
             && first.cursor == s.cursor && !Unseen(first, Round(Answered(again), retry))
             && |first.history| + i < |h|
             && h[|first.history| + i] == Offered(again.items[i].id, again.items[i].resource, Kept, false))
  {
    CursorMovesExactly(s, Answered(reply), broken);
    var first, items := Reconciled(s, Answered(reply), broken), reply.items;
    assert items[i].id in first.store by {
      hide Acceptable, Whole;
      FedStore(s, items, broken, Offers(broken, |items|, 0), items[i].id);
      hide FedTo;
    }
    hide *;
    StoredReplays(first, again, retry, i);
  }

  /** What is in the store is counted as a replay when a round reports it as recorded. */
  lemma StoredReplays(s: State, reply: Reply, env: Env, i: nat)
    requires Acceptable(s.cursor, reply) && i < Offers(env, |reply.items|, 0)
    requires OutcomeOf(env, i).Kept? && reply.items[i].id in s.store
    ensures !Unseen(s, Round(Answered(reply), env))
    ensures (var h := Reconciled(s, Answered(reply), env).history;
             && |s.history| + i < |h|
             && h[|s.history| + i] == Offered(reply.items[i].id, reply.items[i].resource, Kept, false))
  {
    hide Acceptable, Reconciled;
    RoundHistory(s, Round(Answered(reply), env));
    assert StoredBy(s, reply.items, env, i, reply.items[i].id);
    hide StoredBy;
    assert Reconciled(s, Answered(reply), env).history[|s.history| + i] == OfferedAt(s, reply.items, env, i);
  }

  /** So is everything that a changed broker returns although it was committed before: the
      counters start anew, and count it. */
  lemma ChangedBrokerCountsAgain(s: State, env: Env, reply: Reply, retry: Env, i: nat)
    requires Acceptable(0, reply) && i < Offers(retry, |reply.items|, 0)
    requires OutcomeOf(retry, i).Kept? && reply.items[i].id in s.store
    ensures (var changed := Reconciled(s, Changed, env);
             var h := Reconciled(changed, Answered(reply), retry).history;
             && (forall r :: Live(changed.history, r) == 0 && FirstTimes(changed.history, r) == 0)
             && !Unseen(changed, Round(Answered(reply), retry))
             && |changed.history| + i < |h|
             && h[|changed.history| + i] == Offered(reply.items[i].id, reply.items[i].resource, Kept, false))
  {
    hide Acceptable;
    var changed := Reconciled(s, Changed, env);
    ChangedClears(s, env);
    hide *;
    StoredReplays(changed, reply, retry, i);
  }

  lemma ChangedClears(s: State, env: Env)
    ensures (var changed := Reconciled(s, Changed, env);
             && changed.cursor == 0 && changed.store == s.store && changed.blocks == []
             && forall r :: Live(changed.history, r) == 0 && FirstTimes(changed.history, r) == 0)
  {
    var changed := Reconciled(s, Changed, env);
    assert changed.history[..|changed.history| - 1] == s.history + [Cleaned({})];
    assert (s.history + [Cleaned({})])[..|s.history|] == s.history;
  }

  /** One numbering of events that goes on, and batches that are stored to their end. */
  ghost predicate Steady(cursor: nat, answer: Answer, env: Env, ids: nat -> Id) {
    answer.Answered? ==>
      && answer.reply.cursor >= cursor && Whole(env, |answer.reply.items|)
      && forall item <- answer.reply.items :: item.id == ids(item.sequence)
  }

  ghost predicate Injective(ids: nat -> Id) {
    forall k: nat, l: nat :: ids(k) == ids(l) ==> k == l
  }

  /** Everything in the store is numbered at or below the cursor. */
  ghost predicate Numbered(s: State, upTo: nat, ids: nat -> Id) {
    forall id <- s.store :: exists k: nat :: k <= upTo && ids(k) == id
  }

  lemma FedNew(s: State, top: nat, item: Item, outcome: Outcome, now: Time, ids: nat -> Id)
    requires Numbered(s, top, ids) && NoReplays(s.history)
    requires Injective(ids)
    requires item.sequence > top && item.id == ids(item.sequence)
    ensures NoReplays(Fed(s, item, outcome, now).history)
    ensures Numbered(Fed(s, item, outcome, now), item.sequence, ids)
  {
    hide Bumped;
    forall k: nat | k <= top ensures ids(k) != item.id {
    }
    var t := Fed(s, item, outcome, now);
    forall id | id in t.store ensures exists k: nat :: k <= item.sequence && ids(k) == id {
      if id in s.store {
        var k: nat :| k <= top && ids(k) == id;
      }
    }
  }

  lemma FedStep(s: State, items: seq<Item>, env: Env, count: nat)
    requires 0 < count <= |items|
    ensures FedTo(s, items, env, count)
      == Fed(FedTo(s, items, env, count - 1), items[count - 1], OutcomeOf(env, count - 1), TimeOf(env.times, count - 1))
  {
  }

  lemma {:induction false} FedOnce(s: State, base: nat, items: seq<Item>, env: Env, count: nat, ids: nat -> Id)
    requires count <= |items| && Rising(base, items) && Numbered(s, base, ids) && NoReplays(s.history)
    requires Injective(ids)
    requires forall item <- items :: item.id == ids(item.sequence)
    ensures NoReplays(FedTo(s, items, env, count).history)
    ensures Numbered(FedTo(s, items, env, count), Top(base, items, count), ids)
  {
    hide Numbered, NoReplays, Fed, OutcomeOf, TimeOf, Injective, Rising;
    if count > 0 {
      RisingAbove(base, items, count - 1);
      TopIs(base, items, count);
      FedStep(s, items, env, count);
      hide FedTo;
      FedOnce(s, base, items, env, count - 1, ids);
      FedNew(FedTo(s, items, env, count - 1), Top(base, items, count - 1), items[count - 1],
             OutcomeOf(env, count - 1), TimeOf(env.times, count - 1), ids);
    }
  }

  ghost predicate SteadyIn(rounds: seq<Round>, i: nat, ids: nat -> Id)
    requires i < |rounds|
  {
    !rounds[i].answer.Changed? && Steady(After(rounds[..i]).cursor, rounds[i].answer, rounds[i].env, ids)
  }

  lemma SteadyFront(rounds: seq<Round>, i: nat, ids: nat -> Id)
    requires i < |rounds| - 1 && SteadyIn(rounds, i, ids)
    ensures SteadyIn(rounds[..|rounds| - 1], i, ids)
  {
    hide Steady, After;
    assert rounds[..|rounds| - 1][..i] == rounds[..i];
  }

  lemma SteadyLast(rounds: seq<Round>, ids: nat -> Id)
    requires rounds != [] && SteadyIn(rounds, |rounds| - 1, ids)
    ensures (var last := rounds[|rounds| - 1];
             !last.answer.Changed? && Steady(After(rounds[..|rounds| - 1]).cursor, last.answer, last.env, ids))
  {
  }

  /** While one broker goes on and no batch breaks off, no event is counted twice. */
  lemma {:induction false} SteadyCountsOnce(rounds: seq<Round>, ids: nat -> Id)
    requires Injective(ids)
    requires forall i | 0 <= i < |rounds| :: SteadyIn(rounds, i, ids)
    ensures NoReplays(After(rounds).history) && Numbered(After(rounds), After(rounds).cursor, ids)
    ensures forall r :: Live(After(rounds).history, r) <= FirstTimes(After(rounds).history, r)
  {
    if rounds == [] {
      assert After(rounds) == INITIAL;
    } else {
      var front, last := rounds[..|rounds| - 1], rounds[|rounds| - 1];
      hide *;
      forall i | 0 <= i < |front| ensures SteadyIn(front, i, ids) {
        SteadyFront(rounds, i, ids);
      }
      assert SteadyIn(rounds, |front|, ids);
      SteadyLast(rounds, ids);
      AfterLast(rounds);
      SteadyCountsOnce(front, ids);
      SteadyStep(After(front), last, ids);
    }
    hide *;
    forall r ensures Live(After(rounds).history, r) <= FirstTimes(After(rounds).history, r) {
      CountedOnce(After(rounds).history, r);
    }
  }

  lemma SteadyStep(s: State, round: Round, ids: nat -> Id)
    requires Injective(ids)
    requires !round.answer.Changed? && Steady(s.cursor, round.answer, round.env, ids)
    requires NoReplays(s.history) && Numbered(s, s.cursor, ids)
    ensures (var t := Reconciled(s, round.answer, round.env);
             NoReplays(t.history) && Numbered(t, t.cursor, ids))
  {
    hide FedTo, Rising, Whole;
    if round.answer.Answered? && Acceptable(s.cursor, round.answer.reply) {
      var items := round.answer.reply.items;
      var n := Offers(round.env, |items|, 0);
      FedOnce(s, s.cursor, items, round.env, n, ids);
      FedCursor(s, items, round.env, n);
      WholeOffers(round.env, |items|, 0);
    }
  }

  lemma {:induction false} WholeOffers(env: Env, total: nat, from: nat)
    requires from <= total && Whole(env, total)
    ensures Offers(env, total, from) == total
    decreases total - from
  {
    if from < total {
      WholeOffers(env, total, from + 1);
    }
  }

  lemma {:induction false} CountedOnce(history: seq<Event>, r: Resource)
    requires NoReplays(history)
    ensures Live(history, r) <= FirstTimes(history, r)
  {
    if history != [] {
      CountedOnce(history[..|history| - 1], r);
    }
  }
}
