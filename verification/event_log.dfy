/** The broker's log of blocked accesses together with its reader: appends, rotations and restarts
    on one side, readings that fail, break off or lose events on the other. */
module EventLog {
  import opened EventIngestion
  import opened Telemetry

  const RETAIN := 256

  /** One process of the broker: its place in the sequence of names on the bus, the last number it
      gave, and the events it still holds. `rotated` stays set once its source was cut. */
  datatype Broker = Broker(name: nat, sequence: nat, events: seq<Item>, rotated: bool)

  function Appended(b: Broker, id: Id, resource: Resource): Broker {
    var events := b.events + [Item(b.sequence + 1, id, resource)];
    b.(sequence := b.sequence + 1, events := if |events| > RETAIN then events[1..] else events)
  }

  function Above(events: seq<Item>, cursor: nat): seq<Item> {
    if events == [] then []
    else if events[0].sequence > cursor then [events[0]] + Above(events[1..], cursor)
    else Above(events[1..], cursor)
  }

  function Batch(events: seq<Item>): seq<Item> {
    if |events| > BATCH then events[..BATCH] else events
  }

  /** What the broker answers to a cursor. */
  function Read(b: Broker, cursor: nat, available: bool): Reply {
    var items := if available then Batch(Above(b.events, cursor)) else [];
    var next := if items != [] then items[|items| - 1].sequence
                else if b.sequence < cursor then b.sequence else cursor;
    var cut := b.rotated || cursor > b.sequence || (b.events != [] && cursor + 1 < b.events[0].sequence);
    Reply(available, next, cut, items)
  }

  // ---------------------------------------------------------------- broker and reader together

  datatype Option<T> = None | Some(value: T)

  /** How far one call gets: no owner of the name is found; the owner is known but its reply is
      missing or has another shape; the reply arrives. */
  datatype Contact = Silent | Cut | Reached

  datatype Step =
    | Appends(id: Id, resource: Resource)
    | Rotates
    | Restarts(renamed: bool)
    | Polls(contact: Contact, available: bool, env: Env)
    | Calls(contact: Contact)
    | Reopens

  /** `owner` is the name the session is bound to; `met` says that the broker of the moment has
      answered a reading of the log. */
  datatype World = World(broker: Broker, owner: Option<nat>, reader: State, met: bool)

  const START := World(Broker(0, 0, [], false), None, INITIAL, false)

  /** The session is bound to an earlier process. */
  predicate Estranged(w: World) {
    w.owner.Some? && w.owner.value != w.broker.name
  }

  function Polled(w: World, contact: Contact, available: bool, env: Env): World {
    if contact.Silent? then w.(reader := Reconciled(w.reader, Unusable, env))
    else if Estranged(w) then w.(owner := None, reader := Reconciled(w.reader, Changed, env))
    else if contact.Cut? then
      w.(owner := Some(w.broker.name), reader := Reconciled(w.reader, Unusable, env))
    else
      w.(owner := Some(w.broker.name), met := true,
         reader := Reconciled(w.reader, Answered(Read(w.broker, w.reader.cursor, available)), env))
  }

  /** Any other call of the session can find the broker changed, too. */
  function Called(w: World, contact: Contact): World {
    if contact.Silent? then w
    else if Estranged(w) then w.(owner := None, reader := Ingested(w.reader, Changed, Env([], [], [])))
    else w.(owner := Some(w.broker.name))
  }

  /** The session starts anew; the telemetry store is what it keeps. */
  function Reopened(w: World): World {
    w.(owner := None, met := false,
       reader := State(0, Unknown, [], w.reader.store, w.reader.history + [Cleaned({})]))
  }

  function Next(w: World, step: Step): World {
    match step
    case Appends(id, resource) => w.(broker := Appended(w.broker, id, resource))
    case Rotates => w.(broker := w.broker.(rotated := true))
    case Restarts(renamed) =>
      w.(broker := Broker(if renamed then w.broker.name + 1 else w.broker.name, 0, [], false), met := false)
    case Polls(contact, available, env) => Polled(w, contact, available, env)
    case Calls(contact) => Called(w, contact)
    case Reopens => Reopened(w)
  }

  function Run(w: World, steps: seq<Step>): World
    decreases |steps|
  {
    if steps == [] then w else Run(Next(w, steps[0]), steps[1..])
  }

  // ---------------------------------------------------------------- what the broker answers

  /** The events held are numbered without a gap, up to the last number given. */
  ghost predicate Gapless(events: seq<Item>, base: nat) {
    forall i | 0 <= i < |events| :: events[i].sequence == base + 1 + i
  }

  ghost predicate Orderly(b: Broker) {
    |b.events| <= b.sequence && |b.events| <= RETAIN && (b.sequence > 0 ==> b.events != [])
    && Gapless(b.events, b.sequence - |b.events|)
  }

  lemma AppendedOrderly(b: Broker, id: Id, resource: Resource)
    requires Orderly(b)
    ensures Orderly(Appended(b, id, resource))
    ensures forall e <- Appended(b, id, resource).events :: e in b.events || e.sequence == b.sequence + 1
  {
    var events := b.events + [Item(b.sequence + 1, id, resource)];
    assert forall i | 0 <= i < |events| - 1 :: events[1..][i] == events[i + 1];
  }

  lemma {:induction false} AboveIs(events: seq<Item>, base: nat, cursor: nat)
    requires Gapless(events, base)
    ensures Above(events, cursor) ==
      if cursor <= base then events else if cursor >= base + |events| then [] else events[cursor - base..]
  {
    if events != [] {
      assert Gapless(events[1..], base + 1) by {
        assert forall i | 0 <= i < |events| - 1 :: events[1..][i] == events[i + 1];
      }
      AboveIs(events[1..], base + 1, cursor);
      assert events == [events[0]] + events[1..];
    }
  }

  /** The answer in terms of numbers: the events above the cursor, from the first one held, at most
      a hundred, without a gap; the cursor named is the last of them. */
  lemma ReadIs(b: Broker, cursor: nat, available: bool)
    requires Orderly(b)
    ensures (var reply, base := Read(b, cursor, available), b.sequence - |b.events|;
             var d := if cursor > base then cursor - base else 0;
             && (reply.items != [] ==>
                   && d < |b.events| && available && cursor < b.sequence
                   && |reply.items| == (if |b.events| - d > BATCH then BATCH else |b.events| - d)
                   && reply.items == b.events[d..d + |reply.items|]
                   && reply.cursor == base + d + |reply.items|)
             && (reply.items == [] ==>
                   && (available ==> cursor >= b.sequence)
                   && reply.cursor == if b.sequence < cursor then b.sequence else cursor)
             && (reply.cursor < cursor ==> reply.truncated && cursor > b.sequence))
  {
    var base := b.sequence - |b.events|;
    AboveIs(b.events, base, cursor);
    hide Above;
    var d := if cursor > base then cursor - base else 0;
    var items := Read(b, cursor, available).items;
    assert Read(b, cursor, available).cursor ==
      if items != [] then items[|items| - 1].sequence else if b.sequence < cursor then b.sequence else cursor;
    if items != [] {
      assert items == b.events[d..d + |items|];
      assert items[|items| - 1] == b.events[d + |items| - 1];
    }
    hide Read, Batch;
  }

  lemma ReadAcceptable(b: Broker, cursor: nat, available: bool)
    requires Orderly(b)
    ensures Acceptable(cursor, Read(b, cursor, available))
    ensures forall item <- Read(b, cursor, available).items :: item.sequence > cursor
  {
    ReadIs(b, cursor, available);
    hide Read;
    var reply, base := Read(b, cursor, available), b.sequence - |b.events|;
    var d := if cursor > base then cursor - base else 0;
    if reply.items != [] {
      assert forall i | 0 <= i < |reply.items| :: reply.items[i] == b.events[d + i];
    }
  }

  /** The events held that the answer's cursor passes are those the old one passes and the batch. */
  lemma ReadPasses(b: Broker, cursor: nat, available: bool, e: Item)
    requires Orderly(b) && e in b.events
    ensures e.sequence <= Read(b, cursor, available).cursor <==>
      e.sequence <= cursor || e in Read(b, cursor, available).items
    ensures 1 <= e.sequence <= b.sequence
  {
    ReadIs(b, cursor, available);
    hide Read;
    var reply, base := Read(b, cursor, available), b.sequence - |b.events|;
    var d := if cursor > base then cursor - base else 0;
    var k :| 0 <= k < |b.events| && b.events[k] == e;
    assert e.sequence == base + 1 + k;
    if reply.items != [] {
      if cursor < e.sequence <= reply.cursor {
        assert reply.items[k - d] == e;
      }
      if e in reply.items {
        var i :| 0 <= i < |reply.items| && reply.items[i] == e;
        assert b.events[d + i].sequence == base + 1 + d + i;
      }
    }
    hide Orderly, Gapless;
  }

  lemma ReadHeld(b: Broker, cursor: nat, available: bool)
    requires Orderly(b)
    ensures forall item <- Read(b, cursor, available).items :: item in b.events
  {
    ReadIs(b, cursor, available);
    hide Read;
  }

  // ---------------------------------------------------------------- nothing lost

  /** Broker and session as any run leaves them. */
  ghost predicate Sound(w: World) {
    && Orderly(w.broker)
    && (w.met ==> w.owner == Some(w.broker.name) && w.reader.cursor <= w.broker.sequence)
    && (w.owner == None ==> w.reader.cursor == 0)
  }

  /** Every event that the broker still holds and will not offer again has been stored. */
  ghost predicate Complete(w: World) {
    w.met ==> forall e <- w.broker.events :: e.sequence <= w.reader.cursor ==> e.id in w.reader.store
  }

  /** An event of the batch is dropped by the store, which neither has it nor keeps it otherwise,
      and the batch is stored to its end. */
  ghost predicate DropsMissing(s: State, items: seq<Item>, env: Env) {
    && Whole(env, |items|)
    && exists i | 0 <= i < |items| :: OutcomeOf(env, i).Dropped? && !StoredBy(s, items, env, |items|, items[i].id)
  }

  /** The first answer of a process whose start went unnoticed: the cursor of its predecessor stands
      above an event it holds, which the store neither has nor keeps otherwise. */
  ghost predicate SkipsRestarted(w: World, items: seq<Item>, env: Env) {
    && !w.met
    && exists e <- w.broker.events ::
         && e.sequence <= w.reader.cursor
         && !StoredBy(w.reader, items, env, Offers(env, |items|, 0), e.id)
  }

  ghost predicate Loses(w: World, step: Step) {
    && step.Polls? && step.contact.Reached? && !Estranged(w)
    && var items := Read(w.broker, w.reader.cursor, step.available).items;
       DropsMissing(w.reader, items, step.env) || SkipsRestarted(w, items, step.env)
  }

  // ---------------------------------------------------------------- one reading

  lemma ReadingMoves(w: World, available: bool, env: Env)
    requires Orderly(w.broker)
    ensures (var reply := Read(w.broker, w.reader.cursor, available);
             var t := Reconciled(w.reader, Answered(reply), env);
             && t.cursor == (if Whole(env, |reply.items|) then reply.cursor else w.reader.cursor)
             && forall id :: id in t.store <==> StoredBy(w.reader, reply.items, env, Offers(env, |reply.items|, 0), id))
  {
    var reply := Read(w.broker, w.reader.cursor, available);
    ReadAcceptable(w.broker, w.reader.cursor, available);
    hide *;
    CursorMovesExactly(w.reader, Answered(reply), env);
    forall id
      ensures id in Reconciled(w.reader, Answered(reply), env).store
        <==> StoredBy(w.reader, reply.items, env, Offers(env, |reply.items|, 0), id)
    {
      FedStore(w.reader, reply.items, env, Offers(env, |reply.items|, 0), id);
      ReconciledStore(w.reader, reply, env);
    }
  }

  lemma ReconciledStore(s: State, reply: Reply, env: Env)
    requires Acceptable(s.cursor, reply)
    ensures Reconciled(s, Answered(reply), env).store
      == FedTo(s, reply.items, env, Offers(env, |reply.items|, 0)).store
  {
    hide FedTo, Acceptable, Whole;
  }

  lemma OfferedStored(s: State, items: seq<Item>, env: Env, e: Item)
    requires Whole(env, |items|) && !DropsMissing(s, items, env) && e in items
    ensures StoredBy(s, items, env, |items|, e.id)
  {
    hide StoredBy;
    var i :| 0 <= i < |items| && items[i] == e;
    if !OutcomeOf(env, i).Dropped? {
      KeptIsStored(s, items, env, i);
    }
  }

  /** The event is passed by the reading. */
  ghost predicate Passed(w: World, items: seq<Item>, env: Env, e: Item) {
    e in w.broker.events && (e.sequence <= w.reader.cursor || (Whole(env, |items|) && e in items))
  }

  lemma ReadingLeaves(w: World, available: bool, env: Env)
    requires Sound(w) && !Estranged(w)
    ensures (var items := Read(w.broker, w.reader.cursor, available).items;
             Complete(Next(w, Polls(Reached, available, env))) <==>
               forall e :: Passed(w, items, env, e) ==>
                 StoredBy(w.reader, items, env, Offers(env, |items|, 0), e.id))
  {
    var b, s := w.broker, w.reader;
    var items, t := Read(b, s.cursor, available).items, Reconciled(s, Answered(Read(b, s.cursor, available)), env);
    ReadingMoves(w, available, env);
    hide Read, Reconciled, StoredBy, Orderly, Whole;
    forall e ensures Passed(w, items, env, e) <==> e in b.events && e.sequence <= t.cursor {
      if e in b.events {
        ReadPasses(b, s.cursor, available, e);
      }
    }
    hide Passed;
  }

  /** An answered reading leaves nothing behind exactly when it loses nothing. */
  lemma ReadingComplete(w: World, available: bool, env: Env)
    requires Sound(w) && Complete(w) && !Estranged(w)
    ensures Complete(Next(w, Polls(Reached, available, env))) <==> !Loses(w, Polls(Reached, available, env))
  {
    var b, s := w.broker, w.reader;
    var items := Read(b, s.cursor, available).items;
    var n := Offers(env, |items|, 0);
    ReadingLeaves(w, available, env);
    ReadHeld(b, s.cursor, available);
    hide Read, StoredBy, Sound, Whole, Next;
    if Whole(env, |items|) {
      WholeOffers(env, |items|, 0);
    }
    forall id | id in s.store ensures StoredBy(s, items, env, n, id) {
      StoredStays(s, items, env, n, id);
    }
    if Whole(env, |items|) && !DropsMissing(s, items, env) {
      forall e | e in items ensures StoredBy(s, items, env, n, e.id) {
        OfferedStored(s, items, env, e);
      }
    }
  }

  lemma StoredStays(s: State, items: seq<Item>, env: Env, count: nat, id: Id)
    requires count <= |items| && id in s.store
    ensures StoredBy(s, items, env, count, id)
  {
  }

  // ---------------------------------------------------------------- every step

  lemma QuietReader(s: State, env: Env)
    ensures Reconciled(s, Unusable, env).cursor == s.cursor && Reconciled(s, Unusable, env).store == s.store
    ensures Reconciled(s, Changed, env).cursor == 0 && Reconciled(s, Changed, env).store == s.store
    ensures Ingested(s, Changed, env).cursor == 0 && Ingested(s, Changed, env).store == s.store
  {
  }

  lemma NextSound(w: World, step: Step)
    requires Sound(w)
    ensures Sound(Next(w, step))
  {
    match step
    case Appends(id, resource) =>
      AppendedOrderly(w.broker, id, resource);
    case Rotates =>
    case Restarts(_) =>
    case Polls(contact, available, env) =>
      PollSound(w, contact, available, env);
    case Calls(_) =>
      QuietReader(w.reader, Env([], [], []));
      hide Ingested;
    case Reopens =>
  }

  lemma PollSound(w: World, contact: Contact, available: bool, env: Env)
    requires Sound(w)
    ensures Sound(Polled(w, contact, available, env))
  {
    QuietReader(w.reader, env);
    ReadingMoves(w, available, env);
    ReadBounded(w.broker, w.reader.cursor, available);
    assert Whole(env, 0);
    hide Reconciled, Read, StoredBy, Whole, Orderly;
  }

  lemma ReadBounded(b: Broker, cursor: nat, available: bool)
    requires Orderly(b)
    ensures Read(b, cursor, available).cursor <= b.sequence
    ensures cursor <= b.sequence ==> cursor <= Read(b, cursor, available).cursor
    ensures cursor > b.sequence ==> Read(b, cursor, available).items == []
  {
    ReadIs(b, cursor, available);
    hide Read;
  }

  lemma NextComplete(w: World, step: Step)
    requires Sound(w) && Complete(w)
    ensures Complete(Next(w, step)) <==> !Loses(w, step)
  {
    match step
    case Appends(id, resource) =>
      AppendedOrderly(w.broker, id, resource);
      hide Appended;
    case Rotates =>
    case Restarts(_) =>
    case Polls(contact, available, env) =>
      if contact.Reached? && !Estranged(w) {
        hide *;
        ReadingComplete(w, available, env);
      } else {
        QuietReader(w.reader, env);
        hide Reconciled;
      }
    case Calls(_) =>
      QuietReader(w.reader, Env([], [], []));
      hide Ingested;
    case Reopens =>
  }

  ghost predicate AlwaysComplete(w: World, steps: seq<Step>)
    decreases |steps|
  {
    Complete(w) && (steps != [] ==> AlwaysComplete(Next(w, steps[0]), steps[1..]))
  }

  ghost predicate NeverLoses(w: World, steps: seq<Step>)
    decreases |steps|
  {
    steps != [] ==> !Loses(w, steps[0]) && NeverLoses(Next(w, steps[0]), steps[1..])
  }

  lemma {:induction false} CompleteExactly(w: World, steps: seq<Step>)
    requires Sound(w) && Complete(w)
    ensures AlwaysComplete(w, steps) <==> NeverLoses(w, steps)
    decreases |steps|
  {
    if steps != [] {
      hide Complete, Loses, Next, Sound;
      NextSound(w, steps[0]);
      NextComplete(w, steps[0]);
      if !Loses(w, steps[0]) {
        CompleteExactly(Next(w, steps[0]), steps[1..]);
      }
    }
  }

  /** Over every run of appends, rotations, restarts, failing calls and readings with any store:
      at every moment every event the broker still holds and will not offer again is stored, if and
      only if no reading dropped an event the store was missing, and none was the first answer of a
      process that had restarted unnoticed and held one at or below the cursor. */
  lemma NothingLostExactly(steps: seq<Step>)
    ensures AlwaysComplete(START, steps) <==> NeverLoses(START, steps)
  {
    CompleteExactly(START, steps);
  }

  // ---------------------------------------------------------------- names are not given twice

  predicate Renames(steps: seq<Step>) {
    forall step <- steps :: step.Restarts? ==> step.renamed
  }

  /** A process not bound to yet, or that has not answered, is met with the cursor at 0. */
  ghost predicate Fresh(w: World) {
    && (w.owner.Some? ==> w.owner.value <= w.broker.name)
    && (!w.met && !Estranged(w) ==> w.reader.cursor == 0)
  }

  lemma NextFresh(w: World, step: Step)
    requires Sound(w) && Fresh(w) && (step.Restarts? ==> step.renamed)
    ensures Fresh(Next(w, step))
  {
    if step.Polls? {
      QuietReader(w.reader, step.env);
    }
    QuietReader(w.reader, Env([], [], []));
    hide Ingested, Reconciled, Read;
  }

  /** A reading whose batch loses an event the store was missing. */
  ghost predicate Drops(w: World, step: Step) {
    && step.Polls? && step.contact.Reached? && !Estranged(w)
    && DropsMissing(w.reader, Read(w.broker, w.reader.cursor, step.available).items, step.env)
  }

  ghost predicate NeverDrops(w: World, steps: seq<Step>)
    decreases |steps|
  {
    steps != [] ==> !Drops(w, steps[0]) && NeverDrops(Next(w, steps[0]), steps[1..])
  }

  lemma FreshLoses(w: World, step: Step)
    requires Sound(w) && Fresh(w)
    ensures Loses(w, step) <==> Drops(w, step)
  {
    hide Read, DropsMissing, StoredBy;
  }

  lemma {:induction false} FreshNeverLoses(w: World, steps: seq<Step>)
    requires Sound(w) && Fresh(w) && Renames(steps)
    ensures NeverLoses(w, steps) <==> NeverDrops(w, steps)
    decreases |steps|
  {
    if steps != [] {
      hide Sound, Fresh, Next, Loses, Drops;
      FreshLoses(w, steps[0]);
      NextSound(w, steps[0]);
      NextFresh(w, steps[0]);
      FreshNeverLoses(Next(w, steps[0]), steps[1..]);
    }
  }

  /** With a bus that gives no name twice restarts never lose anything, noticed by a reading or by
      another call: events are lost exactly where the store drops one it is missing. */
  lemma RestartsLoseNothing(steps: seq<Step>)
    requires Renames(steps)
    ensures AlwaysComplete(START, steps) <==> NeverDrops(START, steps)
  {
    NothingLostExactly(steps);
    FreshNeverLoses(START, steps);
  }

  lemma {:induction false} RunKeeps(w: World, steps: seq<Step>)
    requires Sound(w) && Fresh(w) && Renames(steps)
    ensures Sound(Run(w, steps)) && Fresh(Run(w, steps))
    decreases |steps|
  {
    if steps != [] {
      hide Sound, Fresh, Next;
      NextSound(w, steps[0]);
      NextFresh(w, steps[0]);
      RunKeeps(Next(w, steps[0]), steps[1..]);
    }
  }

  /** There the reader's own case for a restarted broker never arises: no answer it is given names
      a number below its cursor. */
  lemma RestartCaseUnused(steps: seq<Step>, available: bool)
    requires Renames(steps)
    ensures (var w := Run(START, steps);
             !Estranged(w) ==> Read(w.broker, w.reader.cursor, available).cursor >= w.reader.cursor)
  {
    RunKeeps(START, steps);
    var w := Run(START, steps);
    hide Run;
    ReadIs(w.broker, w.reader.cursor, available);
    hide Read;
  }

  // ---------------------------------------------------------------- what is passed stays passed

  lemma {:induction false} CursorClimbs(w: World, steps: seq<Step>)
    requires Sound(w) && w.met && forall step <- steps :: !step.Restarts? && !step.Reopens?
    ensures (var u := Run(w, steps);
             Sound(u) && u.met && u.broker.name == w.broker.name && u.reader.cursor >= w.reader.cursor)
    decreases |steps|
  {
    if steps != [] {
      NextSound(w, steps[0]);
      NextClimbs(w, steps[0]);
      hide Sound, Next;
      CursorClimbs(Next(w, steps[0]), steps[1..]);
    }
  }

  lemma NextClimbs(w: World, step: Step)
    requires Sound(w) && w.met && !step.Restarts? && !step.Reopens?
    ensures Next(w, step).met && Next(w, step).broker.name == w.broker.name
    ensures Next(w, step).reader.cursor >= w.reader.cursor
  {
    if step.Polls? {
      QuietReader(w.reader, step.env);
      ReadingMoves(w, step.available, step.env);
      ReadBounded(w.broker, w.reader.cursor, step.available);
    }
    hide Ingested, Reconciled, Read, StoredBy, Whole, Orderly;
  }

  /** An event the cursor has passed is offered by no later answer of the process that gave it to
      this session. */
  lemma PassedStaysPassed(w: World, steps: seq<Step>, available: bool, e: Item)
    requires Sound(w) && w.met && e.sequence <= w.reader.cursor && forall step <- steps :: !step.Restarts? && !step.Reopens?
    ensures (var u := Run(w, steps); e !in Read(u.broker, u.reader.cursor, available).items)
  {
    CursorClimbs(w, steps);
    var u := Run(w, steps);
    hide Run;
    ReadAcceptable(u.broker, u.reader.cursor, available);
    hide Read;
  }

  // ---------------------------------------------------------------- the failing runs

  /** The reader has caught up, an event arrives, and the store drops it: it is lost. */
  lemma DropLosesEvent(w: World, id: Id, resource: Resource, env: Env)
    requires Sound(w) && w.met && w.reader.cursor == w.broker.sequence && id !in w.reader.store
    requires OutcomeOf(env, 0).Dropped?
    ensures (var u := Run(w, [Appends(id, resource), Polls(Reached, true, env)]);
             var e := Item(w.broker.sequence + 1, id, resource);
             e in u.broker.events && e.sequence <= u.reader.cursor && id !in u.reader.store && !Complete(u))
  {
    var e := Item(w.broker.sequence + 1, id, resource);
    var v := w.(broker := Appended(w.broker, id, resource));
    assert Next(w, Appends(id, resource)) == v;
    assert !Estranged(v) && Orderly(w.broker);
    hide *;
    RunTwo(w, Appends(id, resource), Polls(Reached, true, env));
    NextSound(w, Appends(id, resource));
    NewestRead(w.broker, id, resource);
    ReadingDrops(v, e, env);
  }

  lemma ReadingDrops(w: World, e: Item, env: Env)
    requires Sound(w) && !Estranged(w) && e in w.broker.events && e.id !in w.reader.store
    requires Read(w.broker, w.reader.cursor, true).items == [e] && OutcomeOf(env, 0).Dropped?
    requires Read(w.broker, w.reader.cursor, true).cursor == e.sequence
    ensures (var u := Next(w, Polls(Reached, true, env));
             && e in u.broker.events && e.sequence <= u.reader.cursor && e.id !in u.reader.store && !Complete(u))
  {
    ReadingMoves(w, true, env);
    assert Offers(env, 1, 0) == 1 && Whole(env, 1);
    hide Read, Reconciled, Orderly, Whole, Offers;
  }

  /** What a reader that has caught up is answered after one more event. */
  lemma NewestRead(b: Broker, id: Id, resource: Resource)
    requires Orderly(b)
    ensures (var v, e := Appended(b, id, resource), Item(b.sequence + 1, id, resource);
             && e in v.events && Read(v, b.sequence, true).items == [e]
             && Read(v, b.sequence, true).cursor == b.sequence + 1)
  {
    var v, e := Appended(b, id, resource), Item(b.sequence + 1, id, resource);
    AppendedOrderly(b, id, resource);
    assert v.events[|v.events| - 1] == e;
    hide Appended;
    ReadIs(v, b.sequence, true);
    hide Read;
  }

  lemma RunTwo(w: World, first: Step, second: Step)
    ensures Run(w, [first, second]) == Next(Next(w, first), second)
  {
    hide Next;
    assert [first, second][1..] == [second];
    RunOne(Next(w, first), second);
  }

  lemma RunOne(w: World, step: Step)
    ensures Run(w, [step]) == Next(w, step)
  {
    hide Next;
    assert [step][1..] == [];
    assert Run(Next(w, step), []) == Next(w, step);
  }

  /** A process that took over its predecessor's name: its first event is below the cursor, and the
      answer that follows passes it, whatever the store does. */
  lemma RestartLosesEvent(w: World, id: Id, resource: Resource, env: Env)
    requires Sound(w) && w.met && w.reader.cursor > 0 && id !in w.reader.store
    ensures (var u := Run(w, [Restarts(false), Appends(id, resource), Polls(Reached, true, env)]);
             var e := Item(1, id, resource);
             e in u.broker.events && u.reader.cursor == 1 && id !in u.reader.store && !Complete(u))
  {
    var v := Next(w, Restarts(false));
    var x := Next(v, Appends(id, resource));
    var steps := [Restarts(false), Appends(id, resource), Polls(Reached, true, env)];
    assert Run(w, steps) == Next(x, Polls(Reached, true, env)) by {
      hide Next;
      assert steps[1..][1..] == [Polls(Reached, true, env)];
      RunOne(x, Polls(Reached, true, env));
    }
    NextSound(w, Restarts(false));
    NextSound(v, Appends(id, resource));
    ReadIs(x.broker, x.reader.cursor, true);
    hide Read;
    assert x.broker.events == [Item(1, id, resource)];
    ReadingMoves(x, true, env);
    hide Reconciled;
    assert Read(x.broker, x.reader.cursor, true).items == [];
    assert Offers(env, 0, 0) == 0 && Whole(env, 0);
  }

  // ---------------------------------------------------------------- catching up

  /** How many events the broker holds above the cursor. */
  function Unread(w: World): nat
    requires |w.broker.events| <= w.broker.sequence
  {
    var base := w.broker.sequence - |w.broker.events|;
    if w.reader.cursor >= w.broker.sequence then 0
    else if w.reader.cursor <= base then |w.broker.events| else w.broker.sequence - w.reader.cursor
  }

  /** Each answered reading with a store that raises nothing takes up to a hundred of them. */
  lemma ReadingTakes(w: World, env: Env)
    requires Sound(w) && !Estranged(w) && forall i: nat :: !OutcomeOf(env, i).Raised?
    ensures (var u := Next(w, Polls(Reached, true, env));
             && Sound(u) && u.met && !Estranged(u) && u.broker == w.broker
             && Unread(u) == if Unread(w) > BATCH then Unread(w) - BATCH else 0)
  {
    NextSound(w, Polls(Reached, true, env));
    ReadingMoves(w, true, env);
    ReadIs(w.broker, w.reader.cursor, true);
    hide Read, Reconciled, StoredBy;
  }

  ghost predicate Willing(env: Env) {
    forall i: nat :: !OutcomeOf(env, i).Raised? && !OutcomeOf(env, i).Dropped?
  }

  lemma WillingKeeps(w: World, env: Env)
    requires Willing(env)
    ensures !Drops(w, Polls(Reached, true, env))
  {
    hide Read, StoredBy;
  }

  /** Three readings with a store that keeps what it is given bring the reader up to date: then
      everything the broker holds is stored. */
  lemma ThreeReadingsCatchUp(w: World, a: Env, b: Env, c: Env)
    requires Sound(w) && Fresh(w) && Complete(w) && !Estranged(w)
    requires Willing(a) && Willing(b) && Willing(c)
    ensures (var u := Next(Next(Next(w, Polls(Reached, true, a)), Polls(Reached, true, b)), Polls(Reached, true, c));
             && u.broker == w.broker && u.reader.cursor >= u.broker.sequence
             && forall e <- u.broker.events :: e.id in u.reader.store)
  {
    ReadingStores(w, a);
    var x := Next(w, Polls(Reached, true, a));
    ReadingStores(x, b);
    var y := Next(x, Polls(Reached, true, b));
    ReadingStores(y, c);
    var u := Next(y, Polls(Reached, true, c));
    hide Next, Fresh;
    assert Unread(w) <= RETAIN;
    assert Unread(u) == 0;
    assert forall e <- u.broker.events :: e.sequence <= u.reader.cursor by {
      assert forall i | 0 <= i < |u.broker.events| :: u.broker.events[i].sequence <= u.broker.sequence;
    }
  }

  lemma ReadingStores(w: World, env: Env)
    requires Sound(w) && Fresh(w) && Complete(w) && !Estranged(w) && Willing(env)
    ensures (var u := Next(w, Polls(Reached, true, env));
             && Sound(u) && Fresh(u) && Complete(u) && u.met && !Estranged(u) && u.broker == w.broker
             && Unread(u) == if Unread(w) > BATCH then Unread(w) - BATCH else 0)
  {
    ReadingTakes(w, env);
    WillingKeeps(w, env);
    NextFresh(w, Polls(Reached, true, env));
    FreshLoses(w, Polls(Reached, true, env));
    NextComplete(w, Polls(Reached, true, env));
    hide Next, Complete, Drops, Loses, Fresh;
  }
}
