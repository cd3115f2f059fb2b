/** When the live counters count an event twice, over runs of the broker's log and its reader. */
module EventCounting {
  import opened EventIngestion
  import opened EventLog
  import opened Telemetry

  /** What a reading of the log comes to. */
  function AnswerTo(w: World, contact: Contact, available: bool): Answer {
    if contact.Silent? then Unusable
    else if Estranged(w) then Changed
    else if contact.Cut? then Unusable
    else Answered(Read(w.broker, w.reader.cursor, available))
  }

  /** A reading reports as recorded an event committed before. */
  ghost predicate Recounts(w: World, step: Step) {
    step.Polls? && !Unseen(w.reader, Round(AnswerTo(w, step.contact, step.available), step.env))
  }

  /** A reading reports as not recorded an event it commits for the first time. */
  ghost predicate Misses(w: World, step: Step) {
    step.Polls? && !Confirmed(w.reader, Round(AnswerTo(w, step.contact, step.available), step.env))
  }

  lemma PollReads(w: World, contact: Contact, available: bool, env: Env)
    ensures Next(w, Polls(contact, available, env)).reader
      == Reconciled(w.reader, AnswerTo(w, contact, available), env)
  {
    hide Reconciled, Read;
  }

  lemma CleanedKeeps(history: seq<Event>)
    ensures NoReplays(history + [Cleaned({})]) <==> NoReplays(history)
    ensures Honest(history + [Cleaned({})]) <==> Honest(history)
  {
    var h := history + [Cleaned({})];
    assert forall i | 0 <= i < |history| :: h[i] == history[i];
    assert HonestAt(h[|history|]);
    hide HonestAt;
  }

  lemma StepCounts(w: World, step: Step)
    ensures (var u := Next(w, step);
             && (NoReplays(u.reader.history) <==> NoReplays(w.reader.history) && !Recounts(w, step))
             && (Honest(u.reader.history) <==>
                   Honest(w.reader.history) && !Recounts(w, step) && !Misses(w, step)))
  {
    CleanedKeeps(w.reader.history);
    hide NoReplays, Honest, Unseen, Confirmed, Reconciled, Read;
    if step.Polls? {
      var answer := AnswerTo(w, step.contact, step.available);
      PollReads(w, step.contact, step.available, step.env);
      RoundReplays(w.reader, Round(answer, step.env));
      RoundHonest(w.reader, Round(answer, step.env));
    }
  }

  ghost predicate NeverRecounts(w: World, steps: seq<Step>)
    decreases |steps|
  {
    steps != [] ==> !Recounts(w, steps[0]) && NeverRecounts(Next(w, steps[0]), steps[1..])
  }

  ghost predicate NeverMisses(w: World, steps: seq<Step>)
    decreases |steps|
  {
    steps != [] ==> !Misses(w, steps[0]) && NeverMisses(Next(w, steps[0]), steps[1..])
  }

  lemma {:induction false} RunCountsFrom(w: World, steps: seq<Step>)
    ensures NoReplays(Run(w, steps).reader.history) <==> NoReplays(w.reader.history) && NeverRecounts(w, steps)
    ensures Honest(Run(w, steps).reader.history) <==>
      Honest(w.reader.history) && NeverRecounts(w, steps) && NeverMisses(w, steps)
    decreases |steps|
  {
    if steps != [] {
      hide Next, NoReplays, Honest, Recounts, Misses;
      StepCounts(w, steps[0]);
      RunCountsFrom(Next(w, steps[0]), steps[1..]);
    }
  }

  /** Over every run of broker and reader together, restarts on both sides and failures anywhere
      included: no event is counted twice exactly when no reading reports as recorded one committed
      before; and every counter shows the first-time records since it was made, at every moment,
      exactly when moreover none reports as not recorded one committed for the first time. */
  lemma CountsExactly(steps: seq<Step>)
    ensures NoReplays(Run(START, steps).reader.history) <==> NeverRecounts(START, steps)
    ensures (var h := Run(START, steps).reader.history; forall n | 0 <= n <= |h| :: ShowsFirstTimes(h[..n]))
      <==> NeverRecounts(START, steps) && NeverMisses(START, steps)
  {
    assert NoReplays([]) && Honest([]);
    assert START.reader.history == [];
    hide *;
    RunCountsFrom(START, steps);
    ShownExactly(Run(START, steps).reader.history);
  }

  // ---------------------------------------------------------------- runs that count each event once

  /** The identifiers the run has appended, from those given. */
  function Issued(ids: set<Id>, step: Step): set<Id> {
    if step.Appends? then ids + {step.id} else ids
  }

  /** No identifier is appended twice. */
  predicate Once(ids: set<Id>, steps: seq<Step>)
    decreases |steps|
  {
    steps != [] ==> (steps[0].Appends? ==> steps[0].id !in ids) && Once(Issued(ids, steps[0]), steps[1..])
  }

  /** A batch breaks off behind an event it has committed. */
  ghost predicate BreaksBehind(w: World, step: Step) {
    && step.Polls? && step.contact.Reached? && !Estranged(w)
    && var n := |Read(w.broker, w.reader.cursor, step.available).items|;
       !Whole(step.env, n) && exists i | 0 <= i < Offers(step.env, n, 0) :: Written(OutcomeOf(step.env, i))
  }

  /** The session starts anew while the broker it was bound to holds an event that is stored. */
  ghost predicate ReopensOver(w: World, step: Step) {
    step.Reopens? && !Estranged(w) && exists e <- w.broker.events :: e.id in w.reader.store
  }

  ghost predicate Smooth(w: World, steps: seq<Step>)
    decreases |steps|
  {
    steps != [] ==>
      && !BreaksBehind(w, steps[0]) && !ReopensOver(w, steps[0])
      && Smooth(Next(w, steps[0]), steps[1..])
  }

  ghost predicate DistinctItems(items: seq<Item>) {
    forall i, j | 0 <= i < j < |items| :: items[i].id != items[j].id
  }

  lemma DistinctSlice(items: seq<Item>, low: nat, high: nat)
    requires low <= high <= |items| && DistinctItems(items)
    ensures DistinctItems(items[low..high])
  {
  }

  lemma DistinctGrows(items: seq<Item>, item: Item)
    requires DistinctItems(items) && forall other <- items :: other.id != item.id
    ensures DistinctItems(items + [item]) && forall e <- items + [item] :: e in items || e == item
  {
    forall i, j | 0 <= i < j < |items| + 1 ensures (items + [item])[i].id != (items + [item])[j].id {
      assert items[i] in items;
    }
  }

  /** What the reader has still to be offered is not stored, and no identifier is held twice. */
  ghost predicate Unstored(w: World, ids: set<Id>) {
    && Sound(w)
    && w.reader.store <= ids
    && (forall e <- w.broker.events :: e.id in ids)
    && DistinctItems(w.broker.events)
    && (forall e <- w.broker.events :: Estranged(w) || e.sequence > w.reader.cursor ==> e.id !in w.reader.store)
  }

  lemma AppendUnstored(w: World, id: Id, resource: Resource, ids: set<Id>)
    requires Unstored(w, ids) && id !in ids
    ensures Unstored(Next(w, Appends(id, resource)), ids + {id})
  {
    var u, item := Next(w, Appends(id, resource)), Item(w.broker.sequence + 1, id, resource);
    NextSound(w, Appends(id, resource));
    AppendIs(w, id, resource);
    UnstoredParts(w, ids);
    hide Sound, Next, Estranged, DistinctItems;
    var events := w.broker.events + [item];
    DistinctGrows(w.broker.events, item);
    DistinctSlice(events, 0, |events|);
    DistinctSlice(events, 1, |events|);
    assert events[0..|events|] == events && events[1..|events|] == events[1..];
    forall e | e in u.broker.events ensures e in w.broker.events || e == item {
      assert e in events;
    }
  }

  lemma AppendIs(w: World, id: Id, resource: Resource)
    ensures (var u, events := Next(w, Appends(id, resource)), w.broker.events + [Item(w.broker.sequence + 1, id, resource)];
             && (u.broker.events == events || u.broker.events == events[1..])
             && u.reader == w.reader && (Estranged(u) <==> Estranged(w)))
  {
  }

  /** An identifier held tells the event. */
  lemma HeldOnce(w: World, ids: set<Id>, a: Item, b: Item)
    requires Unstored(w, ids) && a in w.broker.events && b in w.broker.events && a.id == b.id
    ensures a == b
  {
    hide Sound, Estranged;
    var i :| 0 <= i < |w.broker.events| && w.broker.events[i] == a;
    var j :| 0 <= j < |w.broker.events| && w.broker.events[j] == b;
    assert DistinctItems(w.broker.events);
  }

  lemma ReadSlice(b: Broker, cursor: nat, available: bool) returns (d: nat)
    requires Orderly(b)
    ensures (var items := Read(b, cursor, available).items;
             d + |items| <= |b.events| && items == b.events[d..d + |items|])
  {
    ReadIs(b, cursor, available);
    var base := b.sequence - |b.events|;
    hide Read;
    d := 0;
    if Read(b, cursor, available).items != [] && cursor > base {
      d := cursor - base;
    }
  }

  lemma NewUnstored(w: World, ids: set<Id>)
    requires Unstored(w, ids)
    ensures forall e <- w.broker.events :: e.sequence > w.reader.cursor ==> e.id !in w.reader.store
  {
    hide Sound, DistinctItems, Estranged;
  }

  lemma ReadingUnseen(w: World, available: bool, env: Env, ids: set<Id>)
    requires Unstored(w, ids) && !Estranged(w)
    ensures !Recounts(w, Polls(Reached, available, env))
  {
    var items := Read(w.broker, w.reader.cursor, available).items;
    UnstoredParts(w, ids);
    NewUnstored(w, ids);
    hide *;
    ReadAcceptable(w.broker, w.reader.cursor, available);
    ReadHeld(w.broker, w.reader.cursor, available);
    var d := ReadSlice(w.broker, w.reader.cursor, available);
    DistinctSlice(w.broker.events, d, d + |items|);
    DistinctUnseen(w.reader, Answered(Read(w.broker, w.reader.cursor, available)), env);
    RecountsIs(w, available, env);
  }

  /** A batch of distinct events that are not stored is counted once. */
  lemma DistinctUnseen(s: State, answer: Answer, env: Env)
    requires answer.Answered? && DistinctItems(answer.reply.items)
    requires forall item <- answer.reply.items :: item.id !in s.store
    ensures Unseen(s, Round(answer, env))
  {
    hide Acceptable, StoredBy;
    var items := answer.reply.items;
    forall i: nat | i < |items| ensures !StoredBy(s, items, env, i, items[i].id) {
      NotStored(s, items, env, i, items[i].id);
    }
  }

  lemma NotStored(s: State, items: seq<Item>, env: Env, n: nat, id: Id)
    requires n <= |items| && id !in s.store
    requires forall j | 0 <= j < n && Written(OutcomeOf(env, j)) :: items[j].id != id
    ensures !StoredBy(s, items, env, n, id)
  {
  }

  lemma StoredIssued(s: State, items: seq<Item>, env: Env, n: nat, id: Id, ids: set<Id>)
    requires n <= |items| && StoredBy(s, items, env, n, id) && s.store <= ids
    requires forall item <- items :: item.id in ids
    ensures id in ids
  {
  }

  lemma NothingWritten(w: World, available: bool, env: Env, j: nat)
    requires !BreaksBehind(w, Polls(Reached, available, env)) && !Estranged(w)
    requires (var n := |Read(w.broker, w.reader.cursor, available).items|; !Whole(env, n) && j < Offers(env, n, 0))
    ensures !Written(OutcomeOf(env, j))
  {
    hide Read, Whole;
  }

  /** What is held above the cursor behind the reading is not stored. */
  lemma HeldUnstored(w: World, available: bool, env: Env, ids: set<Id>, e: Item)
    requires Unstored(w, ids) && !Estranged(w) && !BreaksBehind(w, Polls(Reached, available, env))
    requires Orderly(w.broker) && e in w.broker.events
    requires (var items := Read(w.broker, w.reader.cursor, available).items;
              !(e.sequence <= w.reader.cursor || (Whole(env, |items|) && e in items)))
    ensures (var items := Read(w.broker, w.reader.cursor, available).items;
             !StoredBy(w.reader, items, env, Offers(env, |items|, 0), e.id))
  {
    assert e.id !in w.reader.store;
    hide *;
    var items := Read(w.broker, w.reader.cursor, available).items;
    var n := Offers(env, |items|, 0);
    ReadHeld(w.broker, w.reader.cursor, available);
    forall j: nat | j < n && Written(OutcomeOf(env, j)) ensures items[j].id != e.id {
      if !Whole(env, |items|) {
        NothingWritten(w, available, env, j);
      } else if items[j].id == e.id {
        assert items[j] in items;
        HeldOnce(w, ids, items[j], e);
      }
    }
    NotStored(w.reader, items, env, n, e.id);
  }

  lemma ReadingUnstored(w: World, available: bool, env: Env, ids: set<Id>)
    requires Unstored(w, ids) && !Estranged(w) && !BreaksBehind(w, Polls(Reached, available, env))
    ensures Unstored(Next(w, Polls(Reached, available, env)), ids)
  {
    var b, s := w.broker, w.reader;
    var reply := Read(b, s.cursor, available);
    var u := Next(w, Polls(Reached, available, env));
    UnstoredParts(w, ids);
    hide *;
    ReachedPoll(w, available, env);
    NextSound(w, Polls(Reached, available, env));
    ReadingMoves(w, available, env);
    ReadHeld(b, s.cursor, available);
    forall id | id in u.reader.store ensures id in ids {
      StoredIssued(s, reply.items, env, Offers(env, |reply.items|, 0), id, ids);
    }
    forall e | e in b.events && e.sequence > u.reader.cursor ensures e.id !in u.reader.store {
      ReadPasses(b, s.cursor, available, e);
      HeldUnstored(w, available, env, ids, e);
    }
    UnstoredSame(w, u, ids);
  }

  lemma UnstoredParts(w: World, ids: set<Id>)
    requires Unstored(w, ids)
    ensures Sound(w) && Orderly(w.broker) && w.reader.store <= ids && DistinctItems(w.broker.events)
    ensures forall e <- w.broker.events :: e.id in ids
  {
  }

  lemma UnstoredSame(w: World, u: World, ids: set<Id>)
    requires Unstored(w, ids) && Sound(u) && u.broker == w.broker && u.reader.store <= ids && !Estranged(u)
    requires forall e <- u.broker.events :: e.sequence > u.reader.cursor ==> e.id !in u.reader.store
    ensures Unstored(u, ids)
  {
    hide Sound, Estranged;
  }

  lemma ReachedPoll(w: World, available: bool, env: Env)
    requires !Estranged(w)
    ensures (var u := Next(w, Polls(Reached, available, env));
             && u.broker == w.broker && !Estranged(u)
             && u.reader == Reconciled(w.reader, Answered(Read(w.broker, w.reader.cursor, available)), env))
  {
    hide Reconciled, Read;
  }

  lemma RecountsIs(w: World, available: bool, env: Env)
    requires !Estranged(w)
    ensures Recounts(w, Polls(Reached, available, env)) <==>
      !Unseen(w.reader, Round(Answered(Read(w.broker, w.reader.cursor, available)), env))
  {
    hide Unseen, Read;
  }

  lemma PollUnstored(w: World, step: Step, ids: set<Id>)
    requires step.Polls? && Unstored(w, ids) && !BreaksBehind(w, step)
    ensures Unstored(Next(w, step), ids) && !Recounts(w, step)
  {
    if step.contact.Reached? && !Estranged(w) {
      hide *;
      ReadingUnstored(w, step.available, step.env, ids);
      ReadingUnseen(w, step.available, step.env, ids);
      assert step == Polls(Reached, step.available, step.env);
    } else {
      NextSound(w, step);
      QuietReader(w.reader, step.env);
      hide Reconciled, Sound, Read;
    }
  }

  lemma StepUnstored(w: World, step: Step, ids: set<Id>)
    requires Unstored(w, ids) && (step.Appends? ==> step.id !in ids)
    requires !BreaksBehind(w, step) && !ReopensOver(w, step)
    ensures Unstored(Next(w, step), Issued(ids, step)) && !Recounts(w, step)
  {
    match step
    case Appends(id, resource) =>
      AppendUnstored(w, id, resource, ids);
      hide Next;
    case Polls(_, _, _) =>
      PollUnstored(w, step, ids);
      hide Next;
    case _ =>
      NextSound(w, step);
      QuietReader(w.reader, Env([], [], []));
      hide Ingested, Sound, Polled, Appended;
  }

  lemma {:induction false} SmoothNeverRecounts(w: World, steps: seq<Step>, ids: set<Id>)
    requires Unstored(w, ids) && Once(ids, steps) && Smooth(w, steps)
    ensures NeverRecounts(w, steps)
    decreases |steps|
  {
    if steps != [] {
      hide Unstored, Next, Issued, BreaksBehind, ReopensOver, Recounts;
      StepUnstored(w, steps[0], ids);
      SmoothNeverRecounts(Next(w, steps[0]), steps[1..], Issued(ids, steps[0]));
    }
  }

  /** In every run in which no identifier is given twice, no batch breaks off behind an event it has
      committed and no session starts anew over a broker whose events it has stored, no event is
      counted twice, whatever restarts the broker goes through and whatever the store drops. */
  lemma SmoothCountsOnce(steps: seq<Step>)
    requires Once({}, steps) && Smooth(START, steps)
    ensures NoReplays(Run(START, steps).reader.history)
    ensures forall r :: Live(Run(START, steps).reader.history, r) <= FirstTimes(Run(START, steps).reader.history, r)
  {
    assert Unstored(START, {});
    hide *;
    SmoothNeverRecounts(START, steps, {});
    CountsExactly(steps);
    forall r ensures Live(Run(START, steps).reader.history, r) <= FirstTimes(Run(START, steps).reader.history, r) {
      CountedOnce(Run(START, steps).reader.history, r);
    }
  }

  // ---------------------------------------------------------------- the two ways to count again

  /** After a batch that broke off behind a committed event, the next answer brings it again, and it
      is counted if the store reports it as recorded. */
  lemma BreakRecounts(w: World, available: bool, broken: Env, retry: Env, i: nat)
    requires Sound(w) && !Estranged(w)
    requires (var n := |Read(w.broker, w.reader.cursor, available).items|;
              && !Whole(broken, n) && i < Offers(broken, n, 0) && Written(OutcomeOf(broken, i))
              && i < Offers(retry, n, 0) && OutcomeOf(retry, i).Kept?)
    ensures Recounts(Next(w, Polls(Reached, available, broken)), Polls(Reached, available, retry))
  {
    var reply := Read(w.broker, w.reader.cursor, available);
    var u := Next(w, Polls(Reached, available, broken));
    SoundOrderly(w);
    hide *;
    ReachedPoll(w, available, broken);
    ReadAcceptable(w.broker, w.reader.cursor, available);
    BrokenBatchCountsAgain(w.reader, reply, broken, reply, retry, i);
    RecountsIs(u, available, retry);
  }

  lemma SoundOrderly(w: World)
    requires Sound(w)
    ensures Orderly(w.broker)
  {
  }

  /** A session that starts anew reads the broker's events from the first one it holds, and counts
      those it stored before. */
  lemma ReopenRecounts(w: World, env: Env, i: nat)
    requires Sound(w) && i < |w.broker.events| && w.broker.events[i].id in w.reader.store
    requires i < Offers(env, |Batch(w.broker.events)|, 0) && OutcomeOf(env, i).Kept?
    ensures Recounts(Next(w, Reopens), Polls(Reached, true, env))
  {
    var u := Next(w, Reopens);
    ReopenedIs(w);
    hide *;
    ReadFromStart(w.broker);
    ReadAcceptable(w.broker, 0, true);
    StoredReplays(u.reader, Read(w.broker, 0, true), env, i);
    RecountsIs(u, true, env);
  }

  lemma ReopenedIs(w: World)
    requires Sound(w)
    ensures Orderly(w.broker)
    ensures (var u := Next(w, Reopens);
             u.broker == w.broker && !Estranged(u) && u.reader.cursor == 0 && u.reader.store == w.reader.store)
  {
  }

  lemma ReadFromStart(b: Broker)
    requires Orderly(b)
    ensures Read(b, 0, true).items == Batch(b.events)
    ensures forall i | 0 <= i < |Batch(b.events)| :: Batch(b.events)[i] == b.events[i]
  {
    AboveIs(b.events, b.sequence - |b.events|, 0);
    hide Above;
  }
}
