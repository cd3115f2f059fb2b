/** The telemetry store: a table of events under their identifiers, written and pruned in
    transactions, and the recording call that swallows its failures. */
module Telemetry {
  type Time = int
  type Id = string
  type Resource = string

  /** An event; `proper` says that schema, identifier and size pass the checks before writing. */
  datatype Value = Value(id: Id, resource: Resource, proper: bool, expires: Time)

  type Table = map<Id, Value>

  /** How pruning goes: its own connection, the deletion of what has expired, the evictions that
      go through, each a transaction, and whether it then reaches its end. */
  datatype Pruning = Pruning(connects: bool, now: Time, clears: bool, evictions: seq<set<Id>>, ends: bool)

  /** How one recording goes: whether event and store can be built, the event's checks and expiry,
      the connection, the number of insertions that go through, the commit, the pruning behind it. */
  datatype Course = Course(builds: bool, proper: bool, expires: Time, connects: bool, writes: nat, commits: bool, pruning: Pruning)

  /** What recording one event comes to.
      - `Kept`: committed and reported as recorded;
      - `Unconfirmed`: committed, and reported as not recorded;
      - `Dropped`: not committed, and reported as not recorded;
      - `Raised`: not committed, and the failure reaches the caller. */
  datatype Outcome = Kept | Unconfirmed | Dropped | Raised

  datatype Result<T> = Ok(value: T) | Err

  // ---------------------------------------------------------------- the table

  /** Insert or ignore. */
  function Put(rows: Table, value: Value): Table {
    if value.id in rows then rows else rows[value.id := value]
  }

  function PutAll(rows: Table, values: seq<Value>): Table {
    if values == [] then rows else Put(PutAll(rows, values[..|values| - 1]), values[|values| - 1])
  }

  function Unexpired(rows: Table, now: Time): Table {
    map id | id in rows && rows[id].expires >= now :: rows[id]
  }

  function Evicted(rows: Table, evictions: seq<set<Id>>): Table {
    if evictions == [] then rows else Evicted(rows, evictions[..|evictions| - 1]) - evictions[|evictions| - 1]
  }

  function Pruned(rows: Table, p: Pruning): Table {
    if p.connects && p.clears then Evicted(Unexpired(rows, p.now), p.evictions) else rows
  }

  predicate PruningEnds(p: Pruning) {
    p.connects && p.clears && p.ends
  }

  predicate Proper(values: seq<Value>) {
    forall value <- values :: value.proper
  }

  /** The transaction over these events is committed. */
  predicate Commits(values: seq<Value>, c: Course) {
    Proper(values) && c.connects && |values| <= c.writes && c.commits
  }

  function Outcomes(value: Value, c: Course): Outcome {
    if !c.builds then Raised
    else if !Commits([value], c) then Dropped
    else if PruningEnds(c.pruning) then Kept else Unconfirmed
  }

  predicate Written(outcome: Outcome) {
    outcome.Kept? || outcome.Unconfirmed?
  }

  // ---------------------------------------------------------------- what a recording does

  lemma {:induction false} PutAllRows(rows: Table, values: seq<Value>, id: Id)
    ensures id in PutAll(rows, values) <==> id in rows || exists value :: value in values && value.id == id
    ensures id in rows ==> PutAll(rows, values)[id] == rows[id]
  {
    if values != [] {
      var front, last := values[..|values| - 1], values[|values| - 1];
      assert values == front + [last];
      PutAllRows(rows, front, id);
    }
  }

  lemma {:induction false} EvictedRows(rows: Table, evictions: seq<set<Id>>, id: Id)
    ensures id in Evicted(rows, evictions) <==> id in rows && forall i | 0 <= i < |evictions| :: id !in evictions[i]
    ensures id in Evicted(rows, evictions) ==> Evicted(rows, evictions)[id] == rows[id]
  {
    if evictions != [] {
      EvictedRows(rows, evictions[..|evictions| - 1], id);
    }
  }

  /** A row is there after a recording exactly if it was there or is the one committed, had not
      expired when pruning looked, and was not evicted. */
  lemma RowStaysExactly(rows: Table, value: Value, p: Pruning, id: Id)
    ensures id in Pruned(Put(rows, value), p) <==>
      && (id in rows || id == value.id)
      && (p.connects && p.clears ==>
            && (if id in rows then rows[id] else value).expires >= p.now
            && forall i | 0 <= i < |p.evictions| :: id !in p.evictions[i])
    ensures id in Pruned(Put(rows, value), p) ==>
      Pruned(Put(rows, value), p)[id] == if id in rows then rows[id] else value
  {
    EvictedRows(Unexpired(Put(rows, value), p.now), p.evictions, id);
  }

  /** The table after recording one event, and the answer. */
  function Recorded(rows: Table, value: Value, c: Course): (Table, bool) {
    var outcome := Outcomes(value, c);
    (if Written(outcome) then Pruned(Put(rows, value), c.pruning) else rows, outcome.Kept?)
  }

  /** A store that holds an earlier event under the identifier and one that does not give the same
      answer and end with the same other rows; the earlier event is not overwritten. */
  lemma DuplicateUnseen(rows: Table, prior: Value, value: Value, c: Course, id: Id)
    requires value.id !in rows && prior.id == value.id
    ensures (var (held, again), (plain, first) := Recorded(rows[prior.id := prior], value, c), Recorded(rows, value, c);
             && again == first
             && (id != value.id ==> (id in held <==> id in plain) && (id in held ==> held[id] == plain[id]))
             && (id == value.id && id in held ==> held[id] == prior))
  {
    var p := c.pruning;
    if Written(Outcomes(value, c)) {
      RowStaysExactly(rows[prior.id := prior], value, p, id);
      RowStaysExactly(rows, value, p, id);
    }
    hide Outcomes, Pruned;
  }

  // ---------------------------------------------------------------- the store

  /** `ever` holds every identifier a transaction has committed, pruned since or not. */
  class Store {
    var rows: Table
    var script: seq<Course>
    ghost var ever: set<Id>

    ghost predicate Valid()
      reads this
    {
      rows.Keys <= ever
    }

    constructor (script: seq<Course>)
      ensures Valid() && rows == map[] && ever == {} && this.script == script
    {
      rows, ever, this.script := map[], {}, script;
    }

    /** How the next recording will go; without more of the script it cannot connect. */
    method Next() returns (c: Course)
      modifies this`script
      ensures rows == old(rows) && ever == old(ever)
    {
      c := Course(true, true, 0, false, 0, false, Pruning(false, 0, false, [], false));
      if script != [] {
        c, script := script[0], script[1..];
      }
    }

    method Prune(p: Pruning) returns (r: Result<()>)
      requires Valid()
      modifies this`rows
      ensures Valid()
      ensures rows == Pruned(old(rows), p)
      ensures r.Ok? <==> PruningEnds(p)
    {
      if !p.connects || !p.clears {
        return Err;
      }
      rows := Unexpired(rows, p.now);
      ghost var left := rows;
      for i := 0 to |p.evictions|
        invariant Valid()
        invariant rows == Evicted(left, p.evictions[..i])
      {
        assert p.evictions[..i + 1][..i] == p.evictions[..i];
        rows := rows - p.evictions[i];
      }
      assert p.evictions[..|p.evictions|] == p.evictions;
      return if p.ends then Ok(()) else Err;
    }

    /** The number of events, whether or not their rows are new: the insertions are not counted. */
    method RecordMany(values: seq<Value>, c: Course) returns (r: Result<nat>)
      requires Valid()
      modifies this`rows, this`ever
      ensures Valid()
      ensures values != [] && Commits(values, c) ==> rows == Pruned(PutAll(old(rows), values), c.pruning)
      ensures values == [] || !Commits(values, c) ==> rows == old(rows)
      ensures forall id :: id in ever <==>
        id in old(ever) || (Commits(values, c) && exists value :: value in values && value.id == id)
      ensures r == if values == [] then Ok(0)
                   else if Commits(values, c) && PruningEnds(c.pruning) then Ok(|values|) else Err
    {
      for i := 0 to |values|
        invariant forall value <- values[..i] :: value.proper
      {
        if !values[i].proper {
          return Err;
        }
      }
      assert Proper(values);
      if values == [] {
        return Ok(0);
      }
      if !c.connects {
        return Err;
      }
      var transaction := rows;
      for i := 0 to |values|
        invariant transaction == PutAll(rows, values[..i])
        invariant i <= c.writes
      {
        if i == c.writes {
          return Err;
        }
        assert values[..i + 1][..i] == values[..i];
        transaction := Put(transaction, values[i]);
      }
      assert values[..|values|] == values;
      if !c.commits {
        return Err;
      }
      forall id ensures id in transaction <==> id in rows || exists value :: value in values && value.id == id {
        PutAllRows(rows, values, id);
      }
      rows, ever := transaction, ever + (set value | value in values :: value.id);
      var pruned := Prune(c.pruning);
      if pruned.Err? {
        return Err;
      }
      return Ok(|values|);
    }

    /** Best effort: every failure of the store is the answer that nothing was recorded. */
    method RecordEvent(value: Value, c: Course) returns (recorded: bool)
      requires Valid() && c.builds
      modifies this`rows, this`ever
      ensures Valid()
      ensures recorded <==> Outcomes(value, c).Kept?
      ensures (rows, recorded) == Recorded(old(rows), value, c)
      ensures ever == if Written(Outcomes(value, c)) then old(ever) + {value.id} else old(ever)
    {
      assert [value][..0] == [];
      assert PutAll(rows, [value]) == Put(PutAll(rows, []), value);
      var r := RecordMany([value], c);
      return r.Ok? && r.value > 0;
    }
  }
}
