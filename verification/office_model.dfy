/** The Office ledger: cadence and retention decisions over the state file.

    Times are microseconds since the Unix epoch. The ledger stores timestamps with
    second precision, so a recorded time is the clock rounded down to a second.
 */
module OfficeModel {
  type Time = int
  type Commit = nat

  const SECOND: Time := 1_000_000
  const HOUR: Time := 3600 * SECOND
  const PERIOD: Time := 144 * HOUR
  const RETRY: Time := 24 * HOUR
  const GRACE: Time := 48 * HOUR
  const KEEP: nat := 3
  const MAX_GENERATION: int := 999_999_999

  datatype Option<+T> = None | Some(value: T)
  datatype Result<+T> = Ok(value: T) | Err

  /** A release tag: one of the numbered Office tags or any other name on the remote. */
  datatype Tag = Office(number: int) | Foreign(name: string)

  predicate Owned(tag: Tag) {
    tag.Office? && 1 <= tag.number <= MAX_GENERATION
  }

  datatype Generation = Generation(
    number: int, tag: Tag, releaseId: int, tagCommit: Commit,
    publishedAt: Time, inventory: nat, withdrawnAt: Option<Time>)

  datatype Pending = Pending(tag: Tag, releaseId: int, createdAt: Time, tagCommit: Commit)

  /** One workflow run. GitHub fixes the commit a run is built from. */
  datatype Run = Run(id: nat, sha: Commit)

  /** What a claim writes: the run that owns the cycle, the cycle, the reserved number. */
  datatype Reservation = Reservation(run: Run, cycle: int, generation: int)

  datatype Ledger = Ledger(
    epoch: Time, completedCycle: int, lastAttempt: Option<Time>, current: Option<Tag>,
    generations: seq<Generation>, pending: Option<Pending>, nextGeneration: int,
    reservation: Option<Reservation>, channelVerified: Option<Tag>, metadataCommit: Option<Commit>,
    lastVerificationAttempt: Option<Time>, lastVerifiedAt: Option<Time>)

  datatype Reason =
    | Disabled | BeforeEpoch | ChannelUnverified | CleanupPending | DraftPending
    | NotDue | RetryBackoff | Manual | SixDayCycle

  datatype Decision = Decision(due: bool, reason: Reason, cycle: int)

  /** One deletion the cleanup is allowed to make. */
  datatype Item = Item(releaseId: int, tag: Tag, tagCommit: Commit, releaseExists: bool, pending: bool)

  /** What the cleanup reads about one remote release. */
  datatype Listed = Listed(tag: Tag, draft: bool)

  function Max(a: int, b: int): int {
    if a < b then b else a
  }

  function Recorded(t: Time): Time {
    t - t % SECOND
  }

  lemma RecordedBounds(t: Time)
    ensures Recorded(t) <= t < Recorded(t) + SECOND
    ensures Recorded(t) % SECOND == 0
    ensures Recorded(Recorded(t)) == Recorded(t)
  {
  }

  function Cycle(epoch: Time, now: Time): int {
    (now - epoch) / PERIOD
  }

  lemma CycleBounds(epoch: Time, now: Time)
    ensures epoch + Cycle(epoch, now) * PERIOD <= now < epoch + (Cycle(epoch, now) + 1) * PERIOD
  {
  }

  lemma CycleMonotone(epoch: Time, now: Time, later: Time)
    requires now <= later
    ensures Cycle(epoch, now) <= Cycle(epoch, later)
  {
    CycleBounds(epoch, now);
    CycleBounds(epoch, later);
  }

  function NewLedger(epoch: Time): Ledger {
    Ledger(epoch, -1, None, None, [], None, 1, None, None, None, None, None)
  }

  predicate Withdrawn(g: Generation) {
    g.withdrawnAt.Some?
  }

  predicate ValidRecord(g: Generation) {
    Owned(g.tag) && g.number == g.tag.number && g.releaseId >= 1
  }

  predicate Distinct(gens: seq<Generation>) {
    forall i, j :: 0 <= i < j < |gens| ==> gens[i].tag != gens[j].tag && gens[i].releaseId != gens[j].releaseId
  }

  predicate Listing(gens: seq<Generation>, tag: Tag) {
    exists i :: 0 <= i < |gens| && gens[i].tag == tag
  }

  /** `validate_state` returns without raising. */
  predicate Valid(l: Ledger) {
    && l.completedCycle >= -1
    && l.nextGeneration >= 1
    && (forall i :: 0 <= i < |l.generations| ==> ValidRecord(l.generations[i]))
    && Distinct(l.generations)
    && (l.current.Some? ==> Listing(l.generations, l.current.value))
    && (l.generations != [] ==> l.current.Some?)
    && (forall i :: 0 <= i < |l.generations| && l.current == Some(l.generations[i].tag) ==> !Withdrawn(l.generations[i]))
    && (l.pending.Some? ==> Owned(l.pending.value.tag) && l.pending.value.releaseId >= 1)
  }

  // ----- active: the generations on offer, newest number first

  function Offered(gens: seq<Generation>): seq<Generation> {
    if gens == [] then []
    else
      var rest := Offered(gens[..|gens| - 1]);
      var last := gens[|gens| - 1];
      if Withdrawn(last) then rest else rest + [last]
  }

  function Insert(g: Generation, descending: seq<Generation>): seq<Generation> {
    if descending == [] || descending[0].number < g.number then [g] + descending
    else [descending[0]] + Insert(g, descending[1..])
  }

  function Descending(gens: seq<Generation>): seq<Generation> {
    if gens == [] then [] else Insert(gens[|gens| - 1], Descending(gens[..|gens| - 1]))
  }

  /** `active`; it raises on an invalid ledger, which callers check first. */
  function Active(l: Ledger): seq<Generation> {
    Descending(Offered(l.generations))
  }

  predicate Sorted(gens: seq<Generation>) {
    forall i, j :: 0 <= i < j < |gens| ==> gens[i].number >= gens[j].number
  }

  lemma {:induction false} InsertMembers(g: Generation, d: seq<Generation>)
    ensures multiset(Insert(g, d)) == multiset(d) + multiset{g}
  {
    if d == [] || d[0].number < g.number {
    } else {
      assert d == [d[0]] + d[1..];
      InsertMembers(g, d[1..]);
    }
  }

  lemma {:induction false} InsertSorts(g: Generation, d: seq<Generation>)
    requires Sorted(d)
    ensures Sorted(Insert(g, d))
    ensures multiset(Insert(g, d)) == multiset(d) + multiset{g}
  {
    InsertMembers(g, d);
    if d == [] || d[0].number < g.number {
    } else {
      InsertSorts(g, d[1..]);
      var rest := Insert(g, d[1..]);
      forall k | 0 <= k < |rest| ensures d[0].number >= rest[k].number {
        assert rest[k] in multiset(rest);
        assert rest[k] == g || rest[k] in d[1..];
      }
      assert Insert(g, d) == [d[0]] + rest;
      hide Insert;
    }
  }

  lemma {:induction false} DescendingSorts(gens: seq<Generation>)
    ensures Sorted(Descending(gens))
    ensures multiset(Descending(gens)) == multiset(gens)
  {
    if gens != [] {
      var front, last := gens[..|gens| - 1], gens[|gens| - 1];
      DescendingSorts(front);
      InsertSorts(last, Descending(front));
      assert gens == front + [last];
    }
  }

  lemma {:induction false} OfferedMembers(gens: seq<Generation>)
    ensures forall g :: g in Offered(gens) <==> g in gens && !Withdrawn(g)
    ensures |Offered(gens)| <= |gens|
  {
    if gens != [] {
      OfferedMembers(gens[..|gens| - 1]);
      assert gens == gens[..|gens| - 1] + [gens[|gens| - 1]];
    }
  }

  /** `active` returns exactly the generations that are not withdrawn, by falling number. */
  lemma ActiveIsOffered(l: Ledger)
    ensures Sorted(Active(l))
    ensures forall g :: g in Active(l) <==> g in l.generations && !Withdrawn(g)
    ensures |Active(l)| == |Offered(l.generations)|
  {
    DescendingSorts(Offered(l.generations));
    OfferedMembers(l.generations);
    forall g ensures g in Active(l) <==> g in Offered(l.generations) {
      assert g in Active(l) <==> g in multiset(Active(l));
      assert g in Offered(l.generations) <==> g in multiset(Offered(l.generations));
    }
    assert |multiset(Active(l))| == |Active(l)|;
    assert |multiset(Offered(l.generations))| == |Offered(l.generations)|;
  }

  // ----- decision

  function Decide(enabled: bool, l: Ledger, now: Time, force: bool): Result<Decision> {
    if !Valid(l) then Err
    else if !enabled then Ok(Decision(false, Disabled, -1))
    else
      var cycle := Cycle(l.epoch, now);
      if cycle < 0 then Ok(Decision(false, BeforeEpoch, cycle))
      else if l.current.Some? && l.channelVerified != l.current then Ok(Decision(false, ChannelUnverified, cycle))
      else if exists i :: 0 <= i < |l.generations| && Withdrawn(l.generations[i]) then
        Ok(Decision(false, CleanupPending, cycle))
      else if l.pending.Some? then Ok(Decision(false, DraftPending, cycle))
      else if !force && cycle <= l.completedCycle then Ok(Decision(false, NotDue, cycle))
      else if !force && l.lastAttempt.Some? && now - l.lastAttempt.value < RETRY then
        Ok(Decision(false, RetryBackoff, cycle))
      else Ok(Decision(true, if force then Manual else SixDayCycle, cycle))
  }

  // ----- promote

  function Withdraw(gens: seq<Generation>, obsolete: seq<Generation>, at: Time): (r: seq<Generation>)
    ensures |r| == |gens|
  {
    seq(|gens|, i requires 0 <= i < |gens| =>
      if Listing(obsolete, gens[i].tag) then gens[i].(withdrawnAt := Some(at)) else gens[i])
  }

  function Dropped(l: Ledger): seq<Generation> {
    if |Active(l)| <= KEEP then [] else Active(l)[KEEP..]
  }

  function Appended(l: Ledger, g: Generation, cycle: int): Ledger {
    l.(generations := l.generations + [g], current := Some(g.tag), pending := None,
       nextGeneration := Max(l.nextGeneration, g.number + 1), completedCycle := Max(cycle, l.completedCycle))
  }

  function Promote(l: Ledger, g: Generation, cycle: int, now: Time): Result<Ledger> {
    if !Valid(l) then Err
    else if Listing(l.generations, g.tag) then
      if g in l.generations then Ok(l) else Err
    else if exists i :: 0 <= i < |l.generations| && Withdrawn(l.generations[i]) then Err
    else if exists i :: 0 <= i < |l.generations| && g.number <= l.generations[i].number then Err
    else
      var grown := Appended(l, g, cycle);
      if !Valid(grown) then Err
      else
        var result := grown.(generations := Withdraw(grown.generations, Dropped(grown), Recorded(now)));
        if Valid(result) then Ok(result) else Err
  }

  function Newest(descending: seq<Generation>): seq<Generation> {
    if |descending| <= KEEP then descending else descending[..KEEP]
  }

  predicate StrictlyFalling(gens: seq<Generation>) {
    forall i, j :: 0 <= i < j < |gens| ==> gens[i].number > gens[j].number
  }

  lemma {:induction false} SameFalling(a: seq<Generation>, b: seq<Generation>)
    requires StrictlyFalling(a) && StrictlyFalling(b)
    requires forall g :: g in a <==> g in b
    ensures a == b
  {
    assert a != [] ==> a[0] in b;
    assert b != [] ==> b[0] in a;
    if a != [] {
      assert a[0] == b[0];
      forall g ensures g in a[1..] <==> g in b[1..] {
        assert g in a <==> g == a[0] || g in a[1..];
        assert g in b <==> g == b[0] || g in b[1..];
      }
      SameFalling(a[1..], b[1..]);
    }
  }

  predicate Numbered(gens: seq<Generation>) {
    forall i, j :: 0 <= i < j < |gens| ==> gens[i].number != gens[j].number
  }

  lemma {:induction false} InsertFalls(g: Generation, d: seq<Generation>)
    requires StrictlyFalling(d)
    requires forall i :: 0 <= i < |d| ==> d[i].number != g.number
    ensures StrictlyFalling(Insert(g, d))
  {
    if d == [] || d[0].number < g.number {
    } else {
      InsertFalls(g, d[1..]);
      InsertSorts(g, d[1..]);
      var rest := Insert(g, d[1..]);
      forall k | 0 <= k < |rest| ensures d[0].number > rest[k].number {
        assert rest[k] in multiset(rest);
        assert rest[k] == g || rest[k] in d[1..];
      }
    }
  }

  lemma {:induction false} DescendingFalls(gens: seq<Generation>)
    requires Numbered(gens)
    ensures StrictlyFalling(Descending(gens))
  {
    if gens != [] {
      var front, last := gens[..|gens| - 1], gens[|gens| - 1];
      DescendingFalls(front);
      DescendingSorts(front);
      forall i | 0 <= i < |Descending(front)| ensures Descending(front)[i].number != last.number {
        assert Descending(front)[i] in multiset(Descending(front));
        assert Descending(front)[i] in front;
      }
      InsertFalls(last, Descending(front));
    }
  }

  lemma {:induction false} OfferedNumbered(gens: seq<Generation>)
    requires Numbered(gens)
    ensures Numbered(Offered(gens))
  {
    if gens != [] {
      var front, last := gens[..|gens| - 1], gens[|gens| - 1];
      OfferedNumbered(front);
      OfferedMembers(front);
      forall i | 0 <= i < |Offered(front)| ensures Offered(front)[i].number != last.number {
        assert Offered(front)[i] in front;
      }
    }
  }

  /** In a valid ledger two records never share a number. */
  lemma ActiveFalls(l: Ledger)
    requires Valid(l)
    ensures StrictlyFalling(Active(l))
  {
    assert Numbered(l.generations);
    OfferedNumbered(l.generations);
    DescendingFalls(Offered(l.generations));
  }

  lemma OfferedAppend(gens: seq<Generation>, g: Generation)
    requires !Withdrawn(g)
    ensures Offered(gens + [g]) == Offered(gens) + [g]
  {
    assert (gens + [g])[..|gens|] == gens;
  }

  lemma DescendingLeads(gens: seq<Generation>, g: Generation)
    requires forall h :: h in gens ==> h.number < g.number
    ensures Descending(gens + [g]) == [g] + Descending(gens)
  {
    assert (gens + [g])[..|gens|] == gens;
    DescendingSorts(gens);
    var d := Descending(gens);
    assert d != [] ==> d[0] in multiset(d);
    assert Descending(gens + [g]) == Insert(g, d);
    hide Descending;
  }

  lemma ActiveOfAppended(l: Ledger, g: Generation, cycle: int)
    requires forall i :: 0 <= i < |l.generations| ==> l.generations[i].number < g.number
    requires !Withdrawn(g)
    ensures Active(Appended(l, g, cycle)) == [g] + Active(l)
  {
    OfferedMembers(l.generations);
    OfferedAppend(l.generations, g);
    hide Offered, Descending;
    DescendingLeads(Offered(l.generations), g);
  }

  lemma DroppedApart(l: Ledger, h: Generation)
    requires Valid(l)
    requires h in Newest(Active(l))
    ensures !Listing(Dropped(l), h.tag)
  {
    ActiveIsOffered(l);
    ActiveFalls(l);
    var active := Active(l);
    var m :| 0 <= m < |Newest(active)| && Newest(active)[m] == h;
    forall k | 0 <= k < |Dropped(l)| ensures Dropped(l)[k].tag != h.tag {
      assert Dropped(l)[k] == active[k + KEEP];
      assert active[k + KEEP] in l.generations && h in l.generations;
    }
  }

  lemma KeptStaysOffered(grown: Ledger, r: Ledger, at: Time, h: Generation)
    requires Valid(grown)
    requires r == grown.(generations := Withdraw(grown.generations, Dropped(grown), at))
    ensures h in r.generations && !Withdrawn(h) <==> h in Newest(Active(grown))
  {
    ActiveIsOffered(grown);
    var active := Active(grown);
    assert active == Newest(active) + Dropped(grown);
    if h in r.generations && !Withdrawn(h) {
      var i :| 0 <= i < |r.generations| && r.generations[i] == h;
      assert grown.generations[i] == h && !Listing(Dropped(grown), h.tag);
      assert h in active && h !in Dropped(grown);
    }
    if h in Newest(active) {
      DroppedApart(grown, h);
      assert h in active;
      var i :| 0 <= i < |grown.generations| && grown.generations[i] == h;
      assert r.generations[i] == h;
    }
  }

  lemma PromotedIsOpen(l: Ledger, g: Generation, cycle: int, now: Time, r: Ledger)
    requires Promote(l, g, cycle, now) == Ok(r)
    requires !Listing(l.generations, g.tag)
    ensures !Withdrawn(g)
  {
    assert r.current == Some(r.generations[|l.generations|].tag);
  }

  lemma PromoteRecords(l: Ledger, g: Generation, cycle: int, now: Time, r: Ledger)
    requires Promote(l, g, cycle, now) == Ok(r)
    requires !Listing(l.generations, g.tag)
    ensures |r.generations| == |l.generations| + 1
    ensures forall i :: 0 <= i < |l.generations| ==>
      r.generations[i] == l.generations[i] || r.generations[i] == l.generations[i].(withdrawnAt := Some(Recorded(now)))
    ensures r.generations[|l.generations|] == g
    ensures forall i :: 0 <= i < |r.generations| ==> r.generations[i].number <= g.number < r.nextGeneration
  {
    var grown := Appended(l, g, cycle);
    NewestNotDropped(l, g, cycle, now, r);
    hide Valid, Dropped, Active;
    assert grown.generations[|l.generations|] == g;
    assert forall i :: 0 <= i < |l.generations| ==> grown.generations[i] == l.generations[i];
  }

  lemma NewestNotDropped(l: Ledger, g: Generation, cycle: int, now: Time, r: Ledger)
    requires Promote(l, g, cycle, now) == Ok(r)
    requires !Listing(l.generations, g.tag)
    ensures !Listing(Dropped(Appended(l, g, cycle)), g.tag)
  {
    var grown := Appended(l, g, cycle);
    PromotedIsOpen(l, g, cycle, now, r);
    ActiveOfAppended(l, g, cycle);
    assert Newest(Active(grown))[0] == g;
    DroppedApart(grown, g);
  }

  /** What one promotion does to any valid ledger: the new number leads, exactly the
      three newest stay on offer, and every record keeps its identity. */
  lemma PromoteRetains(l: Ledger, g: Generation, cycle: int, now: Time, r: Ledger)
    requires Promote(l, g, cycle, now) == Ok(r)
    requires !Listing(l.generations, g.tag)
    ensures Active(r) == Newest([g] + Active(l))
    ensures r.current == Some(g.tag) && r.pending == None
    ensures |r.generations| == |l.generations| + 1
    ensures forall i :: 0 <= i < |l.generations| ==>
      r.generations[i] == l.generations[i] || r.generations[i] == l.generations[i].(withdrawnAt := Some(Recorded(now)))
    ensures r.generations[|l.generations|] == g
    ensures forall i :: 0 <= i < |r.generations| ==> r.generations[i].number <= g.number < r.nextGeneration
    ensures r.completedCycle == Max(cycle, l.completedCycle)
  {
    var grown := Appended(l, g, cycle);
    PromoteRecords(l, g, cycle, now, r);
    PromotedIsOpen(l, g, cycle, now, r);
    ActiveOfAppended(l, g, cycle);
    ActiveAfter(grown, r, Recorded(now));
    hide Valid, Dropped, Active, Withdraw;
  }

  lemma ActiveAfter(grown: Ledger, r: Ledger, at: Time)
    requires Valid(grown) && Valid(r)
    requires r == grown.(generations := Withdraw(grown.generations, Dropped(grown), at))
    ensures Active(r) == Newest(Active(grown))
  {
    ActiveIsOffered(r);
    ActiveFalls(grown);
    ActiveFalls(r);
    forall h ensures h in Active(r) <==> h in Newest(Active(grown)) {
      KeptStaysOffered(grown, r, at, h);
    }
    hide Valid, Dropped, Active;
    SameFalling(Active(r), Newest(Active(grown)));
  }

  /** Promoting the generation that is already promoted changes nothing, at any later time. */
  lemma PromoteIdempotent(l: Ledger, g: Generation, cycle: int, now: Time, r: Ledger, cycle': int, now': Time)
    requires Promote(l, g, cycle, now) == Ok(r)
    ensures Promote(r, g, cycle', now') == Ok(r)
  {
    if !Listing(l.generations, g.tag) {
      PromoteRetains(l, g, cycle, now, r);
      assert r.generations[|l.generations|] == g;
    }
  }

  /** The loop of `promote`: copy, append, then mark each generation past the kept ones. */
  method PromoteLedger(l: Ledger, g: Generation, cycle: int, now: Time) returns (promoted: Result<Ledger>)
    ensures promoted == Promote(l, g, cycle, now)
  {
    if !Valid(l) {
      return Err;
    }
    if Listing(l.generations, g.tag) {
      return if g in l.generations then Ok(l) else Err;
    }
    if (exists i :: 0 <= i < |l.generations| && Withdrawn(l.generations[i]))
      || (exists i :: 0 <= i < |l.generations| && g.number <= l.generations[i].number) {
      return Err;
    }
    var grown := Appended(l, g, cycle);
    if !Valid(grown) {
      return Err;
    }
    var gens := WithdrawEach(grown, Recorded(now));
    var result := grown.(generations := gens);
    promoted := if Valid(result) then Ok(result) else Err;
  }

  method WithdrawEach(grown: Ledger, at: Time) returns (gens: seq<Generation>)
    requires Valid(grown)
    ensures gens == Withdraw(grown.generations, Dropped(grown), at)
  {
    var obsolete := Dropped(grown);
    gens := grown.generations;
    assert gens == Withdraw(gens, obsolete[..0], at);
    hide Valid, Dropped;
    for k := 0 to |obsolete|
      invariant gens == Withdraw(grown.generations, obsolete[..k], at)
    {
      var i := FirstWithTag(grown, gens, obsolete, k, at);
      WithdrawNext(grown, obsolete, k, i, at);
      gens := gens[i := gens[i].(withdrawnAt := Some(at))];
    }
    assert obsolete[..|obsolete|] == obsolete;
  }

  method FirstWithTag(grown: Ledger, gens: seq<Generation>, obsolete: seq<Generation>, k: nat, at: Time) returns (i: nat)
    requires Valid(grown) && obsolete == Dropped(grown) && k < |obsolete|
    requires gens == Withdraw(grown.generations, obsolete[..k], at)
    ensures i < |gens| && gens[i].tag == obsolete[k].tag
  {
    ghost var withdrawn := obsolete[k];
    assert withdrawn == Active(grown)[KEEP + k];
    ActiveIsOffered(grown);
    assert withdrawn in grown.generations;
    ghost var place :| 0 <= place < |grown.generations| && grown.generations[place] == withdrawn;
    assert gens[place].tag == withdrawn.tag;
    i := 0;
    while gens[i].tag != obsolete[k].tag
      invariant i <= place
      decreases place - i
    {
      i := i + 1;
    }
  }

  lemma WithdrawNext(grown: Ledger, obsolete: seq<Generation>, k: nat, i: nat, at: Time)
    requires Valid(grown) && k < |obsolete| && i < |grown.generations|
    requires grown.generations[i].tag == obsolete[k].tag
    ensures var gens := Withdraw(grown.generations, obsolete[..k], at);
      gens[i := gens[i].(withdrawnAt := Some(at))] == Withdraw(grown.generations, obsolete[..k + 1], at)
  {
    var gens := Withdraw(grown.generations, obsolete[..k], at);
    var next := Withdraw(grown.generations, obsolete[..k + 1], at);
    forall j | 0 <= j < |gens| ensures next[j] == if j == i then gens[j].(withdrawnAt := Some(at)) else gens[j] {
      var tag := grown.generations[j].tag;
      if Listing(obsolete[..k + 1], tag) {
        var m :| 0 <= m < |obsolete[..k + 1]| && obsolete[..k + 1][m].tag == tag;
        if m < k {
          assert obsolete[..k][m].tag == tag;
        }
      }
      if Listing(obsolete[..k], tag) {
        var m :| 0 <= m < |obsolete[..k]| && obsolete[..k][m].tag == tag;
        assert obsolete[..k + 1][m].tag == tag;
      }
      if j == i {
        assert obsolete[..k + 1][k].tag == tag;
      }
    }
  }

  // ----- cleanup_plan

  predicate Expired(g: Generation, now: Time) {
    g.withdrawnAt.Some? && now - g.withdrawnAt.value >= GRACE
  }

  predicate Kept(l: Ledger, tag: Tag) {
    Listing(if |Active(l)| <= KEEP then Active(l) else Active(l)[..KEEP], tag)
  }

  predicate Removable(l: Ledger, g: Generation, now: Time) {
    Withdrawn(g) && !Kept(l, g.tag) && l.current != Some(g.tag) && Expired(g, now)
  }

  predicate Drifted(remote: map<int, Listed>, g: Generation) {
    g.releaseId in remote && (remote[g.releaseId].tag != g.tag || remote[g.releaseId].draft)
  }

  function ItemOf(g: Generation, remote: map<int, Listed>): Item {
    Item(g.releaseId, g.tag, g.tagCommit, g.releaseId in remote, false)
  }

  function PlanOf(l: Ledger, gens: seq<Generation>, remote: map<int, Listed>, now: Time): Result<seq<Item>> {
    if gens == [] then Ok([])
    else
      var n := |gens| - 1;
      var g := gens[n];
      match PlanOf(l, gens[..n], remote, now)
      case Err => Err
      case Ok(items) =>
        if !Removable(l, g, now) then Ok(items)
        else if Drifted(remote, g) then Err
        else Ok(items + [ItemOf(g, remote)])
  }

  /** The loop of `cleanup_plan`, one generation at a time. */
  method CleanupPlan(l: Ledger, remote: map<int, Listed>, now: Time) returns (plan: Result<seq<Item>>)
    ensures plan == if Valid(l) then PlanOf(l, l.generations, remote, now) else Err
  {
    if !Valid(l) {
      return Err;
    }
    var items := [];
    for n := 0 to |l.generations|
      invariant PlanOf(l, l.generations[..n], remote, now) == Ok(items)
    {
      hide PlanOf, Valid, Removable, Drifted, ItemOf;
      var g := l.generations[n];
      PlanNext(l, l.generations, n, remote, now);
      if !Removable(l, g, now) {
        continue;
      }
      if Drifted(remote, g) {
        DriftStops(l, n + 1, remote, now);
        return Err;
      }
      items := items + [ItemOf(g, remote)];
    }
    assert l.generations[..|l.generations|] == l.generations;
    plan := Ok(items);
  }

  lemma PlanNext(l: Ledger, gens: seq<Generation>, n: nat, remote: map<int, Listed>, now: Time)
    requires n < |gens|
    ensures PlanOf(l, gens[..n + 1], remote, now) ==
      match PlanOf(l, gens[..n], remote, now)
      case Err => Err
      case Ok(items) =>
        if !Removable(l, gens[n], now) then Ok(items)
        else if Drifted(remote, gens[n]) then Err
        else Ok(items + [ItemOf(gens[n], remote)])
  {
    hide Removable, Drifted, ItemOf;
    assert gens[..n + 1][..n] == gens[..n];
  }

  lemma {:induction false} DriftStops(l: Ledger, n: nat, remote: map<int, Listed>, now: Time)
    requires n <= |l.generations|
    requires PlanOf(l, l.generations[..n], remote, now) == Err
    ensures PlanOf(l, l.generations, remote, now) == Err
    decreases |l.generations| - n
  {
    if n == |l.generations| {
      assert l.generations[..n] == l.generations;
    } else {
      assert l.generations[..n + 1][..n] == l.generations[..n];
      DriftStops(l, n + 1, remote, now);
    }
  }
}
