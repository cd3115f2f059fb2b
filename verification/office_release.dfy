/** The operations of the Office workflow as the calls they make: gate, checkpoint,
    cleanup, stage, publish and channel verification. */
module OfficeRelease {
  import opened OfficeModel
  import opened OfficeRemote

  function Listings(w: World): map<int, Listed> {
    map id | id in w.releases :: Listed(w.releases[id].tag, w.releases[id].draft)
  }

  predicate ChannelAssured(l: Ledger, pointer: Option<Url>) {
    l.current.Some? ==>
      && l.channelVerified == l.current
      && l.metadataCommit.Some? && Owned(l.current.value)
      && pointer == Some(Snapshot(l.metadataCommit.value, l.current.value))
  }

  predicate PendingExpired(l: Ledger, now: Time) {
    l.pending.Some? && now - l.pending.value.createdAt >= GRACE
  }

  function PendingItems(l: Ledger, remote: map<int, Listed>, now: Time): Result<seq<Item>> {
    if !PendingExpired(l, now) then Ok([])
    else
      var p := l.pending.value;
      if p.releaseId in remote && remote[p.releaseId].tag != p.tag then Err
      else if l.current == Some(p.tag) then Err
      else Ok([Item(p.releaseId, p.tag, p.tagCommit, p.releaseId in remote, true)])
  }

  function CleanItems(w: World): Result<seq<Item>> {
    if !Valid(w.ledger) then Err
    else
      match PlanOf(w.ledger, w.ledger.generations, Listings(w), w.now)
      case Err => Err
      case Ok(withdrawn) =>
        match PendingItems(w.ledger, Listings(w), w.now)
        case Err => Err
        case Ok(pending) => Ok(withdrawn + pending)
  }

  function Dropping(gens: seq<Generation>, tag: Tag): seq<Generation> {
    if gens == [] then []
    else
      var rest := Dropping(gens[..|gens| - 1], tag);
      if gens[|gens| - 1].tag == tag then rest else rest + [gens[|gens| - 1]]
  }

  function Without(l: Ledger, item: Item): Ledger {
    if item.pending then l.(pending := None) else l.(generations := Dropping(l.generations, item.tag))
  }

  predicate TagRefused(w: World, item: Item) {
    !Owned(item.tag) || (item.tag in w.tags && w.tags[item.tag] != item.tagCommit)
  }

  function Removal(w: World, item: Item): seq<Action> {
    (if item.releaseExists then [DeleteRelease(item.releaseId)] else [])
    + (if item.tag in w.tags then [DeleteTag(item.tag)] else [])
  }

  function Removed(w: World, item: Item): World {
    w.(releases := if item.releaseExists then w.releases - {item.releaseId} else w.releases,
       tags := w.tags - {item.tag})
  }

  datatype Cleaned = Cleaned(plan: Plan, ledger: Ledger)

  function Deletions(w: World, items: seq<Item>, l: Ledger): Cleaned
    decreases |items|
  {
    if items == [] then Cleaned(Plan([CommitLedger(l)], true), l)
    else if TagRefused(w, items[0]) then Cleaned(Plan([], false), l)
    else
      var rest := Deletions(Removed(w, items[0]), items[1..], Without(l, items[0]));
      Cleaned(Plan(Removal(w, items[0]) + rest.plan.actions, rest.plan.ok), rest.ledger)
  }

  function Clean(w: World, enabled: bool, apply: bool): Cleaned {
    if apply && !enabled then Cleaned(Plan([], false), w.ledger)
    else
      match CleanItems(w)
      case Err => Cleaned(Plan([], false), w.ledger)
      case Ok(items) =>
        if !apply || items == [] then Cleaned(Plan([], true), w.ledger)
        else if !ChannelAssured(w.ledger, w.pointer) then Cleaned(Plan([], false), w.ledger)
        else Deletions(w, items, w.ledger)
  }

  function Reserve(lockRelease: int, l: Ledger): int {
    Max(lockRelease + 1, l.nextGeneration)
  }

  function Claimed(l: Ledger, run: Run, now: Time, cycle: int, generation: int): Ledger {
    l.(lastAttempt := Some(Recorded(now)), nextGeneration := generation + 1,
       reservation := Some(Reservation(run, cycle, generation)))
  }

  /** What the gate does after the cleanup, on the ledger the cleanup left. */
  function Claiming(l: Ledger, now: Time, run: Run, force: bool, pilot: bool, enabled: bool, lockRelease: int): Plan {
    match Decide(enabled || pilot, l, now, force)
    case Err => Plan([], false)
    case Ok(d) =>
      if d.due && !pilot then
        var generation := Reserve(lockRelease, l);
        Plan([CommitClaim(Claimed(l, run, now, d.cycle, generation),
                          Claim(now, generation, d.cycle, force, l.completedCycle))], true)
      else if d.reason == ChannelUnverified && !pilot
        && (l.lastVerificationAttempt.None? || force || now - l.lastVerificationAttempt.value >= RETRY) then
        Plan([CommitLedger(l.(lastVerificationAttempt := Some(Recorded(now))))], true)
      else Plan([], true)
  }

  function GateCleaning(w: World, pilot: bool, enabled: bool): Cleaned {
    if !pilot && enabled && (w.ledger.current.None? || w.ledger.channelVerified == w.ledger.current)
    then Clean(w, enabled, true)
    else Cleaned(Plan([], true), w.ledger)
  }

  function Gate(w: World, run: Run, force: bool, pilot: bool, enabled: bool, lockRelease: int): Plan {
    if !Valid(w.ledger) then Plan([], false)
    else
      var cleaned := GateCleaning(w, pilot, enabled);
      if !cleaned.plan.ok then cleaned.plan
      else
        var claiming := Claiming(cleaned.ledger, w.now, run, force, pilot, enabled, lockRelease);
        Plan(cleaned.plan.actions + claiming.actions, claiming.ok)
  }

  function Checkpoint(w: World, run: Run): Plan {
    var l := w.ledger;
    if !Valid(l) || l.reservation.None? || l.reservation.value.run != run then Plan([], false)
    else
      Plan([CommitLedger(l.(completedCycle := Max(l.completedCycle, l.reservation.value.cycle),
                            lastVerifiedAt := Some(Recorded(w.now))))], true)
  }

  function Cleanup(w: World, enabled: bool, apply: bool): Plan {
    if !Valid(w.ledger) then Plan([], false) else Clean(w, enabled, apply).plan
  }

  predicate OwnsReservation(l: Ledger, run: Run, generation: int) {
    Valid(l) && l.reservation.Some? && l.reservation.value.run == run && l.reservation.value.generation == generation
  }

  function Tracked(l: Ledger, tag: Tag, id: int, now: Time, run: Run): Ledger {
    l.(pending := Some(Pending(tag, id, Recorded(now), run.sha)))
  }

  predicate Tracks(l: Ledger, id: int) {
    l.pending.Some? && l.pending.value.releaseId == id
  }

  ghost function Stage(w: World, run: Run, pilot: bool, rpmRelease: int, id: int): Plan {
    if pilot then Plan([], true)
    else if !OwnsReservation(w.ledger, run, rpmRelease) then Plan([], false)
    else
      var tag := Office(rpmRelease);
      if !Has(w.releases, tag) then
        Plan([CreateDraft(id, tag, run.sha), CommitLedger(Tracked(w.ledger, tag, id, w.now, run))], true)
      else
        var found := Find(w.releases, tag);
        Plan([], w.releases[found].draft && Tracks(w.ledger, found))
  }

  function Promoted(r: Ledger, snapshot: Commit, now: Time): Ledger {
    r.(metadataCommit := Some(snapshot), channelVerified := None, lastVerifiedAt := Some(Recorded(now)))
  }

  /** The part of `publish` after the release is known: make it public, promote it in
      the ledger, stage the metadata, switch the pointer, confirm the channel. */
  function Promotion(l: Ledger, now: Time, run: Run, id: int, draft: bool, rpmRelease: int,
                     snapshot: Commit, inventory: nat): Plan
    requires l.reservation.Some?
  {
    var tag := Office(rpmRelease);
    var opening := if draft then [PublishRelease(id)] else [];
    var g := Generation(rpmRelease, tag, id, run.sha, Recorded(now), inventory, None);
    match Promote(l, g, l.reservation.value.cycle, now)
    case Err => Plan(opening, false)
    case Ok(r) =>
      var promoted := Promoted(r, snapshot, now);
      var confirmed := promoted.(channelVerified := Some(tag));
      Plan(opening + [CommitSnapshot(snapshot, tag), OfferRelease(id),
                      CommitPromotion(promoted, Snapshot(snapshot, tag)), CommitLedger(confirmed)],
           ChannelAssured(confirmed, Some(Snapshot(snapshot, tag))))
  }

  ghost function Publish(w: World, run: Run, enabled: bool, rpmRelease: int, id: int,
                         snapshot: Commit, inventory: nat): Plan {
    var tag := Office(rpmRelease);
    if !enabled || !OwnsReservation(w.ledger, run, rpmRelease) then Plan([], false)
    else if !Has(w.releases, tag) then
      var l := Tracked(w.ledger, tag, id, w.now, run);
      var rest := Promotion(l, w.now, run, id, true, rpmRelease, snapshot, inventory);
      Plan([CreateDraft(id, tag, run.sha), CommitLedger(l)] + rest.actions, rest.ok)
    else
      var found := Find(w.releases, tag);
      if !Tracks(w.ledger, found) then Plan([], false)
      else Promotion(w.ledger, w.now, run, found, w.releases[found].draft, rpmRelease, snapshot, inventory)
  }

  function IdOf(gens: seq<Generation>, tag: Tag): int
    requires Listing(gens, tag)
  {
    if gens[0].tag == tag then gens[0].releaseId else IdOf(gens[1..], tag)
  }

  function Verify(w: World): Plan {
    var l := w.ledger;
    if !Valid(l) || l.current.None? then Plan([], false)
    else
      var confirmed := l.(channelVerified := l.current);
      if ChannelAssured(confirmed, w.pointer)
      then Plan([CommitLedger(confirmed), OfferRelease(IdOf(l.generations, l.current.value))], true)
      else Plan([CommitLedger(confirmed)], false)
  }

  // ----- runs

  /** One process: which operation, with the inputs it takes from outside. The numbers
      `id` and `snapshot` are what GitHub will answer if a draft or a commit is made. */
  datatype Op =
    | DoGate(run: Run, force: bool, pilot: bool, enabled: bool, lockRelease: int)
    | DoCheckpoint(run: Run)
    | DoCleanup(enabled: bool, apply: bool)
    | DoStage(run: Run, pilot: bool, rpmRelease: int, id: int)
    | DoPublish(run: Run, enabled: bool, rpmRelease: int, id: int, snapshot: Commit, inventory: nat)
    | DoVerify

  /** A process started at `now` that dies after `calls` changing calls. */
  datatype Step = Step(now: Time, op: Op, calls: nat)

  ghost function PlanFor(w: World, op: Op): Plan {
    match op
    case DoGate(run, force, pilot, enabled, lockRelease) => Gate(w, run, force, pilot, enabled, lockRelease)
    case DoCheckpoint(run) => Checkpoint(w, run)
    case DoCleanup(enabled, apply) => Cleanup(w, enabled, apply)
    case DoStage(run, pilot, rpmRelease, id) => Stage(w, run, pilot, rpmRelease, id)
    case DoPublish(run, enabled, rpmRelease, id, snapshot, inventory) =>
      Publish(w, run, enabled, rpmRelease, id, snapshot, inventory)
    case DoVerify => Verify(w)
  }

  function At(w: World, now: Time): World {
    w.(now := now)
  }

  ghost function Next(w: World, s: Step): World {
    Perform(At(w, s.now), PlanFor(At(w, s.now), s.op).actions, s.calls)
  }

  /** Outside facts about one process: the clock does not go back, and GitHub answers
      with a release id and a commit it has not used before. */
  ghost predicate Admissible(w: World, s: Step) {
    && w.now <= s.now
    && (s.op.DoStage? || s.op.DoPublish? ==> s.op.id >= 1 && s.op.id !in w.issued)
    && (s.op.DoPublish? ==> s.op.snapshot !in w.snapshots)
  }

  /** A number claimed still fits the nine digits of a tag. */
  predicate Fitting(actions: seq<Action>) {
    forall a <- actions :: a.CommitClaim? ==> a.claim.generation <= MAX_GENERATION
  }

  ghost predicate Fits(w: World, s: Step) {
    s.op.DoGate? ==> Fitting(PlanFor(At(w, s.now), s.op).actions)
  }

  ghost function After(w: World, steps: seq<Step>): World
    decreases |steps|
  {
    if steps == [] then w else After(Next(w, steps[0]), steps[1..])
  }

  ghost predicate Allowed(w: World, steps: seq<Step>)
    decreases |steps|
  {
    steps != [] ==> Admissible(w, steps[0]) && Fits(w, steps[0]) && Allowed(Next(w, steps[0]), steps[1..])
  }

  /** The exported component before its first workflow run: a new ledger, no Office
      release or tag, anything else on the remote. */
  predicate Initial(w: World) {
    && w.ledger == NewLedger(w.ledger.epoch) && w.ledger.epoch <= w.now
    && w.pointer == None && w.claims == []
    && (forall id :: id in w.releases ==> id in w.issued)
    && (forall id :: id in w.releases ==> w.releases[id].tag == w.issued[id])
    && (forall id :: id in w.issued ==> w.issued[id].Foreign?)
    && (forall tag :: tag in w.tags ==> tag.Foreign?)
  }
}
