/** The invariant of the Office channel over every run, crashes included. */
module OfficeInvariant {
  import opened OfficeModel
  import opened OfficeRemote
  import opened OfficeRelease

  /** Retention: numbers grow along the list, the newest is current, at most three are
      on offer and a fourth is the single withdrawn one. */
  ghost predicate Shaped(l: Ledger) {
    && Valid(l)
    && |l.generations| <= KEEP + 1
    && (forall i, j :: 0 <= i < j < |l.generations| ==> l.generations[i].number < l.generations[j].number)
    && (forall i :: 0 <= i < |l.generations| ==>
          (Withdrawn(l.generations[i]) <==> i == 0 && |l.generations| == KEEP + 1))
    && (l.generations != [] ==> l.current == Some(l.generations[|l.generations| - 1].tag))
    && (l.channelVerified.Some? ==> l.channelVerified == l.current)
  }

  ghost predicate Unreserved(l: Ledger) {
    l.generations == [] && l.pending == None && l.lastAttempt == None
  }

  /** The reservation is the largest number in use; a draft carries exactly that number
      and never coexists with a withdrawn generation. */
  ghost predicate Reserved(l: Ledger) {
    match l.reservation
    case None => Unreserved(l)
    case Some(r) =>
      && 1 <= r.generation <= MAX_GENERATION && r.generation < l.nextGeneration
      && l.lastAttempt.Some?
      && (forall i :: 0 <= i < |l.generations| ==> l.generations[i].number <= r.generation)
      && (|l.generations| == KEEP + 1 ==> l.generations[KEEP].number == r.generation)
      && (l.pending.Some? ==>
            && |l.generations| <= KEEP
            && l.pending.value.tag == Office(r.generation) && l.pending.value.tagCommit == r.run.sha
            && l.lastAttempt.value <= l.pending.value.createdAt
            && forall i :: 0 <= i < |l.generations| ==> l.generations[i].number < r.generation)
  }

  ghost predicate Timely(l: Ledger, now: Time) {
    && l.epoch <= now
    && l.completedCycle <= Cycle(l.epoch, now)
    && (l.reservation.Some? ==> 0 <= l.reservation.value.cycle <= Cycle(l.epoch, now))
    && (l.lastAttempt.Some? ==> l.lastAttempt.value <= now)
    && (l.lastVerificationAttempt.Some? ==> l.lastVerificationAttempt.value <= now)
    && (l.pending.Some? ==> l.pending.value.createdAt <= now)
    && (forall i :: 0 <= i < |l.generations| && l.generations[i].withdrawnAt.Some? ==> l.generations[i].withdrawnAt.value <= now)
  }

  /** The public pointer names the current generation's own metadata snapshot. */
  ghost predicate Pointed(w: World) {
    w.ledger.current.Some? ==>
      && w.ledger.metadataCommit.Some?
      && w.pointer == Some(Snapshot(w.ledger.metadataCommit.value, w.ledger.current.value))
      && w.ledger.metadataCommit.value in w.snapshots
      && w.snapshots[w.ledger.metadataCommit.value] == w.ledger.current.value
  }

  ghost predicate Catalogued(w: World) {
    && (forall id :: id in w.releases ==> id in w.issued && w.issued[id] == w.releases[id].tag)
    && (forall id :: id in w.issued && w.issued[id].Office? ==> w.issued[id].number < w.ledger.nextGeneration)
    && (forall tag :: tag in w.tags && tag.Office? ==> tag.number < w.ledger.nextGeneration)
    && (forall a, b ::
          (a in w.releases && b in w.releases && w.releases[a].tag.Office? && w.releases[a].tag == w.releases[b].tag)
          ==> a == b)
  }

  ghost predicate Pinned(w: World) {
    && (w.ledger.reservation.Some? ==>
          var r := w.ledger.reservation.value;
          && (forall id :: id in w.releases && w.releases[id].tag == Office(r.generation) ==>
                w.releases[id].target == r.run.sha)
          && (Office(r.generation) in w.tags ==> w.tags[Office(r.generation)] == r.run.sha))
    && (forall i :: 0 <= i < |w.ledger.generations| ==>
          var g := w.ledger.generations[i];
          && g.releaseId in w.issued && w.issued[g.releaseId] == g.tag
          && (g.tag in w.tags ==> w.tags[g.tag] == g.tagCommit))
    && (w.ledger.pending.Some? ==>
          var p := w.ledger.pending.value;
          p.releaseId >= 1 && p.releaseId in w.issued && w.issued[p.releaseId] == p.tag)
  }

  ghost predicate Intact(w: World, g: Generation) {
    && g.releaseId in w.releases
    && w.releases[g.releaseId].tag == g.tag
    && !w.releases[g.releaseId].draft && !w.releases[g.releaseId].prerelease
    && g.tag in w.tags && w.tags[g.tag] == g.tagCommit
  }

  /** Every generation still inside its grace has its public release and pinned tag; an
      expired one may be partly gone, but the release goes before the tag. */
  ghost predicate Retained(w: World) {
    && (forall i :: 0 <= i < |w.ledger.generations| ==>
          var g := w.ledger.generations[i];
          (!Expired(g, w.now) || g.releaseId in w.releases) ==> Intact(w, g))
    && (w.ledger.pending.Some? ==>
          var p := w.ledger.pending.value;
          && (w.now - p.createdAt < GRACE ==> p.releaseId in w.releases)
          && (p.releaseId in w.releases && !w.releases[p.releaseId].draft ==> p.tag in w.tags))
  }

  ghost predicate Recalled(w: World) {
    && (w.claims == [] <==> w.ledger.reservation == None)
    && (forall i :: 0 <= i < |w.claims| ==>
          && w.claims[i].time <= w.now && w.claims[i].generation < w.ledger.nextGeneration
          && w.claims[i].cycle == Cycle(w.ledger.epoch, w.claims[i].time)
          && -1 <= w.claims[i].completed <= w.ledger.completedCycle
          && (!w.claims[i].forced ==> w.claims[i].cycle > w.claims[i].completed))
    && (w.claims != [] ==>
          var c := w.claims[|w.claims| - 1];
          && w.ledger.reservation.value.generation == c.generation && w.ledger.reservation.value.cycle == c.cycle
          && w.ledger.lastAttempt == Some(Recorded(c.time)))
  }

  /** Claims: numbers strictly grow, times never go back, and an unforced claim comes at
      least the retry time after the recorded time of every earlier one. */
  ghost predicate Spaced(claims: seq<Claim>) {
    forall i, j :: 0 <= i < j < |claims| ==>
      && claims[i].generation < claims[j].generation
      && claims[i].time <= claims[j].time
      && claims[i].completed <= claims[j].completed
      && (!claims[j].forced ==> claims[j].time - Recorded(claims[i].time) >= RETRY)
  }

  /** A tag of the reservation still held can only have lost its release to an expiry. */
  ghost predicate Traced(w: World) {
    w.ledger.reservation.Some? && w.ledger.lastAttempt.Some? ==>
      forall id :: id in w.issued && w.issued[id] == Office(w.ledger.reservation.value.generation) ==>
        id in w.releases || w.now - w.ledger.lastAttempt.value >= GRACE
  }

  ghost predicate Inv(w: World) {
    && Shaped(w.ledger) && Reserved(w.ledger) && Timely(w.ledger, w.now)
    && Pointed(w) && Catalogued(w) && Pinned(w) && Retained(w)
    && Recalled(w) && Spaced(w.claims) && Traced(w)
  }

  /** What may change from an earlier world to a later one of the same run. */
  ghost predicate Evolves(w: World, v: World) {
    && w.now <= v.now && w.ledger.epoch == v.ledger.epoch
    && w.ledger.completedCycle <= v.ledger.completedCycle
    && w.ledger.nextGeneration <= v.ledger.nextGeneration
    && w.claims <= v.claims
    && (forall id :: id in w.issued ==> id in v.issued && v.issued[id] == w.issued[id])
    && (forall i :: |w.claims| <= i < |v.claims| ==>
          && v.claims[i].generation >= w.ledger.nextGeneration
          && v.claims[i].time >= w.now
          && (!v.claims[i].forced ==> v.claims[i].cycle > w.ledger.completedCycle))
  }

  lemma EvolvesOn(u: World, v: World, w: World)
    requires Evolves(u, v) && Evolves(v, w)
    ensures Evolves(u, w)
  {
    assert forall i :: |u.claims| <= i < |v.claims| ==> w.claims[i] == v.claims[i];
  }

  ghost predicate ExpiredRelease(w: World, id: int) {
    || (exists i :: 0 <= i < |w.ledger.generations| && w.ledger.generations[i].releaseId == id
          && Expired(w.ledger.generations[i], w.now))
    || (PendingExpired(w.ledger, w.now) && w.ledger.pending.value.releaseId == id)
  }

  ghost predicate ExpiredTag(w: World, tag: Tag, commit: Commit) {
    || (exists i :: 0 <= i < |w.ledger.generations| && w.ledger.generations[i].tag == tag
          && w.ledger.generations[i].tagCommit == commit && Expired(w.ledger.generations[i], w.now))
    || (PendingExpired(w.ledger, w.now) && w.ledger.pending.value.tag == tag && w.ledger.pending.value.tagCommit == commit)
  }

  /** What a single call may do. Deletions touch only tracked items whose grace is over,
      and only behind a verified channel; a draft only takes the reserved number. */
  ghost predicate Lawful(w: World, a: Action) {
    match a
    case CreateDraft(id, tag, target) =>
      w.ledger.reservation.Some? && tag == Office(w.ledger.reservation.value.generation) && !Has(w.releases, tag)
    case DeleteRelease(id) => ChannelAssured(w.ledger, w.pointer) && ExpiredRelease(w, id)
    case DeleteTag(tag) =>
      ChannelAssured(w.ledger, w.pointer) && tag in w.tags && ExpiredTag(w, tag, w.tags[tag])
    case CommitPromotion(l, url) =>
      l.current.Some? && l.channelVerified == None && l.metadataCommit.Some?
      && url == Snapshot(l.metadataCommit.value, l.current.value)
    case _ => true
  }

  ghost predicate Good(w: World, a: Action) {
    Inv(Apply(w, a)) && Evolves(w, Apply(w, a)) && Lawful(w, a)
  }

  lemma InitialInv(w: World)
    requires Initial(w)
    ensures Inv(w)
  {
  }

  lemma TickKeeps(w: World, now: Time)
    requires Inv(w) && w.now <= now
    ensures Inv(At(w, now))
  {
    CycleMonotone(w.ledger.epoch, w.now, now);
  }

  // ----- what each call keeps

  lemma CreateKeeps(w: World, id: int)
    requires Inv(w) && w.ledger.reservation.Some? && id !in w.issued && id >= 1
    requires !Has(w.releases, Office(w.ledger.reservation.value.generation))
    ensures Inv(Apply(w, CreateDraft(id, Office(w.ledger.reservation.value.generation), w.ledger.reservation.value.run.sha)))
  {
    var after := Apply(w, CreateDraft(id, Office(w.ledger.reservation.value.generation), w.ledger.reservation.value.run.sha));
    assert Retained(after) && Pinned(after) by {
      hide Shaped, Timely, Pointed, Recalled, Spaced, Traced;
    }
    assert Catalogued(after) by {
      hide Shaped, Timely, Pointed, Recalled, Spaced, Traced, Retained, Pinned;
    }
    hide Shaped, Timely, Retained, Pinned, Spaced, Reserved, Catalogued;
  }

  /** While no release carries the reserved number, the family is not on offer under it. */
  lemma NotYetOffered(w: World)
    requires Inv(w) && w.ledger.reservation.Some?
    requires !Has(w.releases, Office(w.ledger.reservation.value.generation))
    ensures |w.ledger.generations| <= KEEP
    ensures forall i :: 0 <= i < |w.ledger.generations| ==>
      w.ledger.generations[i].number < w.ledger.reservation.value.generation
  {
    var gens := w.ledger.generations;
    assert gens != [] ==> Intact(w, gens[|gens| - 1]);
  }

  /** A fresh draft carries the reserved number and no generation does yet. */
  ghost predicate Trackable(w: World, id: int) {
    && w.ledger.reservation.Some? && id >= 1
    && id in w.releases && w.releases[id].draft
    && w.releases[id].tag == Office(w.ledger.reservation.value.generation)
    && |w.ledger.generations| <= KEEP
    && forall i :: 0 <= i < |w.ledger.generations| ==>
         w.ledger.generations[i].number < w.ledger.reservation.value.generation
  }

  ghost function TrackedLedger(w: World, id: int): Ledger
    requires Trackable(w, id)
  {
    Tracked(w.ledger, w.releases[id].tag, id, w.now, w.ledger.reservation.value.run)
  }

  lemma TrackedShape(w: World, id: int)
    requires Inv(w) && Trackable(w, id)
    ensures Shaped(TrackedLedger(w, id))
  {
    hide Timely, Pointed, Catalogued, Pinned, Retained, Recalled, Spaced, Traced;
  }

  lemma TrackedReserved(w: World, id: int)
    requires Inv(w) && Trackable(w, id)
    ensures Reserved(TrackedLedger(w, id)) && Timely(TrackedLedger(w, id), w.now)
  {
    RecordedBounds(w.now);
    var c := w.claims[|w.claims| - 1];
    assert Recorded(c.time) <= Recorded(w.now);
    hide Shaped, Pointed, Catalogued, Pinned, Retained, Spaced, Traced, Recorded;
  }

  lemma TrackedKept(w: World, id: int)
    requires Inv(w) && Trackable(w, id)
    ensures (var after := w.(ledger := TrackedLedger(w, id));
             Catalogued(after) && Pinned(after) && Retained(after))
  {
    hide Shaped, Reserved, Timely, Pointed, Recalled, Spaced, Traced;
  }

  lemma TrackKeeps(w: World, id: int)
    requires Inv(w) && Trackable(w, id)
    ensures Inv(Apply(w, CommitLedger(TrackedLedger(w, id))))
  {
    TrackedShape(w, id);
    TrackedReserved(w, id);
    TrackedKept(w, id);
    hide Shaped, Reserved, Timely, Catalogued, Pinned, Retained, Spaced, Trackable;
  }

  lemma PublishKeeps(w: World, id: int)
    requires Inv(w) && Tracks(w.ledger, id) && id in w.releases
    ensures Inv(Apply(w, PublishRelease(id)))
  {
    var after := Apply(w, PublishRelease(id));
    assert Retained(after) by {
      hide Timely, Pointed, Pinned, Recalled, Spaced, Traced;
    }
    assert Pinned(after) && Catalogued(after) by {
      hide Timely, Pointed, Retained, Recalled, Spaced, Traced, Shaped;
    }
    hide Shaped, Reserved, Timely, Catalogued, Pinned, Retained, Spaced;
  }

  lemma SnapshotKeeps(w: World, commit: Commit, tag: Tag)
    requires Inv(w) && commit !in w.snapshots
    ensures Inv(Apply(w, CommitSnapshot(commit, tag)))
  {
    hide Shaped, Reserved, Timely, Spaced;
  }

  lemma OfferKeeps(w: World, id: int)
    requires Inv(w)
    ensures Inv(Apply(w, OfferRelease(id)))
  {
    var after := Apply(w, OfferRelease(id));
    assert Retained(after) by {
      hide Shaped, Reserved, Timely, Pointed, Pinned, Catalogued, Recalled, Spaced, Traced;
    }
    assert Pinned(after) && Catalogued(after) by {
      hide Shaped, Reserved, Timely, Pointed, Retained, Recalled, Spaced, Traced;
    }
    hide Shaped, Reserved, Timely, Catalogued, Pinned, Retained, Spaced;
  }

  lemma ConfirmKeeps(w: World)
    requires Inv(w) && w.ledger.current.Some?
    ensures Inv(Apply(w, CommitLedger(w.ledger.(channelVerified := w.ledger.current))))
  {
    LedgerKeeps(w, w.ledger.(channelVerified := w.ledger.current));
  }

  lemma VerifyClaimKeeps(w: World)
    requires Inv(w)
    ensures Inv(Apply(w, CommitLedger(w.ledger.(lastVerificationAttempt := Some(Recorded(w.now))))))
  {
    RecordedBounds(w.now);
    LedgerKeeps(w, w.ledger.(lastVerificationAttempt := Some(Recorded(w.now))));
  }

  lemma CheckpointKeeps(w: World)
    requires Inv(w) && w.ledger.reservation.Some?
    ensures Inv(Apply(w, CommitLedger(w.ledger.(
      completedCycle := Max(w.ledger.completedCycle, w.ledger.reservation.value.cycle),
      lastVerifiedAt := Some(Recorded(w.now))))))
  {
    LedgerKeeps(w, w.ledger.(
      completedCycle := Max(w.ledger.completedCycle, w.ledger.reservation.value.cycle),
      lastVerifiedAt := Some(Recorded(w.now))));
  }

  /** A commit that only moves the completed cycle or the verification fields. */
  lemma LedgerKeeps(w: World, l: Ledger)
    requires Inv(w)
    requires l == w.ledger.(completedCycle := l.completedCycle, channelVerified := l.channelVerified,
      lastVerificationAttempt := l.lastVerificationAttempt, lastVerifiedAt := l.lastVerifiedAt)
    requires w.ledger.completedCycle <= l.completedCycle <= Cycle(w.ledger.epoch, w.now)
    requires l.channelVerified == w.ledger.channelVerified || l.channelVerified == l.current
    requires l.lastVerificationAttempt.Some? ==> l.lastVerificationAttempt.value <= w.now
    ensures Inv(Apply(w, CommitLedger(l)))
  {
    assert Shaped(l) && Reserved(l) && Timely(l, w.now) by {
      hide Pointed, Pinned, Catalogued, Retained, Recalled, Spaced, Traced;
    }
    hide Shaped, Reserved, Timely, Spaced, Catalogued, Pinned, Retained;
    SameRemote(w, l);
  }

  /** What the remote must hold depends on the drafts and generations only. */
  lemma SameRemote(w: World, l: Ledger)
    requires Catalogued(w) && Pinned(w) && Retained(w)
    requires l.nextGeneration == w.ledger.nextGeneration && l.reservation == w.ledger.reservation
    requires l.generations == w.ledger.generations && l.pending == w.ledger.pending
    ensures Catalogued(w.(ledger := l)) && Pinned(w.(ledger := l)) && Retained(w.(ledger := l))
  {
  }
}
