/** The GitHub side of the Office channel, and what one API call does to it. */
module OfficeRemote {
  import opened OfficeModel

  datatype Release = Release(tag: Tag, target: Commit, draft: bool, prerelease: bool)

  /** The public metadata address: one snapshot commit and one generation's tag. */
  datatype Url = Snapshot(commit: Commit, tag: Tag)

  /** History of claims, kept for statements about whole runs. */
  datatype Claim = Claim(time: Time, generation: int, cycle: int, forced: bool, completed: int)

  /** Everything the protocol can read. `issued` and `claims` are history: every release
      id GitHub ever handed out with its tag, and every claim that was committed. */
  datatype World = World(
    now: Time, ledger: Ledger,
    releases: map<int, Release>, tags: map<Tag, Commit>,
    pointer: Option<Url>, snapshots: map<Commit, Tag>,
    issued: map<int, Tag>, claims: seq<Claim>)

  /** The calls that change something. A commit is one atomic multi-file update. */
  datatype Action =
    | CreateDraft(id: int, tag: Tag, target: Commit)
    | DeleteRelease(id: int)
    | DeleteTag(tag: Tag)
    | PublishRelease(id: int)
    | OfferRelease(id: int)
    | CommitLedger(ledger: Ledger)
    | CommitClaim(ledger: Ledger, claim: Claim)
    | CommitSnapshot(commit: Commit, tag: Tag)
    | CommitPromotion(ledger: Ledger, url: Url)

  function Apply(w: World, a: Action): World {
    match a
    case CreateDraft(id, tag, target) =>
      w.(releases := w.releases[id := Release(tag, target, true, true)], issued := w.issued[id := tag])
    case DeleteRelease(id) => w.(releases := w.releases - {id})
    case DeleteTag(tag) => w.(tags := w.tags - {tag})
    case PublishRelease(id) =>
      if id !in w.releases then w
      else
        var r := w.releases[id];
        w.(releases := w.releases[id := r.(draft := false, prerelease := true)],
           tags := if r.tag in w.tags then w.tags else w.tags[r.tag := r.target])
    case OfferRelease(id) =>
      if id !in w.releases then w else w.(releases := w.releases[id := w.releases[id].(prerelease := false)])
    case CommitLedger(l) => w.(ledger := l)
    case CommitClaim(l, c) => w.(ledger := l, claims := w.claims + [c])
    case CommitSnapshot(commit, tag) => w.(snapshots := w.snapshots[commit := tag])
    case CommitPromotion(l, url) => w.(ledger := l, pointer := Some(url))
  }

  /** The first `calls` calls take effect; then the process dies. */
  function Perform(w: World, actions: seq<Action>, calls: nat): World
    decreases |actions|
  {
    if actions == [] || calls == 0 then w
    else Perform(Apply(w, actions[0]), actions[1..], calls - 1)
  }

  lemma PerformOne(w: World, a: Action)
    ensures Perform(w, [a], 1) == Apply(w, a)
  {
    assert [a][1..] == [];
  }

  lemma {:induction false} PerformAll(w: World, actions: seq<Action>, calls: nat)
    requires calls >= |actions|
    ensures Perform(w, actions, calls) == Perform(w, actions, |actions|)
    decreases |actions|
  {
    if actions != [] {
      PerformAll(Apply(w, actions[0]), actions[1..], calls - 1);
    }
  }

  lemma {:induction false} PerformConcat(w: World, a: seq<Action>, b: seq<Action>, calls: nat)
    ensures Perform(w, a + b, calls) ==
      if calls <= |a| then Perform(w, a, calls) else Perform(Perform(w, a, |a|), b, calls - |a|)
    decreases |a|
  {
    if a == [] {
      assert a + b == b;
    } else if calls != 0 {
      assert (a + b)[0] == a[0] && (a + b)[1..] == a[1..] + b;
      PerformConcat(Apply(w, a[0]), a[1..], b, calls - 1);
    }
  }

  lemma {:induction false} PerformKeepsClock(w: World, actions: seq<Action>, calls: nat)
    ensures Perform(w, actions, calls).now == w.now
    decreases |actions|
  {
    if actions != [] && calls != 0 {
      PerformKeepsClock(Apply(w, actions[0]), actions[1..], calls - 1);
    }
  }

  /** What one operation will call, given the world it starts in, and whether it
      runs to its end (true) or raises after those calls (false). */
  datatype Plan = Plan(actions: seq<Action>, ok: bool)

  predicate Has(releases: map<int, Release>, tag: Tag) {
    exists id :: id in releases && releases[id].tag == tag
  }

  /** The release the listing shows for a tag. */
  ghost function Find(releases: map<int, Release>, tag: Tag): (id: int)
    requires Has(releases, tag)
    ensures id in releases && releases[id].tag == tag
  {
    var id :| id in releases && releases[id].tag == tag;
    id
  }
}
