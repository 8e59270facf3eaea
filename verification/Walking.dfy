/**
 Refreshing along a store, for any notion of "the data is right at version v":
 if every snapshot is right and every delta leads from right to right, then a
 refresh keeps the replica right, whichever blobs it takes.
 */
module Walking {
  import opened Basics
  import opened Deltas
  import opened BlobStore
  import opened Consumption

  /** Versions 1 .. top each have a snapshot or a delta from the version before. */
  ghost predicate Walkable(s: Store, top: int) {
    && Filled(s)
    && (forall v :: v in s.snapshots ==> 1 <= v <= top && s.snapshots[v].data.SnapshotBytes?)
    && (forall v :: 1 <= v <= top && v !in s.snapshots ==> v > 1 && v - 1 in s.deltas && s.deltas[v - 1].toVersion == v)
  }

  type Judgement = (int, Content) -> bool

  ghost predicate Preserves(filter: Option<TypeFilter>, good: Judgement, from: int, d: DeltaMap) {
    forall data :: good(from, data) ==> good(from + 1, ReplayedData(filter, data, d))
  }

  ghost predicate Sound(filter: Option<TypeFilter>, s: Store, top: int, good: Judgement) {
    && Walkable(s, top)
    && (forall v :: v in s.snapshots ==> good(v, Visible(filter, s.snapshots[v].data.content)))
    && (forall v :: 1 <= v < top && v + 1 !in s.snapshots && s.deltas[v].data.DeltaBytes? ==>
          Preserves(filter, good, v, s.deltas[v].data.delta))
  }

  /** The delta from version `v` is there and can be decoded. */
  predicate DecodesAt(s: Store, v: int) {
    v in s.deltas && s.deltas[v].data.DeltaBytes?
  }

  ghost predicate DecodesBetween(s: Store, from: int, target: int) {
    forall v :: from <= v < target ==> DecodesAt(s, v)
  }

  /** Every delta of the walk that a refresh takes decodes: those from its anchor up. */
  ghost predicate WalkDecodes(s: Store, from: int, target: int) {
    DecodesBetween(s, Anchor(s, from, target), target)
  }

  /** Every delta any walk may need decodes. */
  ghost predicate Decodes(s: Store, top: int) {
    forall v :: 1 <= v < top && v + 1 !in s.snapshots && v in s.deltas ==> s.deltas[v].data.DeltaBytes?
  }

  ghost predicate Right(r: Replica, top: int, good: Judgement) {
    r.Some? ==> 1 <= r.value.version <= top && good(r.value.version, r.value.data)
  }

  lemma {:induction false} ApplyChainSnoc(filter: Option<TypeFilter>, r: Replica, chain: seq<Blob>, b: Blob)
    ensures var (mid, ok) := ApplyChain(filter, r, chain);
      ApplyChain(filter, r, chain + [b]) ==
        if !ok then (mid, false)
        else match ApplyBlob(filter, mid, b) case Ok(next) => (next, true) case Err(_) => (mid, false)
    decreases |chain|
  {
    if chain == [] {
      assert [b][1..] == [];
    } else {
      assert (chain + [b])[1..] == chain[1..] + [b];
      match ApplyBlob(filter, r, chain[0])
      case Ok(next) => ApplyChainSnoc(filter, next, chain[1..], b);
      case Err(_) =>
    }
  }

  /** What applying a planned chain up to `target` keeps. */
  ghost predicate Reaches(top: int, good: Judgement, r: Replica, target: int, next: Replica, ok: bool) {
    && Right(next, top, good)
    && VersionOf(r) <= VersionOf(next) <= target
    && (ok ==> VersionOf(next) == target)
  }

  lemma ReachesBySnapshot(filter: Option<TypeFilter>, s: Store, top: int, good: Judgement, r: Replica, target: int)
    requires Sound(filter, s, top, good) && target in s.snapshots && VersionOf(r) < target
    ensures var (next, ok) := ApplyChain(filter, r, [s.snapshots[target]]); Reaches(top, good, r, target, next, ok)
  {
    assert [s.snapshots[target]][1..] == [];
  }

  lemma ReachesByDelta(filter: Option<TypeFilter>, s: Store, top: int, good: Judgement, r: Replica, target: int,
                       chain: seq<Blob>)
    requires Sound(filter, s, top, good) && 1 < target <= top && target !in s.snapshots
    requires var (mid, ok) := ApplyChain(filter, r, chain); Reaches(top, good, r, target - 1, mid, ok)
    ensures var (next, ok) := ApplyChain(filter, r, chain + [s.deltas[target - 1]]);
      Reaches(top, good, r, target, next, ok)
  {
    var b := s.deltas[target - 1];
    ApplyChainSnoc(filter, r, chain, b);
    var (mid, ok) := ApplyChain(filter, r, chain);
    if ok && b.data.DeltaBytes? {
      assert Preserves(filter, good, target - 1, b.data.delta);
    }
  }

  lemma PlanUnfolds(s: Store, top: int, from: int, target: int)
    requires Walkable(s, top) && 0 <= from < target <= top
    ensures target in s.snapshots ==> Plan(s, from, target) == Ok([s.snapshots[target]])
    ensures target !in s.snapshots ==> target > 1 && target - 1 in s.deltas
    ensures target !in s.snapshots && Plan(s, from, target - 1).Ok? ==>
      Plan(s, from, target) == Ok(Plan(s, from, target - 1).value + [s.deltas[target - 1]])
  {
  }

  lemma {:induction false} PlanFound(s: Store, top: int, from: int, target: int)
    requires Walkable(s, top) && 0 <= from <= target <= top
    ensures Plan(s, from, target).Ok?
    decreases target
  {
    if from < target {
      PlanUnfolds(s, top, from, target);
      PlanFound(s, top, from, target - 1);
    }
  }

  lemma {:induction false} ChainRight(filter: Option<TypeFilter>, s: Store, top: int, good: Judgement, r: Replica,
                                      target: int, chain: seq<Blob>)
    requires Sound(filter, s, top, good) && Right(r, top, good)
    requires 0 <= VersionOf(r) <= target <= top && Plan(s, VersionOf(r), target) == Ok(chain)
    ensures var (next, ok) := ApplyChain(filter, r, chain); Reaches(top, good, r, target, next, ok)
    decreases target
  {
    var from := VersionOf(r);
    if from < target {
      PlanUnfolds(s, top, from, target);
      if target in s.snapshots {
        ReachesBySnapshot(filter, s, top, good, r, target);
      } else {
        PlanFound(s, top, from, target - 1);
        var shorter := Plan(s, from, target - 1).value;
        ChainRight(filter, s, top, good, r, target - 1, shorter);
        ReachesByDelta(filter, s, top, good, r, target, shorter);
      }
    }
  }

  // ----- where a refresh ends -----

  /**
   The walk starts at its anchor and ends at version `v`: at the target, or below
   the first delta that does not decode.  It is an error exactly in the second case.
   */
  ghost predicate EndsAt(s: Store, from: int, target: int, v: int, ok: bool) {
    && from <= Anchor(s, from, target) <= v <= target
    && DecodesBetween(s, Anchor(s, from, target), v)
    && (ok <==> v == target)
    && (v < target ==> !DecodesAt(s, v))
  }

  lemma EndsBySnapshot(filter: Option<TypeFilter>, s: Store, top: int, r: Replica, target: int)
    requires Walkable(s, top) && target in s.snapshots && VersionOf(r) < target
    ensures var (next, ok) := ApplyChain(filter, r, [s.snapshots[target]]);
      EndsAt(s, VersionOf(r), target, VersionOf(next), ok)
  {
    assert [s.snapshots[target]][1..] == [];
  }

  /** A target one up: one more delta, if the walk got that far. */
  lemma EndsOneUp(s: Store, from: int, target: int, v: int, ok: bool)
    requires from < target && target !in s.snapshots && EndsAt(s, from, target - 1, v, ok)
    ensures !ok ==> EndsAt(s, from, target, v, false)
    ensures ok && !DecodesAt(s, target - 1) ==> EndsAt(s, from, target, v, false)
    ensures ok && DecodesAt(s, target - 1) ==> EndsAt(s, from, target, target, true)
  {
  }

  lemma EndsByDelta(filter: Option<TypeFilter>, s: Store, top: int, r: Replica, target: int, chain: seq<Blob>)
    requires Walkable(s, top) && VersionOf(r) < target <= top && 1 < target && target !in s.snapshots
    requires var (mid, ok) := ApplyChain(filter, r, chain); EndsAt(s, VersionOf(r), target - 1, VersionOf(mid), ok)
    ensures var (next, ok) := ApplyChain(filter, r, chain + [s.deltas[target - 1]]);
      EndsAt(s, VersionOf(r), target, VersionOf(next), ok)
  {
    var b := s.deltas[target - 1];
    var (mid, ok) := ApplyChain(filter, r, chain);
    ApplyChainSnoc(filter, r, chain, b);
    EndsOneUp(s, VersionOf(r), target, VersionOf(mid), ok);
  }

  lemma {:induction false} ChainEnds(filter: Option<TypeFilter>, s: Store, top: int, r: Replica, target: int,
                                     chain: seq<Blob>)
    requires Walkable(s, top) && 0 <= VersionOf(r) <= target <= top && Plan(s, VersionOf(r), target) == Ok(chain)
    ensures var (next, ok) := ApplyChain(filter, r, chain); EndsAt(s, VersionOf(r), target, VersionOf(next), ok)
    decreases target
  {
    var from := VersionOf(r);
    if from < target {
      PlanUnfolds(s, top, from, target);
      if target in s.snapshots {
        EndsBySnapshot(filter, s, top, r, target);
      } else {
        PlanFound(s, top, from, target - 1);
        var shorter := Plan(s, from, target - 1).value;
        ChainEnds(filter, s, top, r, target - 1, shorter);
        EndsByDelta(filter, s, top, r, target, shorter);
      }
    }
  }

  /**
   Arrival, exactly.  A refresh to a published version succeeds if and only if every
   delta from the newest snapshot on its way (or from the current version) decodes,
   and if and only if it gets there; otherwise it stops below the first that does not.
   */
  lemma RefreshEnds(filter: Option<TypeFilter>, s: Store, top: int, r: Replica, target: int)
    requires Walkable(s, top) && 0 <= VersionOf(r) < target <= top
    ensures var (next, ok) := Refresh(filter, s, r, target);
      && EndsAt(s, VersionOf(r), target, VersionOf(next), ok)
      && (ok <==> WalkDecodes(s, VersionOf(r), target))
      && (ok <==> VersionOf(next) == target)
  {
    PlanFound(s, top, VersionOf(r), target);
    ChainEnds(filter, s, top, r, target, Plan(s, VersionOf(r), target).value);
    var (next, ok) := Refresh(filter, s, r, target);
    assert !ok ==> !DecodesAt(s, VersionOf(next));
  }

  /** Where all needed deltas decode, so does every walk. */
  lemma DecodesAnyWalk(s: Store, top: int, from: int, target: int)
    requires Walkable(s, top) && Decodes(s, top) && 0 <= from <= target <= top
    ensures WalkDecodes(s, from, target)
  {
    if from < target {
      AnchorIsNewest(s, from, target);
      forall v | Anchor(s, from, target) <= v < target ensures DecodesAt(s, v) {
        assert v + 1 !in s.snapshots;
      }
    }
  }

  /** One refresh: right before, right after, never backwards, and arriving exactly when its walk decodes. */
  lemma RefreshRight(filter: Option<TypeFilter>, s: Store, top: int, good: Judgement, r: Replica, target: int)
    requires Sound(filter, s, top, good) && Right(r, top, good) && target <= top
    ensures var (next, ok) := Refresh(filter, s, r, target);
      && Right(next, top, good)
      && VersionOf(r) <= VersionOf(next)
      && (ok <==> WalkDecodes(s, VersionOf(r), target))
      && (ok <==> VersionOf(next) == if target > VersionOf(r) then target else VersionOf(r))
  {
    if target > VersionOf(r) {
      PlanFound(s, top, VersionOf(r), target);
      ChainRight(filter, s, top, good, r, target, Plan(s, VersionOf(r), target).value);
      RefreshEnds(filter, s, top, r, target);
    } else {
      assert Plan(s, VersionOf(r), target) == Ok([]);
    }
  }

  /** Each store is sound for the same notion of right, up to a version that its notice does not exceed. */
  ghost predicate SoundNotices(filter: Option<TypeFilter>, notices: seq<Notice>, tops: seq<int>, good: Judgement) {
    && |tops| == |notices|
    && (forall i :: 0 <= i < |notices| ==>
      Sound(filter, notices[i].store, tops[i], good) && notices[i].version <= tops[i])
    && (forall i, j :: 0 <= i < j < |tops| ==> tops[i] <= tops[j])
  }

  /** The replica's version when notice `i` comes in. */
  function Before(filter: Option<TypeFilter>, r: Replica, notices: seq<Notice>, i: nat): int
    requires i <= |notices| && forall k :: 0 <= k < |notices| ==> Filled(notices[k].store)
  {
    VersionOf(AutoRefresh(filter, r, notices[..i]))
  }

  lemma RightLater(r: Replica, top: int, later: int, good: Judgement)
    requires Right(r, top, good) && top <= later
    ensures Right(r, later, good)
  {
  }

  lemma FollowRight(filter: Option<TypeFilter>, s: Store, top: int, good: Judgement, r: Replica, version: int)
    requires Sound(filter, s, top, good) && Right(r, top, good) && version <= top
    ensures var next := Follow(filter, s, r, version);
      && Right(next, top, good)
      && VersionOf(r) <= VersionOf(next)
      && (version <= VersionOf(next) <==> WalkDecodes(s, VersionOf(r), version))
  {
    if version > VersionOf(r) {
      RefreshRight(filter, s, top, good, r, version);
      RefreshEnds(filter, s, top, r, version);
    }
  }

  lemma NoticesFront(filter: Option<TypeFilter>, notices: seq<Notice>, tops: seq<int>, good: Judgement)
    requires SoundNotices(filter, notices, tops, good) && notices != []
    ensures SoundNotices(filter, notices[..|notices| - 1], tops[..|tops| - 1], good)
  {
  }

  /**
   Following announced versions while the store grows: never backwards, right after
   every one of them, and a version is reached exactly when its walk decodes.
   */
  lemma {:induction false} AutoRefreshRight(filter: Option<TypeFilter>, good: Judgement, r: Replica,
                                            notices: seq<Notice>, tops: seq<int>)
    requires SoundNotices(filter, notices, tops, good) && notices != [] && Right(r, tops[0], good)
    ensures Right(AutoRefresh(filter, r, notices), tops[|tops| - 1], good)
    ensures var i := |notices| - 1;
      && Before(filter, r, notices, i) <= VersionOf(AutoRefresh(filter, r, notices))
      && (notices[i].version <= VersionOf(AutoRefresh(filter, r, notices)) <==>
          WalkDecodes(notices[i].store, Before(filter, r, notices, i), notices[i].version))
  {
    var front, last, top := notices[..|notices| - 1], notices[|notices| - 1], tops[|tops| - 1];
    if front != [] {
      NoticesFront(filter, notices, tops, good);
      AutoRefreshRight(filter, good, r, front, tops[..|tops| - 1]);
      RightLater(AutoRefresh(filter, r, front), tops[|tops| - 2], top, good);
    }
    FollowRight(filter, last.store, top, good, AutoRefresh(filter, r, front), last.version);
  }
}
