/** Blobs, the in-memory store, and the planning of a walk through it. */
module BlobStore {
  import opened Basics
  import opened Deltas
  import opened Sorting

  /** What the serialized bytes of a blob decode to; an unchanged delta is stored as no bytes at all. */
  datatype Bytes = SnapshotBytes(content: Content) | DeltaBytes(delta: DeltaMap) | NoBytes

  datatype BlobType = SnapshotBlob | DeltaBlob | ReverseBlob | UnknownBlob

  datatype Blob = Blob(kind: BlobType, version: int, fromVersion: int, toVersion: int, data: Bytes)

  datatype Store = Blobs(snapshots: map<int, Blob>, deltas: map<int, Blob>, reverses: map<int, Blob>)

  const EMPTY_STORE := Blobs(map[], map[], map[])

  function Stored(s: Store, b: Blob): Store {
    match b.kind
    case SnapshotBlob => s.(snapshots := s.snapshots[b.version := b])
    case DeltaBlob => s.(deltas := s.deltas[b.fromVersion := b])
    case ReverseBlob => s.(reverses := s.reverses[b.toVersion := b])
    case UnknownBlob => s
  }

  /** What filling a store through `Store` alone guarantees. */
  predicate Filled(s: Store) {
    && (forall v :: v in s.snapshots ==> s.snapshots[v].version == v && s.snapshots[v].kind == SnapshotBlob)
    && (forall v :: v in s.deltas ==> s.deltas[v].fromVersion == v && s.deltas[v].kind == DeltaBlob)
  }

  /** What retrieval finds under a key. */
  function SnapshotAt(s: Store, version: int): Option<Blob> {
    if version in s.snapshots then Some(s.snapshots[version]) else None
  }

  function DeltaAt(s: Store, fromVersion: int): Option<Blob> {
    if fromVersion in s.deltas then Some(s.deltas[fromVersion]) else None
  }

  function ReverseAt(s: Store, toVersion: int): Option<Blob> {
    if toVersion in s.reverses then Some(s.reverses[toVersion]) else None
  }

  class InMemoryBlobStore {
    var snapshots: map<int, Blob>
    var deltas: map<int, Blob>
    var reverses: map<int, Blob>

    ghost function Model(): Store
      reads this
    {
      Blobs(snapshots, deltas, reverses)
    }

    ghost predicate Valid()
      reads this
    {
      Filled(Model())
    }

    constructor ()
      ensures Valid() && Model() == EMPTY_STORE
    {
      snapshots, deltas, reverses := map[], map[], map[];
    }

    method Store(blob: Blob) returns (ok: bool)
      modifies this
      ensures Model() == Stored(old(Model()), blob)
      ensures ok <==> blob.kind != UnknownBlob
      ensures old(Valid()) ==> Valid()
    {
      ok := true;
      match blob.kind {
        case SnapshotBlob => snapshots := snapshots[blob.version := blob];
        case DeltaBlob => deltas := deltas[blob.fromVersion := blob];
        case ReverseBlob => reverses := reverses[blob.toVersion := blob];
        case UnknownBlob => ok := false;
      }
    }

    method RetrieveSnapshotBlob(version: int) returns (b: Option<Blob>)
      ensures b == SnapshotAt(Model(), version)
    {
      b := if version in snapshots then Some(snapshots[version]) else None;
    }

    method RetrieveDeltaBlob(fromVersion: int) returns (b: Option<Blob>)
      ensures b == DeltaAt(Model(), fromVersion)
    {
      b := if fromVersion in deltas then Some(deltas[fromVersion]) else None;
    }

    method RetrieveReverseBlob(toVersion: int) returns (b: Option<Blob>)
      ensures b == ReverseAt(Model(), toVersion)
    {
      b := if toVersion in reverses then Some(reverses[toVersion]) else None;
    }

    /** The snapshot versions, each once, in increasing order. */
    method ListVersions() returns (versions: seq<int>)
      ensures forall i, j :: 0 <= i < j < |versions| ==> versions[i] < versions[j]
      ensures forall v :: v in versions <==> v in snapshots
    {
      var keys := snapshots.Keys;
      versions := InSomeOrder(keys);
      ghost var found := versions;
      var a := new int[|versions|](i requires 0 <= i < |versions| => versions[i]);
      assert a[..] == versions;
      ExchangeSort(a, IntLess);
      versions := a[..];
      ArrangeSorts(IntLess, found);
      DistinctPermuted(found, versions);
    }
  }

  function StoredAll(blobs: seq<Blob>): Store {
    if blobs == [] then EMPTY_STORE else Stored(StoredAll(blobs[..|blobs| - 1]), blobs[|blobs| - 1])
  }

  /** Blob `i` of the sequence is the last of its kind under the key. */
  predicate LastSnapshot(blobs: seq<Blob>, i: nat, version: int)
    requires i < |blobs|
  {
    && blobs[i].kind.SnapshotBlob? && blobs[i].version == version
    && forall j :: i < j < |blobs| ==> !(blobs[j].kind.SnapshotBlob? && blobs[j].version == version)
  }

  predicate LastDelta(blobs: seq<Blob>, i: nat, fromVersion: int)
    requires i < |blobs|
  {
    && blobs[i].kind.DeltaBlob? && blobs[i].fromVersion == fromVersion
    && forall j :: i < j < |blobs| ==> !(blobs[j].kind.DeltaBlob? && blobs[j].fromVersion == fromVersion)
  }

  predicate LastReverse(blobs: seq<Blob>, i: nat, toVersion: int)
    requires i < |blobs|
  {
    && blobs[i].kind.ReverseBlob? && blobs[i].toVersion == toVersion
    && forall j :: i < j < |blobs| ==> !(blobs[j].kind.ReverseBlob? && blobs[j].toVersion == toVersion)
  }

  /** A version's snapshot is found exactly when one was stored, and then it is the one stored last. */
  lemma {:induction false} RetrievesLastSnapshot(blobs: seq<Blob>, version: int)
    ensures SnapshotAt(StoredAll(blobs), version).None? ==>
      forall i :: 0 <= i < |blobs| ==> !(blobs[i].kind.SnapshotBlob? && blobs[i].version == version)
    ensures SnapshotAt(StoredAll(blobs), version).Some? ==>
      exists i :: 0 <= i < |blobs| && LastSnapshot(blobs, i, version) &&
        SnapshotAt(StoredAll(blobs), version) == Some(blobs[i])
  {
    if blobs != [] {
      var front, last := blobs[..|blobs| - 1], blobs[|blobs| - 1];
      RetrievesLastSnapshot(front, version);
      if last.kind.SnapshotBlob? && last.version == version {
        assert LastSnapshot(blobs, |blobs| - 1, version);
      } else if SnapshotAt(StoredAll(front), version).Some? {
        var i :| 0 <= i < |front| && LastSnapshot(front, i, version) &&
          SnapshotAt(StoredAll(front), version) == Some(front[i]);
        assert LastSnapshot(blobs, i, version);
      }
    }
  }

  /** The same for the delta from a version. */
  lemma {:induction false} RetrievesLastDelta(blobs: seq<Blob>, fromVersion: int)
    ensures DeltaAt(StoredAll(blobs), fromVersion).None? ==>
      forall i :: 0 <= i < |blobs| ==> !(blobs[i].kind.DeltaBlob? && blobs[i].fromVersion == fromVersion)
    ensures DeltaAt(StoredAll(blobs), fromVersion).Some? ==>
      exists i :: 0 <= i < |blobs| && LastDelta(blobs, i, fromVersion) &&
        DeltaAt(StoredAll(blobs), fromVersion) == Some(blobs[i])
  {
    if blobs != [] {
      var front, last := blobs[..|blobs| - 1], blobs[|blobs| - 1];
      RetrievesLastDelta(front, fromVersion);
      if last.kind.DeltaBlob? && last.fromVersion == fromVersion {
        assert LastDelta(blobs, |blobs| - 1, fromVersion);
      } else if DeltaAt(StoredAll(front), fromVersion).Some? {
        var i :| 0 <= i < |front| && LastDelta(front, i, fromVersion) &&
          DeltaAt(StoredAll(front), fromVersion) == Some(front[i]);
        assert LastDelta(blobs, i, fromVersion);
      }
    }
  }

  /** And for the reverse delta to a version. */
  lemma {:induction false} RetrievesLastReverse(blobs: seq<Blob>, toVersion: int)
    ensures ReverseAt(StoredAll(blobs), toVersion).None? ==>
      forall i :: 0 <= i < |blobs| ==> !(blobs[i].kind.ReverseBlob? && blobs[i].toVersion == toVersion)
    ensures ReverseAt(StoredAll(blobs), toVersion).Some? ==>
      exists i :: 0 <= i < |blobs| && LastReverse(blobs, i, toVersion) &&
        ReverseAt(StoredAll(blobs), toVersion) == Some(blobs[i])
  {
    if blobs != [] {
      var front, last := blobs[..|blobs| - 1], blobs[|blobs| - 1];
      RetrievesLastReverse(front, toVersion);
      if last.kind.ReverseBlob? && last.toVersion == toVersion {
        assert LastReverse(blobs, |blobs| - 1, toVersion);
      } else if ReverseAt(StoredAll(front), toVersion).Some? {
        var i :| 0 <= i < |front| && LastReverse(front, i, toVersion) &&
          ReverseAt(StoredAll(front), toVersion) == Some(front[i]);
        assert LastReverse(blobs, i, toVersion);
      }
    }
  }

  // ----- planning -----

  /** The walk back from `target`: stop at the first snapshot, otherwise step over a delta. */
  function Plan(s: Store, from: int, target: int): Result<seq<Blob>>
    requires Filled(s)
    decreases target - from
  {
    if target <= from then Ok([])
    else if target in s.snapshots then Ok([s.snapshots[target]])
    else if target - 1 in s.deltas then
      match Plan(s, from, target - 1)
      case Ok(chain) => Ok(chain + [s.deltas[target - 1]])
      case Err(message) => Err(message)
    else Err("gap")
  }

  /** Where a walk from `target` down to `from` ends. */
  function Anchor(s: Store, from: int, target: int): int
    decreases target - from
  {
    if target <= from || target in s.snapshots then target else Anchor(s, from, target - 1)
  }

  /** The anchor is the newest snapshot in (from, target] if there is one, and `from` otherwise. */
  lemma {:induction false} AnchorIsNewest(s: Store, from: int, target: int)
    requires from < target
    ensures from <= Anchor(s, from, target) <= target
    ensures Anchor(s, from, target) > from ==> Anchor(s, from, target) in s.snapshots
    ensures forall v :: Anchor(s, from, target) < v <= target ==> v !in s.snapshots
    decreases target - from
  {
    if target !in s.snapshots && target - 1 > from {
      AnchorIsNewest(s, from, target - 1);
    }
  }

  /** The snapshot of the anchor, if the walk reached one, and every delta from there up to `target`. */
  ghost predicate GapFree(s: Store, from: int, target: int, chain: seq<Blob>) {
    var anchor := Anchor(s, from, target);
    var base := if anchor > from then 1 else 0;
    && anchor <= target && |chain| == base + (target - anchor)
    && (anchor > from ==> anchor in s.snapshots && chain[0] == s.snapshots[anchor])
    && (forall v :: anchor <= v < target ==> v in s.deltas && chain[base + (v - anchor)] == s.deltas[v])
  }

  ghost predicate DeltasFrom(s: Store, anchor: int, target: int) {
    forall v :: anchor <= v < target ==> v in s.deltas
  }

  lemma PlanStep(s: Store, from: int, target: int, chain: seq<Blob>)
    requires from < target - 1 && target !in s.snapshots && target - 1 in s.deltas
    requires GapFree(s, from, target - 1, chain)
    ensures GapFree(s, from, target, chain + [s.deltas[target - 1]])
  {
    var anchor := Anchor(s, from, target - 1);
    assert Anchor(s, from, target) == anchor;
    var base := if anchor > from then 1 else 0;
    var longer := chain + [s.deltas[target - 1]];
    if anchor > from { assert longer[0] == chain[0]; }
    forall v | anchor <= v < target ensures v in s.deltas && longer[base + (v - anchor)] == s.deltas[v] {
      if v < target - 1 { assert chain[base + (v - anchor)] == s.deltas[v]; }
    }
  }

  /** Planning succeeds exactly when no delta above the anchor is missing, and then the chain is gap-free. */
  lemma {:induction false} PlanCorrect(s: Store, from: int, target: int)
    requires Filled(s)
    ensures target <= from ==> Plan(s, from, target) == Ok([])
    ensures Plan(s, from, target).Ok? <==> DeltasFrom(s, Anchor(s, from, target), target)
    ensures Plan(s, from, target).Ok? && from < target ==> GapFree(s, from, target, Plan(s, from, target).value)
    decreases target - from
  {
    if from < target && target !in s.snapshots {
      AnchorIsNewest(s, from, target);
      if target - 1 in s.deltas {
        PlanCorrect(s, from, target - 1);
        if Plan(s, from, target).Ok? && from < target - 1 {
          PlanStep(s, from, target, Plan(s, from, target - 1).value);
        }
      }
    }
  }
}
