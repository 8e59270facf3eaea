/** The producer: one cycle, the blob it stores, and the versions it hands out. */
module Production {
  import opened Basics
  import opened Deltas
  import opened WriteEngine
  import opened BlobStore
  import opened Digests

  // ----- one cycle -----

  datatype Verdict = Passed | Failed | Warning

  /**
   What one call of RunCycle receives: whether this producer is the primary, the
   values the populate callback adds, the validators' answers, and whether the
   serializer accepts the data.
   */
  datatype CycleInput = CycleInput(primary: bool, rows: seq<Payload>, verdicts: seq<Verdict>, encodes: bool)

  datatype Outcome = NotPrimary | EmptyCycle | Identical | Rejected | StoreFailed | Published

  datatype ProducerState = ProducerState(
    engine: Engine,
    store: Store,
    currentVersion: nat,
    lastSnapshotVersion: nat,
    lastDataHash: Option<Digest>,
    numStatesBetweenSnapshots: int,
    typeResharding: bool,
    targetMaxTypeShardSize: ShardSize)

  predicate ShouldCreateSnapshot(p: ProducerState, version: nat) {
    p.lastSnapshotVersion == 0 || version - p.lastSnapshotVersion >= p.numStatesBetweenSnapshots
  }

  function SnapshotOf(p: ProducerState, version: nat): Blob {
    Blob(SnapshotBlob, version, 0, version, SnapshotBytes(ContentOf(p.engine.current)))
  }

  function DeltaOf(p: ProducerState, version: nat): Blob {
    var d := OptimizeMap(p.engine.delta);
    Blob(DeltaBlob, version, p.currentVersion, version, if EmptyMap(d) then NoBytes else DeltaBytes(d))
  }

  /** An empty delta is not serialized, so nothing can fail there. */
  function StoreBlob(p: ProducerState, version: nat, encodes: bool): (ProducerState, bool) {
    if ShouldCreateSnapshot(p, version) then
      var q := p.(lastSnapshotVersion := version);
      if encodes then (q.(store := Stored(q.store, SnapshotOf(q, version))), true) else (q, false)
    else
      var q := p.(engine := p.engine.(delta := OptimizeMap(p.engine.delta)));
      if encodes || EmptyMap(q.engine.delta) then (q.(store := Stored(q.store, DeltaOf(p, version))), true)
        else (q, false)
  }

  predicate EmptyData(d: Data) {
    forall t :: t in d ==> d[t] == []
  }

  function Populated(p: ProducerState, rows: seq<Payload>): Engine {
    AddAll(Prepare(p.engine), rows)
  }

  function Measured(p: ProducerState, e: Engine): Engine {
    CalculateDeltas(if p.typeResharding then Reshard(e, p.targetMaxTypeShardSize) else e)
  }

  /** The second half of a cycle whose data is new. */
  function Commit(p: ProducerState, hash: Digest, input: CycleInput): (ProducerState, Outcome) {
    var f := Measured(p, p.engine);
    if Failed in input.verdicts then (p.(engine := Prepare(f)), Rejected) else
      var (q, ok) := StoreBlob(p.(engine := f), p.currentVersion + 1, input.encodes);
      if ok then (q.(currentVersion := p.currentVersion + 1, lastDataHash := Some(hash)), Published)
      else (q, StoreFailed)
  }

  function Cycle(p: ProducerState, input: CycleInput): (ProducerState, Outcome) {
    if !input.primary then (p, NotPrimary) else
      var e := Populated(p, input.rows);
      var hash := DataHash(ContentOf(e.current));
      if EmptyData(e.current) then (p.(engine := e), EmptyCycle)
      else if p.currentVersion > 0 && p.lastDataHash == Some(hash) then (p.(engine := e), Identical)
      else Commit(p.(engine := e), hash, input)
  }

  function Started(hash: string -> nat, primaryKeys: map<string, string>, store: Store, interval: int,
                   resharding: bool, target: ShardSize): ProducerState {
    ProducerState(
      Engine(hash, primaryKeys, map[], map[], None, Numbering(map[], map[]), map[]),
      store, 0, 0, None, interval, resharding, target)
  }
}
