/**
 What a producer's run leaves behind: the shape of the store, the base every
 delta is computed against, and what each published blob says.
 */
module History {
  import opened Basics
  import opened Deltas
  import opened Positional
  import opened WriteEngine
  import opened BlobStore
  import opened Production
  import opened Digests

  // ----- population -----

  predicate NonEmptyLists(c: Content) {
    forall t :: t in c ==> c[t] != []
  }

  /** Population appends to the current lists and to the deltas of keyed types, nothing else. */
  lemma {:induction false} PopulateFrame(e: Engine, rows: seq<Payload>)
    ensures var f := AddAll(e, rows);
      && f.previous == e.previous && f.primaryKeys == e.primaryKeys && f.shards == e.shards && f.hash == e.hash
      && (forall t :: t !in e.primaryKeys ==> ListOf(f.delta, t) == ListOf(e.delta, t))
  {
    if rows != [] {
      PopulateFrame(e, rows[..|rows| - 1]);
    }
  }

  predicate NoEmptyLists(d: DeltaMap) {
    forall t :: t in d ==> d[t] != []
  }

  /** A type enters a delta set with its first record. */
  lemma {:induction false} PopulateDeltas(e: Engine, rows: seq<Payload>)
    requires NoEmptyLists(e.delta)
    ensures NoEmptyLists(AddAll(e, rows).delta)
  {
    if rows != [] {
      PopulateDeltas(e, rows[..|rows| - 1]);
    }
  }

  lemma ExtendedDeltas(e: Engine, done: set<string>)
    requires NoEmptyLists(e.delta)
    ensures NoEmptyLists(Extended(e, done))
  {
    forall t | t in Extended(e, done) ensures Extended(e, done)[t] != [] {
      ExtendedAt(e, done, t);
      assert Extended(e, done)[t] == ListOf(Extended(e, done), t);
    }
  }

  lemma OptimizedDeltas(d: DeltaMap)
    requires NoEmptyLists(d)
    ensures NoEmptyLists(OptimizeMap(d))
  {
    forall t | t in d ensures Optimize(d[t]) != [] { OptimizeEmpty(d[t]); }
  }

  lemma {:induction false} PopulateNonEmpty(e: Engine, rows: seq<Payload>)
    requires forall t :: t in e.current ==> e.current[t] != []
    ensures forall t :: t in AddAll(e, rows).current ==> AddAll(e, rows).current[t] != []
  {
    if rows != [] {
      PopulateNonEmpty(e, rows[..|rows| - 1]);
    }
  }

  lemma {:induction false} RecomputeValues(e: Engine, t: string, rs: seq<Record>)
    requires t in e.primaryKeys
    ensures Values(RecomputeList(e, t, rs)) == Values(rs)
  {
    var a, b := Values(RecomputeList(e, t, rs)), Values(rs);
    assert forall i :: 0 <= i < |a| ==> a[i] == b[i];
  }

  /** Resharding rewrites shard numbers only. */
  lemma ReshardFrame(e: Engine, target: ShardSize)
    ensures var f := Reshard(e, target);
      && ContentOf(f.current) == ContentOf(e.current)
      && f.previous == e.previous && f.primaryKeys == e.primaryKeys && f.delta == e.delta && f.numbering == e.numbering
  {
    var f := e.(shards := Resized(e, target, e.current.Keys));
    forall t | t in e.current && t in e.primaryKeys
      ensures Values(RecomputeList(f, t, f.current[t])) == Values(e.current[t])
    {
      RecomputeValues(f, t, f.current[t]);
    }
  }

  /** The delta of a type without a primary key, as a function of two contents. */
  function PlainDelta(prev: Content, cur: Content, t: string): seq<DeltaRecord> {
    if t in cur then Diff(ListOf(prev, t), cur[t]) else []
  }

  lemma ExtraIsPlain(e: Engine, t: string)
    requires t !in e.primaryKeys && e.previous.Some?
    ensures Extra(e, t) == PlainDelta(ContentOf(e.previous.value), ContentOf(e.current), t)
  {
    var prev := e.previous.value;
    assert ListOf(ContentOf(prev), t) == Values(ListOf(prev, t));
  }

  lemma ReshardedPart(p: ProducerState, e: Engine)
    ensures var r := if p.typeResharding then Reshard(e, p.targetMaxTypeShardSize) else e;
      && ContentOf(r.current) == ContentOf(e.current)
      && r.previous == e.previous && r.primaryKeys == e.primaryKeys && r.delta == e.delta && r.numbering == e.numbering
  {
    if p.typeResharding { ReshardFrame(e, p.targetMaxTypeShardSize); }
  }

  lemma MeasuredFrame(p: ProducerState, e: Engine)
    requires e.previous.Some?
    ensures var f := Measured(p, e);
      && ContentOf(f.current) == ContentOf(e.current) && f.primaryKeys == e.primaryKeys && f.previous == e.previous
  {
    ReshardedPart(p, e);
  }

  lemma MeasuredDeltas(p: ProducerState, e: Engine)
    requires NoEmptyLists(e.delta)
    ensures NoEmptyLists(Measured(p, e).delta)
  {
    ReshardedPart(p, e);
    var r := if p.typeResharding then Reshard(e, p.targetMaxTypeShardSize) else e;
    ExtendedDeltas(r, r.primaryKeys.Keys + r.current.Keys);
  }

  lemma MeasuredPlain(p: ProducerState, e: Engine, t: string)
    requires e.previous.Some? && t !in e.primaryKeys && ListOf(e.delta, t) == []
    ensures ListOf(Measured(p, e).delta, t) == PlainDelta(ContentOf(e.previous.value), ContentOf(e.current), t)
  {
    ReshardedPart(p, e);
    var r := if p.typeResharding then Reshard(e, p.targetMaxTypeShardSize) else e;
    CalculatedAt(r, t);
    ExtraIsPlain(r, t);
  }

  // ----- one cycle -----

  function DecodedDelta(b: Bytes): DeltaMap {
    if b.DeltaBytes? then b.delta else map[]
  }

  /** A delta blob that leads from `prev` to `cur`, as far as types without a primary key go. */
  ghost predicate LeadsTo(primaryKeys: map<string, string>, b: Blob, version: int, prev: Content, cur: Content) {
    && b.kind == DeltaBlob && b.version == version && b.fromVersion == version - 1 && b.toVersion == version
    && !b.data.SnapshotBytes? && NoEmptyLists(DecodedDelta(b.data)) && (b.data.DeltaBytes? ==> !EmptyMap(b.data.delta))
    && (forall t :: t !in primaryKeys ==> ListOf(DecodedDelta(b.data), t) == PlainDelta(prev, cur, t))
  }

  lemma OptimizedPlain(prev: Content, cur: Content, d: DeltaMap, t: string)
    requires ListOf(d, t) == PlainDelta(prev, cur, t)
    ensures ListOf(OptimizeMap(d), t) == PlainDelta(prev, cur, t)
  {
    if t in d && t in cur { DiffOptimized(ListOf(prev, t), cur[t]); }
  }

  lemma EmptyLists(d: DeltaMap, t: string)
    requires EmptyMap(d)
    ensures ListOf(d, t) == []
  {
  }

  lemma DeltaBlobLeads(p: ProducerState, version: nat, prev: Content, cur: Content)
    requires version == p.currentVersion + 1 && NoEmptyLists(p.engine.delta)
    requires forall t :: t !in p.engine.primaryKeys ==> ListOf(p.engine.delta, t) == PlainDelta(prev, cur, t)
    ensures LeadsTo(p.engine.primaryKeys, DeltaOf(p, version), version, prev, cur)
  {
    var b, d := DeltaOf(p, version), OptimizeMap(p.engine.delta);
    OptimizedDeltas(p.engine.delta);
    forall t | t !in p.engine.primaryKeys ensures ListOf(DecodedDelta(b.data), t) == PlainDelta(prev, cur, t) {
      OptimizedPlain(prev, cur, p.engine.delta, t);
      if EmptyMap(d) { EmptyLists(d, t); }
    }
  }

  function PopulatedContent(p: ProducerState, input: CycleInput): Content {
    ContentOf(Populated(p, input.rows).current)
  }

  lemma PopulatedFacts(p: ProducerState, rows: seq<Payload>)
    ensures var e := Populated(p, rows);
      && e.previous == Some(p.engine.current) && e.primaryKeys == p.engine.primaryKeys
      && (forall t :: t !in e.primaryKeys ==> ListOf(e.delta, t) == [])
      && NonEmptyLists(ContentOf(e.current))
  {
    PopulateFrame(Prepare(p.engine), rows);
    PopulateNonEmpty(Prepare(p.engine), rows);
    var e := Populated(p, rows);
    forall t | t in e.current ensures Values(e.current[t]) != [] { assert |Values(e.current[t])| == |e.current[t]|; }
  }

  /** The values a cycle is given, type by type. */
  function RowsContent(rows: seq<Payload>): Content {
    map t | t in (set v | v in rows :: v.typeName) :: OfType(rows, t)
  }

  lemma {:induction false} OfTypeSome(rows: seq<Payload>, t: string)
    ensures OfType(rows, t) != [] <==> exists v :: v in rows && v.typeName == t
  {
    if rows != [] {
      assert rows == rows[..|rows| - 1] + [rows[|rows| - 1]];
      OfTypeSome(rows[..|rows| - 1], t);
    }
  }

  lemma AddedValues(e: Engine, v: Payload, t: string)
    ensures Values(ListOf(AddValue(e, v).current, t)) ==
      Values(ListOf(e.current, t)) + if v.typeName == t then [v] else []
    ensures t in AddValue(e, v).current <==> t in e.current || v.typeName == t
  {
    var f := AddValue(e, v);
    if v.typeName == t {
      var rs := ListOf(f.current, t);
      assert rs[..|rs| - 1] == ListOf(e.current, t);
    }
  }

  lemma {:induction false} PopulatedValues(e: Engine, rows: seq<Payload>, t: string)
    requires e.current == map[]
    ensures Values(ListOf(AddAll(e, rows).current, t)) == OfType(rows, t)
    ensures t in AddAll(e, rows).current <==> OfType(rows, t) != []
  {
    if rows != [] {
      PopulatedValues(e, rows[..|rows| - 1], t);
      AddedValues(AddAll(e, rows[..|rows| - 1]), rows[|rows| - 1], t);
    }
  }

  /** A cycle's content is what it was given: nothing lost, nothing reordered within a type. */
  lemma PopulatedIsRows(p: ProducerState, input: CycleInput)
    ensures PopulatedContent(p, input) == RowsContent(input.rows)
  {
    var c, d := PopulatedContent(p, input), RowsContent(input.rows);
    forall t ensures (t in c <==> t in d) && (t in c ==> c[t] == d[t]) {
      PopulatedValues(Prepare(p.engine), input.rows, t);
      OfTypeSome(input.rows, t);
    }
  }

  // ----- the outcome of a cycle, told from what it is given -----

  /** Something is published already, and the digest of the new values is that of the last published ones. */
  predicate Repeats(p: ProducerState, input: CycleInput) {
    p.currentVersion > 0 && p.lastDataHash == Some(DataHash(RowsContent(input.rows)))
  }

  /** The cycle gets as far as the validators. */
  predicate Advances(p: ProducerState, input: CycleInput) {
    input.primary && input.rows != [] && !Repeats(p, input)
  }

  predicate SnapshotIsDue(p: ProducerState) {
    ShouldCreateSnapshot(p, p.currentVersion + 1)
  }

  /** The producer at the moment a cycle starts to commit. */
  function Populating(p: ProducerState, input: CycleInput): ProducerState {
    p.(engine := Populated(p, input.rows))
  }

  function MeasuredProducer(p: ProducerState, input: CycleInput): ProducerState {
    var r := Populating(p, input);
    r.(engine := Measured(r, r.engine))
  }

  /** The delta of the cycle has a record. */
  predicate HasChanges(p: ProducerState, input: CycleInput) {
    !EmptyMap(MeasuredProducer(p, input).engine.delta)
  }

  /** There is something to serialize, and the serializer refuses it. */
  predicate Unstorable(p: ProducerState, input: CycleInput) {
    !input.encodes && (SnapshotIsDue(p) || HasChanges(p, input))
  }

  predicate Publishing(p: ProducerState, input: CycleInput) {
    Advances(p, input) && Failed !in input.verdicts && !Unstorable(p, input)
  }

  /** A snapshot is due and cannot be stored. */
  predicate LosesSnapshot(p: ProducerState, input: CycleInput) {
    Advances(p, input) && Failed !in input.verdicts && !input.encodes && SnapshotIsDue(p)
  }

  /** The blob a cycle stores if it gets that far, from the producer with its measured engine. */
  function BlobOf(m: ProducerState, version: nat): Blob {
    if ShouldCreateSnapshot(m, version) then SnapshotOf(m, version) else DeltaOf(m, version)
  }

  lemma StoreBlobFacts(m: ProducerState, version: nat, encodes: bool)
    ensures var (q, ok) := StoreBlob(m, version, encodes);
      && q.engine == m.engine.(delta := q.engine.delta)
      && q == m.(engine := q.engine, store := q.store,
                 lastSnapshotVersion := if ShouldCreateSnapshot(m, version) then version else m.lastSnapshotVersion)
      && q.store == if ok then Stored(m.store, BlobOf(m, version)) else m.store
  {
  }

  /** What committing does, told from the producer `p` and the measured engine `f`. */
  ghost predicate Committed(p: ProducerState, f: Engine, q: ProducerState, o: Outcome, hash: Digest) {
    var v := p.currentVersion + 1;
    && o in {Published, StoreFailed, Rejected}
    && q.engine.primaryKeys == f.primaryKeys && q.engine.numbering == f.numbering
    && q.engine.current == (if o == Rejected then map[] else f.current)
    && q == p.(engine := q.engine, store := q.store, lastSnapshotVersion := q.lastSnapshotVersion,
               currentVersion := if o == Published then v else p.currentVersion,
               lastDataHash := if o == Published then Some(hash) else p.lastDataHash)
    && q.store == (if o == Published then Stored(p.store, BlobOf(p.(engine := f), v)) else p.store)
    && q.lastSnapshotVersion == if o != Rejected && ShouldCreateSnapshot(p, v) then v else p.lastSnapshotVersion
  }

  lemma StoringCommits(p: ProducerState, f: Engine, hash: Digest, encodes: bool)
    ensures var (q, ok) := StoreBlob(p.(engine := f), p.currentVersion + 1, encodes);
      && (ok ==> var r := q.(currentVersion := p.currentVersion + 1, lastDataHash := Some(hash));
           Committed(p, f, r, Published, hash))
      && (!ok ==> Committed(p, f, q, StoreFailed, hash))
  {
    StoreBlobFacts(p.(engine := f), p.currentVersion + 1, encodes);
  }

  lemma CommitFacts(p: ProducerState, hash: Digest, input: CycleInput)
    ensures Committed(p, Measured(p, p.engine), Commit(p, hash, input).0, Commit(p, hash, input).1, hash)
  {
    StoringCommits(p, Measured(p, p.engine), hash, input.encodes);
  }

  lemma CycleCommits(p: ProducerState, input: CycleInput)
    requires Cycle(p, input).1 in {Published, StoreFailed, Rejected}
    ensures Cycle(p, input) == Commit(Populating(p, input), DataHash(PopulatedContent(p, input)), input)
    ensures !EmptyData(Populated(p, input.rows).current)
    ensures p.currentVersion > 0 ==> p.lastDataHash != Some(DataHash(PopulatedContent(p, input)))
  {
  }

  lemma CommitEnds(p: ProducerState, hash: Digest, input: CycleInput)
    ensures Commit(p, hash, input).1 in {Published, StoreFailed, Rejected}
  {
  }

  lemma CycleStops(p: ProducerState, input: CycleInput)
    requires Cycle(p, input).1 in {NotPrimary, EmptyCycle, Identical}
    ensures Cycle(p, input).0 == if Cycle(p, input).1 == NotPrimary then p else Populating(p, input)
  {
    CommitEnds(Populating(p, input), DataHash(PopulatedContent(p, input)), input);
  }

  /** What a cycle does to versions, digest and store, told from its committing producer. */
  ghost predicate Effect(p: ProducerState, q: ProducerState, o: Outcome, c: Content, stored: Store) {
    var v := p.currentVersion + 1;
    && q.engine.primaryKeys == p.engine.primaryKeys && q.numStatesBetweenSnapshots == p.numStatesBetweenSnapshots
    && q.currentVersion == (if o == Published then v else p.currentVersion)
    && q.lastDataHash == (if o == Published then Some(DataHash(c)) else p.lastDataHash)
    && q.store == (if o == Published then stored else p.store)
    && q.lastSnapshotVersion ==
         (if (o == Published || o == StoreFailed) && ShouldCreateSnapshot(p, v) then v else p.lastSnapshotVersion)
    && (o == NotPrimary ==> q == p)
    && (o in {Published, StoreFailed, Identical, EmptyCycle} ==> ContentOf(q.engine.current) == c)
    && (o == Rejected ==> ContentOf(q.engine.current) == map[])
  }

  lemma EffectOfCommit(p: ProducerState, r: ProducerState, f: Engine, q: ProducerState, o: Outcome, c: Content)
    requires r == p.(engine := r.engine) && Committed(r, f, q, o, DataHash(c))
    requires f.primaryKeys == p.engine.primaryKeys && ContentOf(f.current) == c
    ensures Effect(p, q, o, c, Stored(p.store, BlobOf(r.(engine := f), p.currentVersion + 1)))
  {
  }

  lemma EffectOfStop(p: ProducerState, r: ProducerState, q: ProducerState, o: Outcome, c: Content, stored: Store)
    requires o in {NotPrimary, EmptyCycle, Identical} && q == if o == NotPrimary then p else r
    requires r == p.(engine := r.engine) && r.engine.primaryKeys == p.engine.primaryKeys
    requires ContentOf(r.engine.current) == c
    ensures Effect(p, q, o, c, stored)
  {
  }

  lemma CycleEffect(p: ProducerState, input: CycleInput)
    ensures Effect(p, Cycle(p, input).0, Cycle(p, input).1, PopulatedContent(p, input),
                   Stored(p.store, BlobOf(MeasuredProducer(p, input), p.currentVersion + 1)))
  {
    PopulatedFacts(p, input.rows);
    var r, c := Populating(p, input), PopulatedContent(p, input);
    var (q, o) := Cycle(p, input);
    if o in {Published, StoreFailed, Rejected} {
      CycleCommits(p, input);
      CommitFacts(r, DataHash(c), input);
      MeasuredFrame(r, r.engine);
      EffectOfCommit(p, r, Measured(r, r.engine), q, o, c);
    } else {
      CycleStops(p, input);
      EffectOfStop(p, r, q, o, c, Stored(p.store, BlobOf(MeasuredProducer(p, input), p.currentVersion + 1)));
    }
  }

  lemma EmptyDataIsEmpty(d: Data)
    requires NonEmptyLists(ContentOf(d))
    ensures EmptyData(d) <==> ContentOf(d) == map[]
  {
    assert ContentOf(d).Keys == d.Keys;
    forall t | t in d ensures d[t] != [] { assert ContentOf(d)[t] != []; }
    if EmptyData(d) { assert d.Keys == {}; }
  }

  lemma NoRows(rows: seq<Payload>)
    ensures RowsContent(rows) == map[] <==> rows == []
  {
    if rows == [] {
      assert RowsContent(rows).Keys == {};
    } else {
      assert rows[0] in rows;
      assert rows[0].typeName in RowsContent(rows);
    }
  }

  lemma StoringWorks(p: ProducerState, input: CycleInput)
    ensures var m := MeasuredProducer(p, input);
      StoreBlob(m, p.currentVersion + 1, input.encodes).1 <==> !Unstorable(p, input)
  {
    OptimizeMapIdempotent(MeasuredProducer(p, input).engine.delta);
  }

  lemma CommitOutcome(p: ProducerState, input: CycleInput, hash: Digest)
    ensures Commit(Populating(p, input), hash, input).1 ==
      if Failed in input.verdicts then Rejected else if Unstorable(p, input) then StoreFailed else Published
  {
    StoringWorks(p, input);
  }

  lemma EarlyOutcome(p: ProducerState, input: CycleInput)
    ensures Cycle(p, input).1 ==
      if !input.primary then NotPrimary
      else if input.rows == [] then EmptyCycle
      else if Repeats(p, input) then Identical
      else Commit(Populating(p, input), DataHash(RowsContent(input.rows)), input).1
  {
    PopulatedFacts(p, input.rows);
    PopulatedIsRows(p, input);
    EmptyDataIsEmpty(Populated(p, input.rows).current);
    NoRows(input.rows);
  }

  /** Each of the six outcomes, exactly, from the producer's state and what the cycle is given. */
  lemma CycleOutcome(p: ProducerState, input: CycleInput)
    ensures var o := Cycle(p, input).1;
      && (o == NotPrimary <==> !input.primary)
      && (o == EmptyCycle <==> input.primary && input.rows == [])
      && (o == Identical <==> input.primary && input.rows != [] && Repeats(p, input))
      && (o == Rejected <==> Advances(p, input) && Failed in input.verdicts)
      && (o == StoreFailed <==> Advances(p, input) && Failed !in input.verdicts && Unstorable(p, input))
      && (o == Published <==> Publishing(p, input))
  {
    EarlyOutcome(p, input);
    CommitOutcome(p, input, DataHash(RowsContent(input.rows)));
  }

  lemma {:induction false} AllOfType(rows: seq<Payload>, t: string)
    requires forall v :: v in rows ==> v.typeName == t
    ensures OfType(rows, t) == rows
  {
    if rows != [] {
      AllOfType(rows[..|rows| - 1], t);
      assert rows == rows[..|rows| - 1] + [rows[|rows| - 1]];
    }
  }

  lemma OneTypeContent(rows: seq<Payload>, t: string)
    requires rows != [] && forall v :: v in rows ==> v.typeName == t
    ensures RowsContent(rows) == map[t := rows]
  {
    AllOfType(rows, t);
    assert rows[0] in rows;
    assert RowsContent(rows).Keys == {t};
  }

  /** With one type, a cycle is taken for identical exactly when count and text, all records run together, agree. */
  lemma OneTypeIdentical(p: ProducerState, input: CycleInput, t: string, last: seq<Payload>)
    requires p.currentVersion > 0 && p.lastDataHash == Some(DataHash(map[t := last]))
    requires input.rows != [] && forall v :: v in input.rows ==> v.typeName == t
    requires |input.rows| < TWO_64 && |last| < TWO_64
    ensures Cycle(p, input).1 == Identical <==>
      input.primary && |input.rows| == |last| && Joined(input.rows) == Joined(last)
  {
    CycleOutcome(p, input);
    OneTypeContent(input.rows, t);
    OneTypeExact(t, input.rows, t, last);
  }

  /** A published delta leads from the engine's previous content to its new one. */
  lemma PublishedDelta(p: ProducerState, input: CycleInput)
    requires !ShouldCreateSnapshot(p, p.currentVersion + 1)
    ensures var v := p.currentVersion + 1;
      LeadsTo(p.engine.primaryKeys, BlobOf(MeasuredProducer(p, input), v), v,
              ContentOf(p.engine.current), PopulatedContent(p, input))
  {
    PopulatedFacts(p, input.rows);
    var r, m := Populating(p, input), MeasuredProducer(p, input);
    MeasuredFrame(r, r.engine);
    forall t | t !in p.engine.primaryKeys
      ensures ListOf(m.engine.delta, t) == PlainDelta(ContentOf(p.engine.current), PopulatedContent(p, input), t)
    {
      MeasuredPlain(r, r.engine, t);
    }
    PopulateDeltas(Prepare(p.engine), input.rows);
    MeasuredDeltas(r, r.engine);
    DeltaBlobLeads(m, p.currentVersion + 1, ContentOf(p.engine.current), PopulatedContent(p, input));
  }

  lemma PublishedSnapshot(p: ProducerState, input: CycleInput)
    requires ShouldCreateSnapshot(p, p.currentVersion + 1)
    ensures var v := p.currentVersion + 1;
      BlobOf(MeasuredProducer(p, input), v) == Blob(SnapshotBlob, v, 0, v, SnapshotBytes(PopulatedContent(p, input)))
  {
    PopulatedFacts(p, input.rows);
    MeasuredFrame(Populating(p, input), Populated(p, input.rows));
  }

  /** Publishing `c` in blob `b`, as seen from outside: versions, digest, store, and the state left behind. */
  ghost predicate Publishes(p: ProducerState, q: ProducerState, c: Content, b: Blob) {
    var v := p.currentVersion + 1;
    && c != map[] && NonEmptyLists(c) && ContentOf(q.engine.current) == c
    && q.engine.primaryKeys == p.engine.primaryKeys && q.numStatesBetweenSnapshots == p.numStatesBetweenSnapshots
    && q.currentVersion == v && q.lastDataHash == Some(DataHash(c))
    && (p.currentVersion > 0 ==> p.lastDataHash != Some(DataHash(c)))
    && q.lastSnapshotVersion == (if ShouldCreateSnapshot(p, v) then v else p.lastSnapshotVersion)
    && q.store == Stored(p.store, b)
    && (ShouldCreateSnapshot(p, v) ==> b == Blob(SnapshotBlob, v, 0, v, SnapshotBytes(c)))
    && (!ShouldCreateSnapshot(p, v) ==> LeadsTo(p.engine.primaryKeys, b, v, ContentOf(p.engine.current), c))
  }

  lemma CyclePublishes(p: ProducerState, input: CycleInput) returns (b: Blob)
    requires Cycle(p, input).1 == Published
    ensures Publishes(p, Cycle(p, input).0, PopulatedContent(p, input), b)
  {
    var v := p.currentVersion + 1;
    b := BlobOf(MeasuredProducer(p, input), v);
    CycleEffect(p, input);
    CycleOutcome(p, input);
    PopulatedFacts(p, input.rows);
    PopulatedIsRows(p, input);
    NoRows(input.rows);
    if ShouldCreateSnapshot(p, v) { PublishedSnapshot(p, input); } else { PublishedDelta(p, input); }
  }

  // ----- what a cycle answers -----

  /** What the caller gets back, a version and whether there was no error; and the version handed to the announcer. */
  datatype Answer = Answer(version: int, ok: bool, announced: Option<int>)

  /** The store after publishing `c`: a snapshot of it under its version, or a delta from the version before. */
  ghost predicate StoresVersion(p: ProducerState, q: ProducerState, c: Content) {
    var v := p.currentVersion + 1;
    if SnapshotIsDue(p) then
      q.store == p.store.(snapshots := p.store.snapshots[v := Blob(SnapshotBlob, v, 0, v, SnapshotBytes(c))])
    else
      && v - 1 in q.store.deltas && q.store == p.store.(deltas := p.store.deltas[v - 1 := q.store.deltas[v - 1]])
      && LeadsTo(p.engine.primaryKeys, q.store.deltas[v - 1], v, ContentOf(p.engine.current), c)
  }

  /**
   What a cycle answers and does to version and store, told from the producer before
   it and what it is given: a publishing one returns and announces the next version,
   and has stored it; no other announces or stores anything.
   */
  ghost predicate Answered(p: ProducerState, input: CycleInput, q: ProducerState, a: Answer) {
    && (Publishing(p, input) ==>
          a.ok && a.version == q.currentVersion == p.currentVersion + 1 && a.announced == Some(a.version) &&
          StoresVersion(p, q, RowsContent(input.rows)))
    && (!Publishing(p, input) ==> a.announced == None && q.currentVersion == p.currentVersion && q.store == p.store)
    && (!input.primary || (input.rows != [] && Repeats(p, input)) ==> a.ok && a.version == p.currentVersion)
    && (input.primary && input.rows == [] ==> a.ok && a.version == 0)
    && (Advances(p, input) && (Failed in input.verdicts || Unstorable(p, input)) ==> !a.ok && a.version == 0)
  }

  lemma PublishedStore(p: ProducerState, q: ProducerState, c: Content, b: Blob)
    requires Publishes(p, q, c, b)
    ensures StoresVersion(p, q, c) && q.currentVersion == p.currentVersion + 1
  {
  }

  /** The answer of the code in each outcome. */
  predicate AnswersAs(o: Outcome, q: ProducerState, a: Answer) {
    match o
    case NotPrimary => a == Answer(q.currentVersion, true, None)
    case EmptyCycle => a == Answer(0, true, None)
    case Identical => a == Answer(q.currentVersion, true, None)
    case Rejected => a == Answer(0, false, None)
    case StoreFailed => a == Answer(0, false, None)
    case Published => a == Answer(q.currentVersion, true, Some(q.currentVersion))
  }

  lemma CycleAnswers(p: ProducerState, input: CycleInput, a: Answer)
    requires AnswersAs(Cycle(p, input).1, Cycle(p, input).0, a)
    ensures Answered(p, input, Cycle(p, input).0, a)
  {
    var (q, o) := Cycle(p, input);
    CycleOutcome(p, input);
    CycleEffect(p, input);
    if o == Published {
      var b := CyclePublishes(p, input);
      PopulatedIsRows(p, input);
      PublishedStore(p, q, RowsContent(input.rows), b);
    }
  }

  // ----- the versions a run announces -----

  /** Cycles one after the other, each with its input and its answer. */
  ghost predicate AnswersRun(start: ProducerState, inputs: seq<CycleInput>, answers: seq<Answer>, end: ProducerState) {
    |answers| == |inputs| &&
    if inputs == [] then end == start else
      var n := |inputs| - 1;
      exists p: ProducerState ::
        AnswersRun(start, inputs[..n], answers[..n], p) && Answered(p, inputs[n], end, answers[n])
  }

  /** What was handed to the announcer, in order. */
  function Announcements(answers: seq<Answer>): seq<int> {
    if answers == [] then [] else
      var last := answers[|answers| - 1].announced;
      Announcements(answers[..|answers| - 1]) + if last.Some? then [last.value] else []
  }

  /** Version `v` can be read: as a snapshot, or as a delta from the version before. */
  predicate Readable(s: Store, v: int) {
    v in s.snapshots || (v - 1 in s.deltas && s.deltas[v - 1].toVersion == v)
  }

  lemma ReadableKept(p: ProducerState, q: ProducerState, c: Content, v: int)
    requires StoresVersion(p, q, c)
    ensures Readable(q.store, p.currentVersion + 1)
    ensures v <= p.currentVersion && Readable(p.store, v) ==> Readable(q.store, v)
  {
  }

  /** The next version is announced and can be read, or nothing changes; and what could be read still can. */
  ghost predicate Announces(p: ProducerState, q: ProducerState, a: Answer) {
    && (forall v :: v <= p.currentVersion && Readable(p.store, v) ==> Readable(q.store, v))
    && if a.announced.Some? then
         a.announced.value == q.currentVersion == p.currentVersion + 1 && Readable(q.store, q.currentVersion)
       else q.currentVersion == p.currentVersion
  }

  lemma AnsweredAnnounces(p: ProducerState, input: CycleInput, q: ProducerState, a: Answer)
    requires Answered(p, input, q, a)
    ensures Announces(p, q, a)
  {
    if Publishing(p, input) {
      forall v { ReadableKept(p, q, RowsContent(input.rows), v); }
      ReadableKept(p, q, RowsContent(input.rows), 0);
    }
  }

  /** The versions above `low` up to `high`, each once and in order, and all of them stored. */
  predicate AnnouncedUpTo(announced: seq<int>, low: int, high: int, s: Store) {
    && |announced| == high - low && (forall i :: 0 <= i < |announced| ==> announced[i] == low + 1 + i)
    && (forall v :: v in announced ==> Readable(s, v))
  }

  lemma AnnouncedNext(announced: seq<int>, low: int, p: ProducerState, q: ProducerState, a: Answer)
    requires AnnouncedUpTo(announced, low, p.currentVersion, p.store) && Announces(p, q, a)
    ensures var now := announced + if a.announced.Some? then [a.announced.value] else [];
      AnnouncedUpTo(now, low, q.currentVersion, q.store)
  {
    forall v | v in announced ensures Readable(q.store, v) {
      var i :| 0 <= i < |announced| && announced[i] == v;
      assert v <= p.currentVersion;
    }
  }

  /**
   Over any run the announced versions are the ones above the version it started
   from, each once and in order, up to the current one; and all of them are stored.
   */
  lemma {:induction false} AnnouncedInOrder(start: ProducerState, inputs: seq<CycleInput>, answers: seq<Answer>,
                                            end: ProducerState)
    requires AnswersRun(start, inputs, answers, end)
    ensures AnnouncedUpTo(Announcements(answers), start.currentVersion, end.currentVersion, end.store)
  {
    if inputs != [] {
      var n := |inputs| - 1;
      var p: ProducerState :|
        AnswersRun(start, inputs[..n], answers[..n], p) && Answered(p, inputs[n], end, answers[n]);
      AnnouncedInOrder(start, inputs[..n], answers[..n], p);
      AnsweredAnnounces(p, inputs[n], end, answers[n]);
      AnnouncedNext(Announcements(answers[..n]), start.currentVersion, p, end, answers[n]);
    }
  }

  // ----- the shape of the store -----

  /** The newest snapshot version up to `current`, by the producer's interval test. */
  function LastSnapshotAt(n: int, current: nat): (last: nat)
    ensures last <= current
  {
    if current == 0 then 0 else
      var before := LastSnapshotAt(n, current - 1);
      if before == 0 || current - before >= n then current else before
  }

  predicate IsSnapshotVersion(n: int, v: int) {
    v >= 1 && LastSnapshotAt(n, v) == v
  }

  lemma MulAtLeast(k: nat, n: nat)
    requires k >= 1
    ensures k * n >= n
  {
    assert k * n == n + (k - 1) * n;
  }

  lemma ModUnique(a: nat, q: nat, r: nat, n: nat)
    requires n > 0 && a == q * n + r && r < n
    ensures a % n == r
  {
    var d, m := a / n, a % n;
    assert a == d * n + m;
    assert (d - q) * n == r - m && (q - d) * n == m - r;
    if d > q { MulAtLeast(d - q, n); }
    if d < q { MulAtLeast(q - d, n); }
  }

  lemma ModStep(a: nat, n: nat)
    requires n > 1
    ensures (a + 1) % n == if a % n == n - 1 then 0 else a % n + 1
  {
    var q, r := a / n, a % n;
    assert a == q * n + r;
    if r == n - 1 {
      assert a + 1 == (q + 1) * n;
      ModUnique(a + 1, q + 1, 0, n);
    } else {
      ModUnique(a + 1, q, r + 1, n);
    }
  }

  lemma RemainderBelow(a: nat, n: nat)
    requires n > 0
    ensures a % n <= a
  {
    assert a == a / n * n + a % n;
  }

  /** The interval test selects every n-th version from version 1 on, and every version when n is below 2. */
  lemma {:induction false} SnapshotVersions(n: int, v: nat)
    requires v >= 1
    ensures LastSnapshotAt(n, v) == if n <= 1 then v else v - (v - 1) % n
    ensures IsSnapshotVersion(n, v) <==> n <= 1 || (v - 1) % n == 0
  {
    if v > 1 {
      SnapshotVersions(n, v - 1);
      if n > 1 {
        ModStep(v - 2, n);
        RemainderBelow(v - 2, n);
      }
    } else if n > 1 {
      ModUnique(0, 0, 0, n);
    }
  }

  /** When the producer's counter is right, its test says whether the next version is a snapshot version. */
  lemma SnapshotDue(n: int, current: nat, last: nat)
    requires last == LastSnapshotAt(n, current)
    ensures (last == 0 || current + 1 - last >= n) <==> IsSnapshotVersion(n, current + 1)
    ensures LastSnapshotAt(n, current + 1) == if IsSnapshotVersion(n, current + 1) then current + 1 else last
  {
  }

  /**
   The store invariant: version v has a snapshot exactly at the snapshot versions,
   and every other version has the delta from v - 1 to v.
   */
  ghost predicate StoreShape(p: ProducerState) {
    var n := p.numStatesBetweenSnapshots;
    && Filled(p.store)
    && p.lastSnapshotVersion == LastSnapshotAt(n, p.currentVersion)
    && (forall v :: v in p.store.snapshots <==> 1 <= v <= p.currentVersion && IsSnapshotVersion(n, v))
    && (forall v :: 1 < v <= p.currentVersion && !IsSnapshotVersion(n, v) ==>
          v - 1 in p.store.deltas && p.store.deltas[v - 1].toVersion == v)
  }

  lemma ShapeGrows(p: ProducerState, q: ProducerState, b: Blob)
    requires StoreShape(p) && q.currentVersion == p.currentVersion + 1
    requires q.numStatesBetweenSnapshots == p.numStatesBetweenSnapshots
    requires q.lastSnapshotVersion ==
      if ShouldCreateSnapshot(p, q.currentVersion) then q.currentVersion else p.lastSnapshotVersion
    requires q.store == Stored(p.store, b)
    requires if ShouldCreateSnapshot(p, q.currentVersion) then b.kind == SnapshotBlob && b.version == q.currentVersion
      else b.kind == DeltaBlob && b.fromVersion == p.currentVersion && b.toVersion == q.currentVersion
    ensures StoreShape(q)
  {
    SnapshotDue(p.numStatesBetweenSnapshots, p.currentVersion, p.lastSnapshotVersion);
  }

  lemma PublishKeepsShape(p: ProducerState, q: ProducerState, c: Content, b: Blob)
    requires StoreShape(p) && Publishes(p, q, c, b)
    ensures StoreShape(q)
  {
    ShapeGrows(p, q, b);
  }

  /** The only cycle that breaks the shape is one whose due snapshot could not be stored. */
  lemma StoreShapeKept(p: ProducerState, input: CycleInput)
    requires StoreShape(p)
    ensures StoreShape(Cycle(p, input).0) <==> !LosesSnapshot(p, input)
  {
    var (q, o) := Cycle(p, input);
    SnapshotDue(p.numStatesBetweenSnapshots, p.currentVersion, p.lastSnapshotVersion);
    CycleEffect(p, input);
    CycleOutcome(p, input);
    if o == Published {
      var b := CyclePublishes(p, input);
      PublishKeepsShape(p, q, PopulatedContent(p, input), b);
    }
  }

  /** Some snapshot version lies among any n versions in a row. */
  lemma {:induction false} SnapshotNear(n: int, v: nat)
    requires n >= 1 && v >= 1
    ensures v - n < LastSnapshotAt(n, v) && IsSnapshotVersion(n, LastSnapshotAt(n, v))
  {
    if v > 1 { SnapshotNear(n, v - 1); }
  }

  /** Between published versions the planner finds no gap, and needs no more blobs than an interval holds. */
  lemma PlanBounded(p: ProducerState, from: nat, target: nat)
    requires StoreShape(p) && p.numStatesBetweenSnapshots >= 1 && from <= target <= p.currentVersion
    ensures Plan(p.store, from, target).Ok?
    ensures |Plan(p.store, from, target).value| <= p.numStatesBetweenSnapshots
    ensures |Plan(p.store, from, target).value| <= target - from
  {
    PlanCorrect(p.store, from, target);
    if from < target {
      var n, a := p.numStatesBetweenSnapshots, Anchor(p.store, from, target);
      AnchorIsNewest(p.store, from, target);
      if a == 0 {
        assert IsSnapshotVersion(n, 1);
        assert 1 in p.store.snapshots;
      }
      forall v | a <= v < target ensures v in p.store.deltas {
        assert v + 1 !in p.store.snapshots;
      }
      SnapshotNear(n, target);
    }
  }

  // ----- the base every delta is measured against -----

  /**
   The diff base.  If the engine's state reads like the last published one, then
   after a cycle that publishes nothing it still does exactly when the cycle was
   skipped for another producer or was given values that read the same.  Empty,
   rejected and unstorable cycles always move the base.
   */
  lemma BaseKept(p: ProducerState, input: CycleInput, last: Content)
    requires p.currentVersion > 0 && p.lastDataHash == Some(DataHash(last)) && last != map[]
    requires SameContent(ContentOf(p.engine.current), last)
    requires !Publishing(p, input)
    ensures SameContent(ContentOf(Cycle(p, input).0.engine.current), last) <==>
      !input.primary || SameContent(RowsContent(input.rows), last)
  {
    CycleEffect(p, input);
    CycleOutcome(p, input);
    PopulatedIsRows(p, input);
    NoRows(input.rows);
    assert last.Keys != {};
    if SameContent(RowsContent(input.rows), last) { SameDigest(RowsContent(input.rows), last); }
  }

  /** A delta measured against a state that reads like `other` leads from `other` as well. */
  lemma LeadsFromSame(primaryKeys: map<string, string>, b: Blob, version: int, prev: Content, other: Content,
                      cur: Content)
    requires LeadsTo(primaryKeys, b, version, prev, cur) && SameContent(prev, other)
    ensures LeadsTo(primaryKeys, b, version, other, cur)
  {
    forall t | t !in primaryKeys ensures PlainDelta(prev, cur, t) == PlainDelta(other, cur, t) {
      DiffByText(ListOf(prev, t), ListOf(other, t), ListOf(cur, t));
    }
  }

  lemma PlainDeltaEmptyAt(prev: Content, cur: Content, t: string)
    requires NonEmptyLists(cur) && prev.Keys <= cur.Keys
    ensures PlainDelta(prev, cur, t) == [] <==> (t in cur ==> t in prev && SameText(prev[t], cur[t]))
  {
    if t in cur { DiffEmpty(ListOf(prev, t), cur[t]); }
  }

  /** Without primary keys and without vanishing types, a delta is empty exactly when nothing reads differently. */
  lemma PlainDeltaEmpty(b: Blob, version: int, prev: Content, cur: Content)
    requires LeadsTo(map[], b, version, prev, cur)
    requires NonEmptyLists(cur) && prev.Keys <= cur.Keys
    ensures b.data.DeltaBytes? <==> !SameContent(prev, cur)
  {
    var d := DecodedDelta(b.data);
    if b.data.DeltaBytes? {
      var t :| t in d && d[t] != [];
      assert ListOf(d, t) == PlainDelta(prev, cur, t);
      PlainDeltaEmptyAt(prev, cur, t);
    } else {
      forall t | t in cur ensures t in prev && SameText(prev[t], cur[t]) {
        assert ListOf(d, t) == PlainDelta(prev, cur, t);
        PlainDeltaEmptyAt(prev, cur, t);
      }
    }
  }
}
