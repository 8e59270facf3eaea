/**
 Whole runs at one type with a primary key: what the store says about it, and the
 runs in which the consumer's list positions stay equal to the ordinals.
 */
module KeyedRuns {
  import opened Basics
  import opened Deltas
  import opened Positional
  import opened WriteEngine
  import opened BlobStore
  import opened Production
  import opened Digests
  import opened Consumption
  import opened History
  import opened Walking
  import opened PrimaryKeys
  import opened KeyedHistory
  import R = Replication

  // ----- the store against the published record lists -----

  /** The same ordinals handed out, and tables that read the same. */
  ghost predicate SameKeyed(a: Keyed, b: Keyed) {
    a.next == b.next && ReadsAs(TableOf(a.records), TableOf(b.records))
  }

  ghost predicate SnapshotsList(s: Store, recs: seq<Keyed>, t: string) {
    forall v :: v in s.snapshots ==>
      (1 <= v <= |recs| && s.snapshots[v].data.SnapshotBytes? &&
        ListOf(s.snapshots[v].data.content, t) == Values(recs[v - 1].records))
  }

  function DeltaIn(b: Blob, t: string): seq<DeltaRecord> {
    ListOf(DecodedDelta(b.data), t)
  }

  ghost predicate DeltaTold(s: Store, recs: seq<Keyed>, t: string, v: int)
    requires 1 < v <= |recs|
  {
    v - 1 in s.deltas && Tells(DeltaIn(s.deltas[v - 1], t), recs[v - 2], recs[v - 1])
  }

  ghost predicate DeltasTold(n: int, s: Store, recs: seq<Keyed>, t: string) {
    forall v :: 1 < v <= |recs| && !IsSnapshotVersion(n, v) ==> DeltaTold(s, recs, t, v)
  }

  /** Only ordinals that have been handed out are in use. */
  ghost predicate Bounded(k: Keyed) {
    forall o: nat :: o in TableOf(k.records) ==> o < k.next
  }

  ghost predicate AllTagged(n: Numbering, recs: seq<Keyed>, t: string, field: string) {
    forall i :: 0 <= i < |recs| ==> Tagged(n, t, field, recs[i].records) && Bounded(recs[i])
  }

  /** The base of the next cycle reads like the last published list; before any, no ordinal is out. */
  ghost predicate KeyedBaseReads(e: Engine, recs: seq<Keyed>, t: string) {
    if recs == [] then NextOf(e.numbering, t) == 0 else SameKeyed(KeyedOf(e, t), recs[|recs| - 1])
  }

  /** Every ordinal handed out is in use, at the list position of the same number. */
  predicate InPlace(k: Keyed) {
    InOrder(k.records) && |k.records| == k.next
  }

  ghost predicate KeyedRecorded(p: ProducerState, recs: seq<Keyed>, t: string, field: string) {
    && |recs| == p.currentVersion && StoreShape(p)
    && KeyedBase(p.engine, t, field) && AllTagged(p.engine.numbering, recs, t, field)
    && SnapshotsList(p.store, recs, t) && DeltasTold(p.numStatesBetweenSnapshots, p.store, recs, t)
    && KeyedBaseReads(p.engine, recs, t) && (recs != [] ==> InPlace(recs[0]))
  }

  /** A cycle the theorems speak of: distinct readable keys, and it publishes or rightly stands still. */
  ghost predicate KeyedSucceeds(p: ProducerState, recs: seq<Keyed>, input: CycleInput, t: string, field: string) {
    var o := Cycle(p, input).1;
    && KeyedInput(input, t, field)
    && (o == NotPrimary || o == Published ||
        (o == Identical && recs != [] && ReadsAs(TableOf(RecordsOf(p, input, t)), TableOf(recs[|recs| - 1].records))))
  }

  function KeyedLogged(p: ProducerState, recs: seq<Keyed>, input: CycleInput, t: string): seq<Keyed> {
    if Cycle(p, input).1 == Published then recs + [KeyedOf(Populated(p, input.rows), t)] else recs
  }

  lemma TellsFromSame(d: seq<DeltaRecord>, prev: Keyed, other: Keyed, cur: Keyed)
    requires Tells(d, prev, cur) && SameKeyed(prev, other)
    ensures Tells(d, other, cur)
  {
    var a, b := TableOf(prev.records), TableOf(other.records);
    forall o: nat ensures o in a <==> o in b { assert SameAt(At(a, o), At(b, o)); }
    ApplyReadsAs(a, b, d);
    ReadsAsFlip(ApplyAll(a, d), ApplyAll(b, d));
    ReadsAsTrans(ApplyAll(b, d), ApplyAll(a, d), TableOf(cur.records));
  }

  lemma PopulatedTells(p: ProducerState, input: CycleInput, t: string, field: string)
    requires KeyedBase(p.engine, t, field) && KeyedInput(input, t, field)
    ensures Tells(Optimize(Cycled(p, input, t)), KeyedOf(p.engine, t), KeyedOf(Populated(p, input.rows), t))
    ensures NextOf(p.engine.numbering, t) == 0 ==> InPlace(KeyedOf(Populated(p, input.rows), t))
  {
    ReadyFromBase(p.engine, t, field);
    CycleTells(Prepare(p.engine), input.rows, t, field);
    PopulateNovel(Prepare(p.engine), input.rows, t, field);
  }

  // ----- one cycle keeps the record -----

  /** A published version as one keyed type sees it. */
  ghost predicate KeyedPublish(p: ProducerState, q: ProducerState, k: Keyed, b: Blob, t: string, field: string) {
    var v := p.currentVersion + 1;
    && q.currentVersion == v && q.store == Stored(p.store, b) && StoreShape(q)
    && q.numStatesBetweenSnapshots == p.numStatesBetweenSnapshots
    && KeyedBase(q.engine, t, field) && Extends(p.engine.numbering, q.engine.numbering)
    && Tagged(q.engine.numbering, t, field, k.records) && Bounded(k) && SameKeyed(KeyedOf(q.engine, t), k)
    && (if ShouldCreateSnapshot(p, v) then
          b.kind == SnapshotBlob && b.version == v && b.data.SnapshotBytes? &&
            ListOf(b.data.content, t) == Values(k.records)
        else
          b.kind == DeltaBlob && b.fromVersion == v - 1 && Tells(DeltaIn(b, t), KeyedOf(p.engine, t), k))
  }

  lemma SameKeyedRecords(e: Engine, f: Engine, t: string)
    requires SameIdentities(ListOf(e.current, t), ListOf(f.current, t)) && e.numbering == f.numbering
    ensures SameKeyed(KeyedOf(e, t), KeyedOf(f, t))
  {
    SameTable(ListOf(e.current, t), ListOf(f.current, t));
  }

  lemma BaseBounded(e: Engine, t: string, field: string)
    requires KeyedBase(e, t, field)
    ensures Bounded(KeyedOf(e, t))
  {
    forall o: nat | o in TableOf(ListOf(e.current, t)) ensures o < NextOf(e.numbering, t) {
      InUseBelow(e.numbering, t, field, ListOf(e.current, t), o);
    }
  }

  lemma CycleKeyedPublish(p: ProducerState, input: CycleInput, t: string, field: string) returns (b: Blob)
    requires StoreShape(p) && KeyedBase(p.engine, t, field) && KeyedInput(input, t, field)
    requires Cycle(p, input).1 == Published
    ensures KeyedPublish(p, Cycle(p, input).0, KeyedOf(Populated(p, input.rows), t), b, t, field)
  {
    var q, e, v := Cycle(p, input).0, Populated(p, input.rows), p.currentVersion + 1;
    b := BlobOf(MeasuredProducer(p, input), v);
    CycleEffect(p, input);
    CycleOutcome(p, input);
    StoreShapeKept(p, input);
    KeyedBaseKept(p, input, t, field);
    PopulatedBase(p, input, t, field);
    CycleEngine(p, input, t);
    SameKeyedRecords(q.engine, e, t);
    BaseBounded(e, t, field);
    if ShouldCreateSnapshot(p, v) {
      PublishedSnapshot(p, input);
      assert ListOf(PopulatedContent(p, input), t) == Values(RecordsOf(p, input, t));
    } else {
      PublishedKeyed(p, input, t);
      PopulatedTells(p, input, t, field);
    }
  }

  lemma ToldMore(p: ProducerState, q: ProducerState, recs: seq<Keyed>, k: Keyed, b: Blob, t: string, field: string)
    requires KeyedRecorded(p, recs, t, field) && KeyedPublish(p, q, k, b, t, field)
    ensures DeltasTold(q.numStatesBetweenSnapshots, q.store, recs + [k], t)
  {
    var n, later := q.numStatesBetweenSnapshots, recs + [k];
    SnapshotDue(n, p.currentVersion, p.lastSnapshotVersion);
    forall v | 1 < v <= |later| && !IsSnapshotVersion(n, v) ensures DeltaTold(q.store, later, t, v) {
      if v == |later| {
        TellsFromSame(DeltaIn(b, t), KeyedOf(p.engine, t), recs[|recs| - 1], k);
      } else {
        assert DeltaTold(p.store, recs, t, v);
      }
    }
  }

  lemma TaggedMore(n: Numbering, later: Numbering, recs: seq<Keyed>, k: Keyed, t: string, field: string)
    requires AllTagged(n, recs, t, field) && Extends(n, later) && Tagged(later, t, field, k.records) && Bounded(k)
    ensures AllTagged(later, recs + [k], t, field)
  {
    forall i | 0 <= i < |recs| ensures Tagged(later, t, field, recs[i].records) {
      TaggedLater(n, later, t, field, recs[i].records);
    }
  }

  lemma ListedMore(p: ProducerState, q: ProducerState, recs: seq<Keyed>, k: Keyed, b: Blob, t: string, field: string)
    requires KeyedRecorded(p, recs, t, field) && KeyedPublish(p, q, k, b, t, field)
    ensures SnapshotsList(q.store, recs + [k], t)
  {
  }

  lemma KeyedRecordedPublish(p: ProducerState, q: ProducerState, recs: seq<Keyed>, k: Keyed, b: Blob, t: string,
                             field: string)
    requires KeyedRecorded(p, recs, t, field) && KeyedPublish(p, q, k, b, t, field)
    requires recs == [] ==> InPlace(k)
    ensures KeyedRecorded(q, recs + [k], t, field)
  {
    ToldMore(p, q, recs, k, b, t, field);
    ListedMore(p, q, recs, k, b, t, field);
    TaggedMore(p.engine.numbering, q.engine.numbering, recs, k, t, field);
  }

  /** An identical cycle hands out no ordinal: a new one would show in its table. */
  lemma StandsStill(p: ProducerState, recs: seq<Keyed>, input: CycleInput, t: string, field: string)
    requires KeyedRecorded(p, recs, t, field) && KeyedInput(input, t, field) && recs != []
    requires ReadsAs(TableOf(RecordsOf(p, input, t)), TableOf(recs[|recs| - 1].records))
    ensures SameKeyed(KeyedOf(Populated(p, input.rows), t), recs[|recs| - 1])
  {
    PopulatedTells(p, input, t, field);
    var last, k := recs[|recs| - 1], KeyedOf(Populated(p, input.rows), t);
    assert SameAt(At(TableOf(k.records), last.next), At(TableOf(last.records), last.next));
  }

  lemma KeyedRecordedStays(p: ProducerState, q: ProducerState, recs: seq<Keyed>, t: string, field: string)
    requires KeyedRecorded(p, recs, t, field) && StoreShape(q) && KeyedBase(q.engine, t, field)
    requires q.store == p.store && q.currentVersion == p.currentVersion
    requires q.numStatesBetweenSnapshots == p.numStatesBetweenSnapshots
    requires Extends(p.engine.numbering, q.engine.numbering) && KeyedBaseReads(q.engine, recs, t)
    ensures KeyedRecorded(q, recs, t, field)
  {
    forall i | 0 <= i < |recs| ensures Tagged(q.engine.numbering, t, field, recs[i].records) {
      TaggedLater(p.engine.numbering, q.engine.numbering, t, field, recs[i].records);
    }
  }

  lemma SameKeyedTrans(a: Keyed, b: Keyed, c: Keyed)
    requires SameKeyed(a, b) && SameKeyed(b, c)
    ensures SameKeyed(a, c)
  {
    ReadsAsTrans(TableOf(a.records), TableOf(b.records), TableOf(c.records));
  }

  lemma KeyedIdentical(p: ProducerState, recs: seq<Keyed>, input: CycleInput, t: string, field: string)
    requires KeyedRecorded(p, recs, t, field) && KeyedSucceeds(p, recs, input, t, field)
    requires Cycle(p, input).1 == Identical
    ensures KeyedRecorded(Cycle(p, input).0, recs, t, field)
  {
    var q := Cycle(p, input).0;
    CycleEffect(p, input);
    CycleOutcome(p, input);
    StoreShapeKept(p, input);
    KeyedBaseKept(p, input, t, field);
    CycleEngine(p, input, t);
    StandsStill(p, recs, input, t, field);
    SameKeyedRecords(q.engine, Populated(p, input.rows), t);
    SameKeyedTrans(KeyedOf(q.engine, t), KeyedOf(Populated(p, input.rows), t), recs[|recs| - 1]);
    KeyedRecordedStays(p, q, recs, t, field);
  }

  lemma KeyedRecordedKept(p: ProducerState, recs: seq<Keyed>, input: CycleInput, t: string, field: string)
    requires KeyedRecorded(p, recs, t, field) && KeyedSucceeds(p, recs, input, t, field)
    ensures KeyedRecorded(Cycle(p, input).0, KeyedLogged(p, recs, input, t), t, field)
  {
    if Cycle(p, input).1 == Published {
      var b := CycleKeyedPublish(p, input, t, field);
      PopulatedTells(p, input, t, field);
      KeyedRecordedPublish(p, Cycle(p, input).0, recs, KeyedOf(Populated(p, input.rows), t), b, t, field);
    } else if Cycle(p, input).1 == Identical {
      KeyedIdentical(p, recs, input, t, field);
    } else {
      CycleEffect(p, input);
    }
  }

  // ----- whole runs -----

  /** The published record lists of type `t`, version by version. */
  function RecordLog(filter: Option<TypeFilter>, start: R.System, events: seq<R.Event>, t: string): seq<Keyed> {
    if events == [] then [] else
      var front, e := events[..|events| - 1], events[|events| - 1];
      var before := RecordLog(filter, start, front, t);
      if e.Cycling? then KeyedLogged(R.Run(filter, start, front).producer, before, e.input, t) else before
  }

  ghost predicate KeyedRun(filter: Option<TypeFilter>, start: R.System, events: seq<R.Event>, t: string,
                           field: string) {
    events == [] ||
    var front, e := events[..|events| - 1], events[|events| - 1];
    && KeyedRun(filter, start, front, t, field)
    && (e.Cycling? ==>
      KeyedSucceeds(R.Run(filter, start, front).producer, RecordLog(filter, start, front, t), e.input, t, field))
  }

  predicate KeyedFresh(s: R.System, t: string, field: string) {
    && R.Fresh(s) && t in s.producer.engine.primaryKeys && s.producer.engine.primaryKeys[t] == field
    && s.producer.engine.current == map[] && s.producer.engine.numbering == Numbering(map[], map[])
  }

  lemma FreshRecorded(s: R.System, t: string, field: string)
    requires KeyedFresh(s, t, field)
    ensures KeyedRecorded(s.producer, [], t, field)
  {
    assert forall u :: KeysOf(Numbering(map[], map[]), u) == map[] && NextOf(Numbering(map[], map[]), u) == 0;
  }

  lemma {:induction false} RunKeyed(filter: Option<TypeFilter>, start: R.System, events: seq<R.Event>, t: string,
                                    field: string)
    requires KeyedFresh(start, t, field) && KeyedRun(filter, start, events, t, field)
    ensures KeyedRecorded(R.Run(filter, start, events).producer, RecordLog(filter, start, events, t), t, field)
  {
    if events == [] {
      FreshRecorded(start, t, field);
    } else {
      var front, e := events[..|events| - 1], events[|events| - 1];
      RunKeyed(filter, start, front, t, field);
      if e.Cycling? {
        KeyedRecordedKept(R.Run(filter, start, front).producer, RecordLog(filter, start, front, t), e.input, t, field);
      }
    }
  }

  /**
   Every delta stored in a run of cycles with distinct keys, read by ordinal, turns
   the table published before it into the table published with it: keys kept,
   changed, added, omitted and added again alike.
   */
  lemma StoredDeltasExact(filter: Option<TypeFilter>, start: R.System, events: seq<R.Event>, t: string, field: string,
                          v: int)
    requires KeyedFresh(start, t, field) && KeyedRun(filter, start, events, t, field)
    requires 1 < v <= |RecordLog(filter, start, events, t)|
    ensures var (p, recs) := (R.Run(filter, start, events).producer, RecordLog(filter, start, events, t));
      !IsSnapshotVersion(p.numStatesBetweenSnapshots, v) ==>
        v - 1 in p.store.deltas &&
        ReadsAs(ApplyAll(TableOf(recs[v - 2].records), DeltaIn(p.store.deltas[v - 1], t)), TableOf(recs[v - 1].records))
  {
    RunKeyed(filter, start, events, t, field);
    var p, recs := R.Run(filter, start, events).producer, RecordLog(filter, start, events, t);
    if !IsSnapshotVersion(p.numStatesBetweenSnapshots, v) {
      assert DeltaTold(p.store, recs, t, v);
    }
  }

  // ----- when a published delta can be decoded -----

  /**
   The values a cycle is given for `t` read differently from the engine's: by ordinal
   if `t` has a key, else by position.
   */
  ghost predicate ReadsDifferently(p: ProducerState, input: CycleInput, t: string) {
    if t in p.engine.primaryKeys then
      !ReadsAs(TableOf(ListOf(p.engine.current, t)), TableOf(RecordsOf(p, input, t)))
    else
      t in RowsContent(input.rows) && !SameText(ListOf(ContentOf(p.engine.current), t), RowsContent(input.rows)[t])
  }

  /** Every type with a key starts from tagged records and is given distinct readable keys. */
  ghost predicate AllKeyed(p: ProducerState, input: CycleInput) {
    forall t :: t in p.engine.primaryKeys ==>
      KeyedBase(p.engine, t, p.engine.primaryKeys[t]) && KeyedInput(input, t, p.engine.primaryKeys[t])
  }

  lemma PlainDiffers(p: ProducerState, input: CycleInput, t: string)
    requires t !in p.engine.primaryKeys
    ensures ListOf(MeasuredProducer(p, input).engine.delta, t) != [] <==> ReadsDifferently(p, input, t)
  {
    PopulatedFacts(p, input.rows);
    PopulatedIsRows(p, input);
    MeasuredPlain(Populating(p, input), Populated(p, input.rows), t);
    if t in RowsContent(input.rows) { DiffEmpty(ListOf(ContentOf(p.engine.current), t), RowsContent(input.rows)[t]); }
  }

  lemma KeyedDiffers(p: ProducerState, input: CycleInput, t: string)
    requires t in p.engine.primaryKeys && AllKeyed(p, input)
    ensures ListOf(MeasuredProducer(p, input).engine.delta, t) != [] <==> ReadsDifferently(p, input, t)
  {
    PopulatedFacts(p, input.rows);
    MeasuredKeyed(Populating(p, input), Populated(p, input.rows), t);
    ReadyFromBase(p.engine, t, p.engine.primaryKeys[t]);
    KeyedDeltaEmpty(Prepare(p.engine), input.rows, t, p.engine.primaryKeys[t]);
    OptimizeEmpty(Cycled(p, input, t));
  }

  lemma EmptyByLists(d: DeltaMap)
    ensures EmptyMap(d) <==> forall t :: ListOf(d, t) == []
  {
    if !EmptyMap(d) {
      var t :| t in d && d[t] != [];
      assert ListOf(d, t) != [];
    }
  }

  /**
   The delta of a cycle has a record exactly when some type reads differently, by
   ordinal or by position; a type that vanishes adds nothing.
   */
  lemma ChangesExactly(p: ProducerState, input: CycleInput)
    requires AllKeyed(p, input)
    ensures HasChanges(p, input) <==> exists t :: ReadsDifferently(p, input, t)
  {
    var d := MeasuredProducer(p, input).engine.delta;
    EmptyByLists(d);
    forall t ensures ListOf(d, t) != [] <==> ReadsDifferently(p, input, t) {
      if t in p.engine.primaryKeys { KeyedDiffers(p, input, t); } else { PlainDiffers(p, input, t); }
    }
  }

  /**
   A published delta can be decoded exactly when some type reads differently.  The
   digest that lets a cycle through compares lists in order, so a cycle that only
   reorders keyed records publishes a delta nobody can read.
   */
  lemma DecodesExactly(p: ProducerState, input: CycleInput)
    requires !SnapshotIsDue(p) && AllKeyed(p, input)
    ensures BlobOf(MeasuredProducer(p, input), p.currentVersion + 1).data.DeltaBytes? <==>
      exists t :: ReadsDifferently(p, input, t)
  {
    ChangesExactly(p, input);
    OptimizeMapIdempotent(MeasuredProducer(p, input).engine.delta);
  }

  /** The same records under the same ordinals in another order read the same by ordinal. */
  lemma ReorderedReadsAs(a: seq<Record>, b: seq<Record>)
    requires DistinctOrdinals(a) && DistinctOrdinals(b)
    requires forall i :: 0 <= i < |a| ==>
      exists j :: 0 <= j < |b| && b[j].ordinal == a[i].ordinal && b[j].value.text == a[i].value.text
    requires forall j :: 0 <= j < |b| ==> exists i :: 0 <= i < |a| && b[j].ordinal == a[i].ordinal
    ensures ReadsAs(TableOf(a), TableOf(b))
  {
    forall o: nat ensures SameAt(At(TableOf(a), o), At(TableOf(b), o)) {
      TableHas(a, o);
      TableHas(b, o);
      if i: nat :| i < |a| && a[i].ordinal == o {
        var j: nat :| j < |b| && b[j].ordinal == a[i].ordinal && b[j].value.text == a[i].value.text;
        TableAt(a, i);
        TableAt(b, j);
      }
    }
  }

  /** A consumer whose walk needs a delta that does not decode stops at that version or below. */
  lemma EmptyDeltaStalls(filter: Option<TypeFilter>, s: Store, top: int, r: Replica, target: int, u: int)
    requires Walkable(s, top) && 0 <= VersionOf(r) < target <= top
    requires Anchor(s, VersionOf(r), target) <= u < target && !DecodesAt(s, u)
    ensures var (next, ok) := Refresh(filter, s, r, target); !ok && VersionOf(next) <= u
  {
    RefreshEnds(filter, s, top, r, target);
  }
}
