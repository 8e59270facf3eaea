/** A run of two cycles that swaps two keyed records, and where it leaves a consumer. */
module Reordering {
  import opened Basics
  import opened Deltas
  import opened WriteEngine
  import opened BlobStore
  import opened Production
  import opened Digests
  import opened Consumption
  import opened History
  import opened PrimaryKeys
  import opened KeyedHistory
  import opened KeyedRuns

  function Thing(name: string): Payload {
    Payload("T", name, map["id" := "#" + name], 0)
  }

  function Adding(a: string, b: string): CycleInput {
    CycleInput(true, [Thing(a), Thing(b)], [], true)
  }

  function StartOf(hash: string -> nat): ProducerState {
    Started(hash, map["T" := "id"], EMPTY_STORE, 5, false, 1000)
  }

  lemma TwoOfType(a: string, b: string)
    ensures OfType([Thing(a), Thing(b)], "T") == [Thing(a), Thing(b)]
  {
    var rows := [Thing(a), Thing(b)];
    assert rows[..1] == [Thing(a)] && [Thing(a)][..0] == [];
    assert OfType([Thing(a)], "T") == [Thing(a)];
  }

  lemma TwoContent(a: string, b: string)
    ensures RowsContent([Thing(a), Thing(b)]) == map["T" := [Thing(a), Thing(b)]]
  {
    var rows := [Thing(a), Thing(b)];
    TwoOfType(a, b);
    assert Thing(a) in rows;
    assert RowsContent(rows).Keys == {"T"};
  }

  lemma TwoDigest(a: string, b: string)
    ensures DataHash(RowsContent([Thing(a), Thing(b)])) == Utf8("T") + LittleEndian(2, 8) + Utf8(a + b)
  {
    TwoContent(a, b);
    TwoRecords("T", Thing(a), Thing(b));
  }

  lemma TwoKeyed(a: string, b: string)
    requires a != b
    ensures KeyedInput(Adding(a, b), "T", "id")
  {
    TwoOfType(a, b);
    assert ("#" + a)[1..] == a && ("#" + b)[1..] == b;
    assert KeyOf(Thing(a), "id") == Some("#" + a) && KeyOf(Thing(b), "id") == Some("#" + b);
  }

  /** What the first published cycle leaves behind. */
  lemma FirstPublished(p: ProducerState, input: CycleInput)
    requires StoreShape(p) && p.currentVersion == 0 && Publishing(p, input)
    ensures var (q, o) := Cycle(p, input);
      && o == Published && q.currentVersion == 1 && q.lastSnapshotVersion == 1 && StoreShape(q)
      && q.numStatesBetweenSnapshots == p.numStatesBetweenSnapshots && q.engine.primaryKeys == p.engine.primaryKeys
      && q.lastDataHash == Some(DataHash(RowsContent(input.rows)))
      && ContentOf(q.engine.current) == RowsContent(input.rows)
  {
    CycleOutcome(p, input);
    CycleEffect(p, input);
    PopulatedIsRows(p, input);
    StoreShapeKept(p, input);
  }

  /** What a published cycle without changes leaves behind. */
  lemma EmptyPublished(p: ProducerState, input: CycleInput)
    requires StoreShape(p) && Publishing(p, input) && !SnapshotIsDue(p) && !HasChanges(p, input)
    ensures var (q, o) := Cycle(p, input);
      && o == Published && q.currentVersion == p.currentVersion + 1 && q.lastSnapshotVersion == p.lastSnapshotVersion
      && StoreShape(q) && p.currentVersion in q.store.deltas && q.store.deltas[p.currentVersion].data == NoBytes
  {
    CycleOutcome(p, input);
    CycleEffect(p, input);
    StoreShapeKept(p, input);
    OptimizeMapIdempotent(MeasuredProducer(p, input).engine.delta);
  }

  lemma StartReady(hash: string -> nat)
    ensures KeyedBase(StartOf(hash).engine, "T", "id") && StoreShape(StartOf(hash))
  {
    assert forall u :: KeysOf(Numbering(map[], map[]), u) == map[] && NextOf(Numbering(map[], map[]), u) == 0;
  }

  /** The producer after the first of the two cycles. */
  ghost predicate Holding(p: ProducerState, a: string, b: string) {
    && p.currentVersion == 1 && p.lastSnapshotVersion == 1 && p.numStatesBetweenSnapshots == 5 && StoreShape(p)
    && p.engine.primaryKeys == map["T" := "id"] && KeyedBase(p.engine, "T", "id")
    && p.lastDataHash == Some(Utf8("T") + LittleEndian(2, 8) + Utf8(a + b))
    && Values(ListOf(p.engine.current, "T")) == [Thing(a), Thing(b)]
  }

  lemma ContentAt(e: Engine, t: string, c: Content)
    requires ContentOf(e.current) == c && t in c
    ensures Values(ListOf(e.current, t)) == c[t]
  {
  }

  lemma FirstThings(hash: string -> nat, a: string, b: string)
    requires a != b
    ensures Cycle(StartOf(hash), Adding(a, b)).1 == Published && Holding(Cycle(StartOf(hash), Adding(a, b)).0, a, b)
  {
    var p, input := StartOf(hash), Adding(a, b);
    StartReady(hash);
    TwoKeyed(a, b);
    TwoContent(a, b);
    TwoDigest(a, b);
    FirstPublished(p, input);
    KeyedBaseKept(p, input, "T", "id");
    ContentAt(Cycle(p, input).0.engine, "T", RowsContent(input.rows));
  }

  lemma SameKeySameOrdinal(n: Numbering, later: Numbering, a: seq<Record>, i: nat, b: seq<Record>, j: nat)
    requires Tagged(n, "T", "id", a) && Tagged(later, "T", "id", b) && Extends(n, later) && i < |a| && j < |b|
    requires a[i].value == b[j].value
    ensures a[i].ordinal == b[j].ordinal
  {
    assert KeyOf(Values(a)[i], "id").Some?;
  }

  lemma SwappedReadsAs(n: Numbering, later: Numbering, a: seq<Record>, b: seq<Record>, x: Payload, y: Payload)
    requires Numbered(n) && Numbered(later) && Extends(n, later)
    requires Tagged(n, "T", "id", a) && Tagged(later, "T", "id", b) && Values(a) == [x, y] && Values(b) == [y, x]
    ensures ReadsAs(TableOf(a), TableOf(b))
  {
    TaggedDistinct(n, "T", "id", a);
    TaggedDistinct(later, "T", "id", b);
    assert Values(a)[0] == x && Values(a)[1] == y && Values(b)[0] == y && Values(b)[1] == x;
    SameKeySameOrdinal(n, later, a, 0, b, 1);
    SameKeySameOrdinal(n, later, a, 1, b, 0);
    ReorderedReadsAs(a, b);
  }

  lemma SwapReadsAs(p: ProducerState, a: string, b: string)
    requires a != b && Holding(p, a, b)
    ensures ReadsAs(TableOf(ListOf(p.engine.current, "T")), TableOf(RecordsOf(p, Adding(b, a), "T")))
  {
    TwoKeyed(b, a);
    TwoOfType(b, a);
    PopulatedBase(p, Adding(b, a), "T", "id");
    SwappedReadsAs(p.engine.numbering, Populated(p, Adding(b, a).rows).numbering, ListOf(p.engine.current, "T"),
                   RecordsOf(p, Adding(b, a), "T"), Thing(a), Thing(b));
  }

  lemma SwapChangesNothing(p: ProducerState, a: string, b: string)
    requires a != b && Holding(p, a, b)
    ensures !HasChanges(p, Adding(b, a))
  {
    TwoKeyed(b, a);
    TwoContent(b, a);
    SwapReadsAs(p, a, b);
    ChangesExactly(p, Adding(b, a));
  }

  lemma SwapPublishes(p: ProducerState, a: string, b: string)
    requires Holding(p, a, b) && a + b != b + a
    ensures Publishing(p, Adding(b, a)) && !SnapshotIsDue(p)
  {
    TwoDigest(b, a);
    var front := Utf8("T") + LittleEndian(2, 8);
    assert (front + Utf8(a + b))[|front|..] == Utf8(a + b) && (front + Utf8(b + a))[|front|..] == Utf8(b + a);
    if Utf8(a + b) == Utf8(b + a) { Utf8Injective(a + b, b + a); }
  }

  lemma StallsNow(filter: Option<TypeFilter>, q: ProducerState, r: Replica)
    requires StoreShape(q) && q.currentVersion == 2 && q.lastSnapshotVersion == 1 && VersionOf(r) == 1
    requires 1 in q.store.deltas && q.store.deltas[1].data == NoBytes
    ensures Refresh(filter, q.store, r, 2) == (r, false)
  {
    assert 2 !in q.store.snapshots;
    assert Plan(q.store, 1, 1) == Ok([]);
    assert [] + [q.store.deltas[1]] == [q.store.deltas[1]];
  }

  /**
   The second cycle only swaps two keyed records.  It is published all the same, as
   a delta of no bytes, and a consumer at version 1 cannot get to version 2.
   */
  lemma ReorderingStalls(hash: string -> nat, filter: Option<TypeFilter>, a: string, b: string, r: Replica)
    requires a + b != b + a && VersionOf(r) == 1
    ensures var p := Cycle(StartOf(hash), Adding(a, b)).0;
      var (q, o) := Cycle(p, Adding(b, a));
      && o == Published && q.currentVersion == 2 && Filled(q.store)
      && 1 in q.store.deltas && q.store.deltas[1].data == NoBytes
      && Refresh(filter, q.store, r, 2) == (r, false)
  {
    var p := Cycle(StartOf(hash), Adding(a, b)).0;
    FirstThings(hash, a, b);
    SwapChangesNothing(p, a, b);
    SwapPublishes(p, a, b);
    EmptyPublished(p, Adding(b, a));
    StallsNow(filter, Cycle(p, Adding(b, a)).0, r);
  }
}
