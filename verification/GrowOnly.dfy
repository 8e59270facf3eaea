/**
 Runs in which no key is ever left out: the consumer's list positions stay equal to
 the ordinals, although it replays deltas by position.
 */
module GrowOnly {
  import opened Basics
  import opened Deltas
  import opened Positional
  import opened WriteEngine
  import opened BlobStore
  import opened Production
  import opened Consumption
  import opened History
  import opened Walking
  import opened PrimaryKeys
  import opened KeyedHistory
  import opened KeyedRuns
  import R = Replication

  // ----- a growing delta is aligned -----

  /** Updates below `m`, additions of exactly the ordinals from `m` to `k`, in increasing order. */
  ghost predicate Growing(d: seq<DeltaRecord>, m: nat, k: nat) {
    && Increasing(d) && m <= k
    && (forall r :: r in d ==> match r
          case Add(o, _) => m <= o < k
          case Update(o, _) => o < m
          case Delete(_) => false)
    && (forall o: nat :: m <= o < k ==> o in Ordinals(d))
  }

  lemma LastIsGreatest(d: seq<DeltaRecord>, o: nat)
    requires Increasing(d) && o in Ordinals(d)
    ensures o <= d[|d| - 1].ordinal
    ensures o < d[|d| - 1].ordinal ==> o in Ordinals(d[..|d| - 1])
  {
    var r :| r in d && r.ordinal == o;
    var i :| 0 <= i < |d| && d[i] == r;
    if i < |d| - 1 { assert d[..|d| - 1][i] == r; }
  }

  lemma FrontBelow(d: seq<DeltaRecord>, r: DeltaRecord)
    requires Increasing(d) && d != [] && r in d[..|d| - 1]
    ensures r in d && r.ordinal < d[|d| - 1].ordinal
  {
    var i :| 0 <= i < |d| - 1 && d[..|d| - 1][i] == r;
    assert d[i] == r;
  }

  lemma GrowingFront(d: seq<DeltaRecord>, m: nat, k: nat)
    requires Growing(d, m, k) && d != []
    ensures var r := d[|d| - 1];
      if r.Add? then k > m && r.ordinal == k - 1 && Growing(d[..|d| - 1], m, k - 1)
        else k == m && Growing(d[..|d| - 1], m, m)
  {
    var front, r := d[..|d| - 1], d[|d| - 1];
    assert r in d;
    if m < k { LastIsGreatest(d, k - 1); }
    forall x | x in front ensures x in d && x.ordinal < r.ordinal { FrontBelow(d, x); }
    forall o: nat | m <= o < r.ordinal ensures o in Ordinals(front) { LastIsGreatest(d, o); }
  }

  /** Replayed onto a list of length `m`, a growing delta meets every ordinal at its position. */
  lemma {:induction false} GrowingAligned(d: seq<DeltaRecord>, m: nat, k: nat)
    requires Growing(d, m, k)
    ensures Aligned(m, d) && LengthAfterAll(m, d) == k
  {
    if d != [] {
      GrowingFront(d, m, k);
      assert d[|d| - 1] in d;
      GrowingAligned(d[..|d| - 1], m, if d[|d| - 1].Add? then k - 1 else m);
    } else {
      assert m < k ==> m in Ordinals(d);
    }
  }

  // ----- deltas without additions -----

  ghost predicate NoAdds(d: seq<DeltaRecord>) {
    forall r :: r in d ==> !r.Add?
  }

  lemma FrontParts(d: seq<DeltaRecord>)
    requires d != []
    ensures forall r :: r in d[..|d| - 1] ==> r in d
    ensures Increasing(d) ==> Increasing(d[..|d| - 1])
    ensures Increasing(d) ==> forall r :: r in d[..|d| - 1] ==> r.ordinal < d[|d| - 1].ordinal
  {
    forall r | r in d[..|d| - 1] && Increasing(d) ensures r.ordinal < d[|d| - 1].ordinal { FrontBelow(d, r); }
  }

  /** Deletes of ordinals from `low` up to `high` take away at most as many positions. */
  lemma {:induction false} FewDeletes(n: nat, d: seq<DeltaRecord>, low: nat, high: nat)
    requires Increasing(d) && NoAdds(d) && low <= high
    requires forall r :: r in d && r.Delete? ==> low <= r.ordinal < high
    ensures n - (high - low) <= LengthAfterAll(n, d) <= n
  {
    if d != [] {
      var front, r := d[..|d| - 1], d[|d| - 1];
      FrontParts(d);
      assert r in d;
      FewDeletes(n, front, low, if r.Delete? then r.ordinal else high);
    }
  }

  /** Deletes from `low` up reach only every other position: about half of them are left behind. */
  lemma {:induction false} DeletesLeaveHalf(n: nat, d: seq<DeltaRecord>, low: nat)
    requires Increasing(d) && NoAdds(d) && low <= n
    requires forall r :: r in d && r.Delete? ==> low <= r.ordinal
    ensures 2 * LengthAfterAll(n, d) >= n + low - 1
  {
    if d != [] {
      var front, r := d[..|d| - 1], d[|d| - 1];
      FrontParts(d);
      assert r in d;
      DeletesLeaveHalf(n, front, low);
      if r.Delete? { FewDeletes(n, front, low, r.ordinal); }
    }
  }

  /** Additions of ordinals from `low` up to `high` add at most as many positions. */
  lemma {:induction false} FewAdds(n: nat, d: seq<DeltaRecord>, low: nat, high: nat)
    requires Increasing(d) && low <= high
    requires forall r :: r in d && r.Add? ==> low <= r.ordinal < high
    ensures LengthAfterAll(n, d) <= n + (high - low)
  {
    if d != [] {
      var front, r := d[..|d| - 1], d[|d| - 1];
      FrontParts(d);
      assert r in d;
      FewAdds(n, front, low, if r.Add? then r.ordinal else high);
    }
  }

  /** Updates in range, and perhaps a delete of the last position. */
  ghost predicate Trimming(d: seq<DeltaRecord>, n: nat) {
    Increasing(d) && forall r :: r in d ==> (r.Update? && r.ordinal < n) || (r.Delete? && r.ordinal + 1 == n)
  }

  lemma {:induction false} UpdatesAligned(d: seq<DeltaRecord>, n: nat)
    requires Trimming(d, n) && forall r :: r in d ==> r.Update?
    ensures Aligned(n, d) && LengthAfterAll(n, d) == n
  {
    if d != [] {
      FrontParts(d);
      assert d[|d| - 1] in d;
      UpdatesAligned(d[..|d| - 1], n);
    }
  }

  lemma TrimmingAligned(d: seq<DeltaRecord>, n: nat)
    requires Trimming(d, n)
    ensures Aligned(n, d)
  {
    if d != [] {
      var front := d[..|d| - 1];
      FrontParts(d);
      assert d[|d| - 1] in d;
      UpdatesAligned(front, n);
    }
  }

  // ----- one delta: exactly when replay by position is right -----

  /** The ordinals in use are 0 .. n-1 for a list of n records. */
  ghost predicate Dense(k: Keyed) {
    Bounded(k) && forall o: nat :: o in TableOf(k.records) <==> o < |k.records|
  }

  function InUse(k: Keyed): set<nat> {
    TableOf(k.records).Keys
  }

  /**
   The ordinals in use stay the same, or lose only the last, or, when all ordinals
   handed out were in use, only grow.
   */
  predicate KeepsPlaces(prev: Keyed, cur: Keyed) {
    || InUse(cur) == InUse(prev)
    || (|prev.records| > 0 && InUse(cur) == InUse(prev) - {|prev.records| - 1})
    || (|prev.records| == prev.next && InUse(prev) <= InUse(cur))
  }

  lemma UpdatedInUse(d: seq<DeltaRecord>, prev: Keyed, cur: Keyed, r: DeltaRecord)
    requires Tells(d, prev, cur) && r in d && !r.Delete?
    ensures r.ordinal in InUse(cur)
  {
    IncreasingLast(d, r);
    ApplyAllAt(TableOf(prev.records), d, r.ordinal);
    assert SameAt(At(ApplyAll(TableOf(prev.records), d), r.ordinal), At(TableOf(cur.records), r.ordinal));
  }

  lemma NewIsAdded(d: seq<DeltaRecord>, prev: Keyed, cur: Keyed, o: nat)
    requires Tells(d, prev, cur) && Bounded(prev) && prev.next <= o < cur.next
    ensures o in Ordinals(d)
  {
    ApplyAllAt(TableOf(prev.records), d, o);
    assert SameAt(At(ApplyAll(TableOf(prev.records), d), o), At(TableOf(cur.records), o));
    assert o in TableOf(cur.records) && o !in TableOf(prev.records);
    LastForOrdinal(d, o);
  }

  lemma TellsGrowing(d: seq<DeltaRecord>, prev: Keyed, cur: Keyed)
    requires Tells(d, prev, cur) && Bounded(prev) && InUse(prev) <= InUse(cur)
    ensures Growing(d, prev.next, cur.next)
  {
    forall r | r in d ensures !r.Delete? {
      assert r.ordinal in InUse(prev) ==> r.ordinal in InUse(cur);
    }
    forall o: nat | prev.next <= o < cur.next ensures o in Ordinals(d) {
      NewIsAdded(d, prev, cur, o);
    }
  }

  lemma TellsTrimming(d: seq<DeltaRecord>, prev: Keyed, cur: Keyed)
    requires Tells(d, prev, cur) && Dense(prev)
    requires InUse(cur) == InUse(prev) || (|prev.records| > 0 && InUse(cur) == InUse(prev) - {|prev.records| - 1})
    ensures Trimming(d, |prev.records|)
  {
    forall r | r in d
      ensures (r.Update? && r.ordinal < |prev.records|) || (r.Delete? && r.ordinal + 1 == |prev.records|)
    {
      if r.Delete? {
        assert r.ordinal in InUse(prev) && r.ordinal !in InUse(cur);
      } else {
        UpdatedInUse(d, prev, cur, r);
        assert r.ordinal in InUse(prev);
      }
    }
  }

  lemma DenseLength(s: seq<Payload>, rs: seq<Record>, n: nat)
    requires ReadsAs(Table(s), TableOf(rs)) && forall o: nat :: o in TableOf(rs) <==> o < n
    ensures |s| == n
  {
    assert |s| !in Table(s) && n !in TableOf(rs);
    assert SameAt(At(Table(s), |s|), At(TableOf(rs), |s|));
    assert SameAt(At(Table(s), n), At(TableOf(rs), n));
    assert n !in Table(s);
  }

  lemma AlignedExact(d: seq<DeltaRecord>, prev: Keyed, cur: Keyed, s: seq<Payload>)
    requires Tells(d, prev, cur) && Aligned(|s|, d) && ReadsAs(Table(s), TableOf(prev.records))
    ensures ReadsAs(Table(Replay(s, d)), TableOf(cur.records))
  {
    AlignedRefines(s, d);
    ApplyReadsAs(Table(s), TableOf(prev.records), d);
    ReadsAsTrans(ApplyAll(Table(s), d), ApplyAll(TableOf(prev.records), d), TableOf(cur.records));
  }

  lemma PlacesSuffice(d: seq<DeltaRecord>, prev: Keyed, cur: Keyed, s: seq<Payload>)
    requires Tells(d, prev, cur) && Dense(prev) && ReadsAs(Table(s), TableOf(prev.records))
    requires KeepsPlaces(prev, cur)
    ensures ReadsAs(Table(Replay(s, d)), TableOf(cur.records))
  {
    DenseLength(s, prev.records, |prev.records|);
    if |prev.records| == prev.next && InUse(prev) <= InUse(cur) {
      TellsGrowing(d, prev, cur);
      GrowingAligned(d, prev.next, cur.next);
    } else {
      TellsTrimming(d, prev, cur);
      TrimmingAligned(d, |prev.records|);
    }
    AlignedExact(d, prev, cur, s);
  }

  /** The ordinals in use after a replay that came out right are a list's positions. */
  lemma RightPositions(d: seq<DeltaRecord>, cur: Keyed, s: seq<Payload>)
    requires ReadsAs(Table(Replay(s, d)), TableOf(cur.records))
    ensures forall o: nat :: o in InUse(cur) <==> o < LengthAfterAll(|s|, d)
  {
    ReplayLength(s, d);
    forall o: nat ensures o in InUse(cur) <==> o < LengthAfterAll(|s|, d) {
      assert SameAt(At(Table(Replay(s, d)), o), At(TableOf(cur.records), o));
    }
  }

  lemma ShorterKeeps(d: seq<DeltaRecord>, prev: Keyed, cur: Keyed, l: nat)
    requires Tells(d, prev, cur) && Dense(prev) && l == LengthAfterAll(|prev.records|, d) < |prev.records|
    requires forall o: nat :: o in InUse(cur) <==> o < l
    ensures KeepsPlaces(prev, cur)
  {
    var m := |prev.records|;
    assert m - 1 in InUse(prev);
    forall r | r in d ensures !r.Add? && (r.Delete? ==> l <= r.ordinal) {
      if r.Delete? { assert r.ordinal !in InUse(cur); } else { UpdatedInUse(d, prev, cur, r); }
    }
    DeletesLeaveHalf(m, d, l);
    assert l == m - 1;
    assert InUse(cur) == InUse(prev) - {m - 1};
  }

  lemma LongerKeeps(d: seq<DeltaRecord>, prev: Keyed, cur: Keyed, l: nat)
    requires Tells(d, prev, cur) && Dense(prev) && l == LengthAfterAll(|prev.records|, d) > |prev.records|
    requires forall o: nat :: o in InUse(cur) <==> o < l
    ensures KeepsPlaces(prev, cur)
  {
    var m := |prev.records|;
    assert InUse(prev) <= InUse(cur);
    FewAdds(m, d, prev.next, cur.next);
    assert cur.next - 1 in InUse(cur);
    if m > 0 { assert m - 1 in InUse(prev); }
  }

  lemma RightKeeps(d: seq<DeltaRecord>, prev: Keyed, cur: Keyed)
    requires Tells(d, prev, cur) && Dense(prev)
    requires forall o: nat :: o in InUse(cur) <==> o < LengthAfterAll(|prev.records|, d)
    ensures KeepsPlaces(prev, cur)
  {
    var l := LengthAfterAll(|prev.records|, d);
    if l < |prev.records| {
      ShorterKeeps(d, prev, cur, l);
    } else if l > |prev.records| {
      LongerKeeps(d, prev, cur, l);
    } else {
      assert InUse(cur) == InUse(prev);
    }
  }

  /**
   Replay by position carries "position = ordinal" from one state to the next exactly
   when the ordinals in use keep their places.
   */
  lemma KeyedReplayExact(d: seq<DeltaRecord>, prev: Keyed, cur: Keyed, s: seq<Payload>)
    requires Tells(d, prev, cur) && Dense(prev) && ReadsAs(Table(s), TableOf(prev.records))
    ensures ReadsAs(Table(Replay(s, d)), TableOf(cur.records)) <==> KeepsPlaces(prev, cur)
  {
    if KeepsPlaces(prev, cur) {
      PlacesSuffice(d, prev, cur, s);
    } else if ReadsAs(Table(Replay(s, d)), TableOf(cur.records)) {
      DenseLength(s, prev.records, |prev.records|);
      RightPositions(d, cur, s);
      RightKeeps(d, prev, cur);
    }
  }

  /** The same for the delta a cycle really publishes. */
  lemma CycleReplayExact(p: ProducerState, input: CycleInput, t: string, field: string, s: seq<Payload>)
    requires KeyedBase(p.engine, t, field) && KeyedInput(input, t, field) && !SnapshotIsDue(p)
    requires Dense(KeyedOf(p.engine, t)) && ReadsAs(Table(s), TableOf(ListOf(p.engine.current, t)))
    ensures var d := DeltaIn(BlobOf(MeasuredProducer(p, input), p.currentVersion + 1), t);
      ReadsAs(Table(Replay(s, d)), TableOf(RecordsOf(p, input, t))) <==>
        KeepsPlaces(KeyedOf(p.engine, t), KeyedOf(Populated(p, input.rows), t))
  {
    PublishedKeyed(p, input, t);
    PopulatedTells(p, input, t, field);
    KeyedReplayExact(Optimize(Cycled(p, input, t)), KeyedOf(p.engine, t), KeyedOf(Populated(p, input.rows), t), s);
  }

  lemma KeyThere(n: Numbering, t: string, field: string, a: seq<Record>, i: nat, b: seq<Record>)
    requires Numbered(n) && Tagged(n, t, field, a) && Tagged(n, t, field, b) && i < |a|
    requires TableOf(a).Keys <= TableOf(b).Keys
    ensures KeyOf(a[i].value, field).Some? && KeyOf(a[i].value, field).value in CurrentKeys(b, field)
  {
    KeysOfTagged(n, t, field, a);
    KeysOfTagged(n, t, field, b);
    TableHas(a, a[i].ordinal);
    TableHas(b, a[i].ordinal);
    assert a[i].ordinal in TableOf(a).Keys;
    var j: nat :| j < |b| && b[j].Info? && b[j].ordinal == a[i].ordinal;
    SameOrdinalSameKey(n, t, field, a, i, b, j);
  }

  lemma OrdinalThere(n: Numbering, t: string, field: string, a: seq<Record>, i: nat, b: seq<Record>)
    requires Numbered(n) && Tagged(n, t, field, a) && Tagged(n, t, field, b) && i < |a|
    requires CurrentKeys(a, field) <= CurrentKeys(b, field)
    ensures a[i].ordinal in TableOf(b)
  {
    KeysOfTagged(n, t, field, a);
    KeysOfTagged(n, t, field, b);
    var k := KeyOf(a[i].value, field).value;
    assert k in CurrentKeys(b, field);
    var j: nat :| j < |b| && KeyOf(b[j].value, field) == Some(k);
    SameOrdinalSameKey(n, t, field, a, i, b, j);
    TableHas(b, a[i].ordinal);
  }

  /** Whether ordinals are left out is a matter of keys. */
  lemma KeptByKeys(n: Numbering, t: string, field: string, a: seq<Record>, b: seq<Record>)
    requires Numbered(n) && Tagged(n, t, field, a) && Tagged(n, t, field, b)
    ensures TableOf(a).Keys <= TableOf(b).Keys <==> CurrentKeys(a, field) <= CurrentKeys(b, field)
  {
    KeysOfTagged(n, t, field, a);
    KeysOfTagged(n, t, field, b);
    if TableOf(a).Keys <= TableOf(b).Keys {
      forall k | k in CurrentKeys(a, field) ensures k in CurrentKeys(b, field) {
        var i: nat :| i < |a| && KeyOf(a[i].value, field) == Some(k);
        KeyThere(n, t, field, a, i, b);
      }
    }
    if CurrentKeys(a, field) <= CurrentKeys(b, field) {
      forall o: nat | o in TableOf(a).Keys ensures o in TableOf(b).Keys {
        TableHas(a, o);
        var i: nat :| i < |a| && a[i].Info? && a[i].ordinal == o;
        OrdinalThere(n, t, field, a, i, b);
      }
    }
  }

  // ----- the log of a run -----

  /** Every delta keeps the places; a snapshot after the first lists its records by ordinal. */
  ghost predicate PlacesLog(n: int, recs: seq<Keyed>) {
    forall v :: 1 < v <= |recs| ==>
      if IsSnapshotVersion(n, v) then InOrder(recs[v - 1].records) else KeepsPlaces(recs[v - 2], recs[v - 1])
  }

  lemma InOrderTable(rs: seq<Record>)
    requires InOrder(rs)
    ensures forall o: nat :: o in TableOf(rs) <==> o < |rs|
    ensures ReadsAs(Table(Values(rs)), TableOf(rs))
  {
    forall o: nat ensures (o in TableOf(rs) <==> o < |rs|) && SameAt(At(Table(Values(rs)), o), At(TableOf(rs), o)) {
      TableHas(rs, o);
      if o < |rs| { TableAt(rs, o); }
    }
  }

  lemma {:induction false} TableSize(rs: seq<Record>)
    requires DistinctOrdinals(rs)
    ensures |TableOf(rs)| == |rs|
  {
    if rs != [] {
      var front, o := rs[..|rs| - 1], rs[|rs| - 1].ordinal;
      TableSize(front);
      TableMisses(front, o);
      assert TableOf(rs).Keys == TableOf(front).Keys + {o};
    }
  }

  lemma {:induction false} BelowSize(n: nat)
    ensures |Below(n)| == n
  {
    if n > 0 { BelowSize(n - 1); }
  }

  lemma DenseCount(rs: seq<Record>, n: nat)
    requires DistinctOrdinals(rs) && forall o: nat :: o in TableOf(rs) <==> o < n
    ensures |rs| == n
  {
    TableSize(rs);
    BelowSize(n);
    assert TableOf(rs).Keys == Below(n);
  }

  /** How many ordinals are in use after a step that keeps places. */
  function PlacesAfter(prev: Keyed, cur: Keyed): nat {
    if InUse(cur) == InUse(prev) then |prev.records|
    else if |prev.records| == prev.next && InUse(prev) <= InUse(cur) then cur.next
    else if |prev.records| > 0 then |prev.records| - 1 else 0
  }

  lemma DenseKept(d: seq<DeltaRecord>, prev: Keyed, cur: Keyed)
    requires Tells(d, prev, cur) && Dense(prev) && KeepsPlaces(prev, cur)
    requires DistinctOrdinals(cur.records) && Bounded(cur)
    ensures Dense(cur)
  {
    var n := PlacesAfter(prev, cur);
    forall o: nat ensures o in TableOf(cur.records) <==> o < n {
      assert o in InUse(prev) <==> o < |prev.records|;
      assert o in TableOf(cur.records) <==> o in InUse(cur);
    }
    DenseCount(cur.records, n);
  }

  lemma TaggedAt(p: ProducerState, recs: seq<Keyed>, t: string, field: string, v: int)
    requires KeyedRecorded(p, recs, t, field) && 1 <= v <= |recs|
    ensures Numbered(p.engine.numbering) && Tagged(p.engine.numbering, t, field, recs[v - 1].records)
    ensures DistinctOrdinals(recs[v - 1].records) && Bounded(recs[v - 1])
  {
    TaggedDistinct(p.engine.numbering, t, field, recs[v - 1].records);
  }

  lemma {:induction false} LogDense(p: ProducerState, recs: seq<Keyed>, t: string, field: string, v: int)
    requires KeyedRecorded(p, recs, t, field) && PlacesLog(p.numStatesBetweenSnapshots, recs) && 1 <= v <= |recs|
    ensures Dense(recs[v - 1])
    decreases v
  {
    TaggedAt(p, recs, t, field, v);
    if v == 1 || IsSnapshotVersion(p.numStatesBetweenSnapshots, v) {
      InOrderTable(recs[v - 1].records);
    } else {
      LogDense(p, recs, t, field, v - 1);
      assert DeltaTold(p.store, recs, t, v);
      DenseKept(DeltaIn(p.store.deltas[v - 1], t), recs[v - 2], recs[v - 1]);
    }
  }

  // ----- refreshing along a growing run -----

  /** Every visible list position holds what its ordinal holds at version `v`. */
  ghost predicate Placed(filter: Option<TypeFilter>, recs: seq<Keyed>, t: string, v: int, data: Content) {
    1 <= v <= |recs| && (Includes(filter, t) ==> ReadsAs(Table(ListOf(data, t)), TableOf(recs[v - 1].records)))
  }

  ghost function JudgePlaces(filter: Option<TypeFilter>, recs: seq<Keyed>, t: string): Judgement {
    (v: int, data: Content) => Placed(filter, recs, t, v, data)
  }

  /** Along a run a stored delta keeps a well-placed list well placed exactly when it keeps the places. */
  lemma PlacedStepExact(filter: Option<TypeFilter>, p: ProducerState, recs: seq<Keyed>, t: string, field: string,
                        v: int, data: Content)
    requires KeyedRecorded(p, recs, t, field) && 1 <= v < |recs| && Dense(recs[v - 1]) && Includes(filter, t)
    requires !IsSnapshotVersion(p.numStatesBetweenSnapshots, v + 1) && p.store.deltas[v].data.DeltaBytes?
    requires Placed(filter, recs, t, v, data)
    ensures Placed(filter, recs, t, v + 1, ReplayedData(filter, data, p.store.deltas[v].data.delta)) <==>
      KeepsPlaces(recs[v - 1], recs[v])
  {
    R.ReplayedAt(filter, data, p.store.deltas[v].data.delta, t);
    assert DeltaTold(p.store, recs, t, v + 1);
    KeyedReplayExact(DeltaIn(p.store.deltas[v], t), recs[v - 1], recs[v], ListOf(data, t));
  }

  lemma PlacedStep(filter: Option<TypeFilter>, p: ProducerState, recs: seq<Keyed>, t: string, field: string, v: int,
                   data: Content)
    requires KeyedRecorded(p, recs, t, field) && PlacesLog(p.numStatesBetweenSnapshots, recs)
    requires 1 <= v < |recs| && !IsSnapshotVersion(p.numStatesBetweenSnapshots, v + 1)
    requires p.store.deltas[v].data.DeltaBytes?
    requires Placed(filter, recs, t, v, data)
    ensures Placed(filter, recs, t, v + 1, ReplayedData(filter, data, p.store.deltas[v].data.delta))
  {
    if Includes(filter, t) {
      LogDense(p, recs, t, field, v);
      assert KeepsPlaces(recs[v + 1 - 2], recs[v + 1 - 1]);
      PlacedStepExact(filter, p, recs, t, field, v, data);
    }
  }

  lemma JudgePlacesPreserves(filter: Option<TypeFilter>, recs: seq<Keyed>, t: string, v: int, d: DeltaMap)
    requires forall data :: Placed(filter, recs, t, v, data) ==>
      Placed(filter, recs, t, v + 1, ReplayedData(filter, data, d))
    ensures Preserves(filter, JudgePlaces(filter, recs, t), v, d)
  {
  }

  lemma PlacesPreserved(filter: Option<TypeFilter>, p: ProducerState, recs: seq<Keyed>, t: string, field: string,
                        v: int)
    requires KeyedRecorded(p, recs, t, field) && PlacesLog(p.numStatesBetweenSnapshots, recs)
    requires 1 <= v < |recs| && !IsSnapshotVersion(p.numStatesBetweenSnapshots, v + 1)
    requires p.store.deltas[v].data.DeltaBytes?
    ensures Preserves(filter, JudgePlaces(filter, recs, t), v, p.store.deltas[v].data.delta)
  {
    forall data | Placed(filter, recs, t, v, data)
      ensures Placed(filter, recs, t, v + 1, ReplayedData(filter, data, p.store.deltas[v].data.delta))
    {
      PlacedStep(filter, p, recs, t, field, v, data);
    }
    JudgePlacesPreserves(filter, recs, t, v, p.store.deltas[v].data.delta);
  }

  lemma SnapshotTold(p: ProducerState, recs: seq<Keyed>, t: string, field: string, v: int)
    requires KeyedRecorded(p, recs, t, field) && PlacesLog(p.numStatesBetweenSnapshots, recs) && v in p.store.snapshots
    ensures p.store.snapshots[v].data.SnapshotBytes? && 1 <= v <= |recs|
    ensures ReadsAs(Table(ListOf(p.store.snapshots[v].data.content, t)), TableOf(recs[v - 1].records))
  {
    assert IsSnapshotVersion(p.numStatesBetweenSnapshots, v);
    InOrderTable(recs[v - 1].records);
  }

  lemma VisibleList(filter: Option<TypeFilter>, c: Content, t: string)
    requires Includes(filter, t)
    ensures ListOf(Visible(filter, c), t) == ListOf(c, t)
  {
  }

  lemma SnapshotPlaced(filter: Option<TypeFilter>, p: ProducerState, recs: seq<Keyed>, t: string, field: string, v: int)
    requires KeyedRecorded(p, recs, t, field) && PlacesLog(p.numStatesBetweenSnapshots, recs) && v in p.store.snapshots
    ensures p.store.snapshots[v].data.SnapshotBytes? && 1 <= v <= |recs|
    ensures Placed(filter, recs, t, v, Visible(filter, p.store.snapshots[v].data.content))
  {
    SnapshotTold(p, recs, t, field, v);
    if Includes(filter, t) { VisibleList(filter, p.store.snapshots[v].data.content, t); }
  }

  lemma KeyedWalkable(p: ProducerState, recs: seq<Keyed>, t: string, field: string)
    requires KeyedRecorded(p, recs, t, field)
    ensures Walkable(p.store, |recs|)
  {
    R.ShapeWalkable(p);
  }

  lemma SnapshotsPlaced(filter: Option<TypeFilter>, p: ProducerState, recs: seq<Keyed>, t: string, field: string)
    requires KeyedRecorded(p, recs, t, field) && PlacesLog(p.numStatesBetweenSnapshots, recs)
    requires Walkable(p.store, |recs|)
    ensures forall v :: v in p.store.snapshots ==>
      Placed(filter, recs, t, v, Visible(filter, p.store.snapshots[v].data.content))
  {
    forall v | v in p.store.snapshots
      ensures Placed(filter, recs, t, v, Visible(filter, p.store.snapshots[v].data.content))
    {
      SnapshotPlaced(filter, p, recs, t, field, v);
    }
  }

  lemma DeltasPreserve(filter: Option<TypeFilter>, p: ProducerState, recs: seq<Keyed>, t: string, field: string)
    requires KeyedRecorded(p, recs, t, field) && PlacesLog(p.numStatesBetweenSnapshots, recs)
    requires Walkable(p.store, |recs|)
    ensures forall v :: 1 <= v < |recs| && v + 1 !in p.store.snapshots && p.store.deltas[v].data.DeltaBytes? ==>
      Preserves(filter, JudgePlaces(filter, recs, t), v, p.store.deltas[v].data.delta)
  {
    forall v | 1 <= v < |recs| && v + 1 !in p.store.snapshots && p.store.deltas[v].data.DeltaBytes?
      ensures Preserves(filter, JudgePlaces(filter, recs, t), v, p.store.deltas[v].data.delta)
    {
      PlacesPreserved(filter, p, recs, t, field, v);
    }
  }

  lemma SoundByParts(filter: Option<TypeFilter>, s: Store, recs: seq<Keyed>, t: string)
    requires Walkable(s, |recs|)
    requires forall v :: v in s.snapshots ==> Placed(filter, recs, t, v, Visible(filter, s.snapshots[v].data.content))
    requires forall v :: 1 <= v < |recs| && v + 1 !in s.snapshots && s.deltas[v].data.DeltaBytes? ==>
      Preserves(filter, JudgePlaces(filter, recs, t), v, s.deltas[v].data.delta)
    ensures Sound(filter, s, |recs|, JudgePlaces(filter, recs, t))
  {
  }

  lemma GrowSound(filter: Option<TypeFilter>, p: ProducerState, recs: seq<Keyed>, t: string, field: string)
    requires KeyedRecorded(p, recs, t, field) && PlacesLog(p.numStatesBetweenSnapshots, recs)
    ensures Sound(filter, p.store, |recs|, JudgePlaces(filter, recs, t))
  {
    KeyedWalkable(p, recs, t, field);
    SnapshotsPlaced(filter, p, recs, t, field);
    DeltasPreserve(filter, p, recs, t, field);
    SoundByParts(filter, p.store, recs, t);
  }

  // ----- whole runs -----

  predicate Targeted(filter: Option<TypeFilter>, start: R.System, events: seq<R.Event>, t: string) {
    events == [] ||
    var front, e := events[..|events| - 1], events[|events| - 1];
    Targeted(filter, start, front, t) && (e.Refreshing? ==> e.target <= |RecordLog(filter, start, front, t)|)
  }

  /** Refreshes go to published versions, and what is published keeps its places. */
  ghost predicate PlacedRun(filter: Option<TypeFilter>, start: R.System, events: seq<R.Event>, t: string,
                            field: string) {
    && KeyedRun(filter, start, events, t, field)
    && PlacesLog(start.producer.numStatesBetweenSnapshots, RecordLog(filter, start, events, t))
    && Targeted(filter, start, events, t)
  }

  lemma LogPrefix(filter: Option<TypeFilter>, start: R.System, events: seq<R.Event>, t: string)
    requires events != []
    ensures RecordLog(filter, start, events[..|events| - 1], t) <= RecordLog(filter, start, events, t)
  {
  }

  lemma {:induction false} SameInterval(filter: Option<TypeFilter>, start: R.System, events: seq<R.Event>)
    ensures R.Run(filter, start, events).producer.numStatesBetweenSnapshots == start.producer.numStatesBetweenSnapshots
  {
    if events != [] {
      SameInterval(filter, start, events[..|events| - 1]);
      var e := events[|events| - 1];
      if e.Cycling? { CycleEffect(R.Run(filter, start, events[..|events| - 1]).producer, e.input); }
    }
  }

  lemma PlacedGrows(filter: Option<TypeFilter>, recs: seq<Keyed>, later: seq<Keyed>, t: string, r: Replica)
    requires recs <= later && Right(r, |recs|, JudgePlaces(filter, recs, t))
    ensures Right(r, |later|, JudgePlaces(filter, later, t))
  {
    if r.Some? {
      assert Placed(filter, recs, t, r.value.version, r.value.data);
      assert Placed(filter, later, t, r.value.version, r.value.data);
    }
  }

  lemma {:induction false} RunPlaced(filter: Option<TypeFilter>, start: R.System, events: seq<R.Event>, t: string,
                                     field: string)
    requires KeyedFresh(start, t, field) && PlacedRun(filter, start, events, t, field)
    ensures var recs := RecordLog(filter, start, events, t);
      Right(R.Run(filter, start, events).replica, |recs|, JudgePlaces(filter, recs, t))
  {
    if events != [] {
      var front, e := events[..|events| - 1], events[|events| - 1];
      var before, recs := RecordLog(filter, start, front, t), RecordLog(filter, start, events, t);
      LogPrefix(filter, start, events, t);
      RunPlaced(filter, start, front, t, field);
      PlacedGrows(filter, before, recs, t, R.Run(filter, start, front).replica);
      if e.Refreshing? {
        var s := R.Run(filter, start, front);
        RunKeyed(filter, start, front, t, field);
        SameInterval(filter, start, front);
        GrowSound(filter, s.producer, before, t, field);
        RefreshRight(filter, s.producer.store, |before|, JudgePlaces(filter, before, t), s.replica, e.target);
      }
    }
  }

  /**
   Every record of `k` has a readable key, the list entry at that key's ordinal reads
   the same, and the list holds nothing else.
   */
  ghost predicate AtOrdinals(n: Numbering, t: string, field: string, list: seq<Payload>, k: Keyed) {
    && |list| == |k.records|
    && forall i :: 0 <= i < |k.records| ==> var r := k.records[i];
         r.Info? && field in r.value.fields && OrdinalOf(n, t, r.value.fields[field]) == Some(r.ordinal) &&
         r.ordinal < |list| && list[r.ordinal].text == r.value.text
  }

  lemma PlacedAt(s: seq<Payload>, rs: seq<Record>, i: nat)
    requires ReadsAs(Table(s), TableOf(rs)) && DistinctOrdinals(rs) && i < |rs|
    ensures rs[i].ordinal < |s| && s[rs[i].ordinal].text == rs[i].value.text
  {
    var o := rs[i].ordinal;
    TableAt(rs, i);
    assert SameAt(At(Table(s), o), At(TableOf(rs), o));
  }

  lemma PlacedEverywhere(n: Numbering, t: string, field: string, list: seq<Payload>, k: Keyed)
    requires ReadsAs(Table(list), TableOf(k.records)) && Dense(k)
    requires Numbered(n) && Tagged(n, t, field, k.records)
    ensures AtOrdinals(n, t, field, list, k)
  {
    TaggedDistinct(n, t, field, k.records);
    KeysOfTagged(n, t, field, k.records);
    DenseLength(list, k.records, |k.records|);
    forall i | 0 <= i < |k.records|
      ensures k.records[i].ordinal < |list| && list[k.records[i].ordinal].text == k.records[i].value.text
    {
      PlacedAt(list, k.records, i);
    }
  }

  /**
   The replica's list of type `t` holds, at each key's ordinal, what was published for
   the key at the replica's version.
   */
  ghost predicate ListsByOrdinal(n: Numbering, recs: seq<Keyed>, t: string, field: string, r: Replica) {
    r.Some? ==>
      (1 <= r.value.version <= |recs| && AtOrdinals(n, t, field, ListOf(r.value.data, t), recs[r.value.version - 1]))
  }

  /** The refreshing consumer, the record log and the producer, all fit together. */
  ghost predicate Fitting(filter: Option<TypeFilter>, p: ProducerState, recs: seq<Keyed>, t: string, field: string,
                          r: Replica) {
    && KeyedRecorded(p, recs, t, field) && PlacesLog(p.numStatesBetweenSnapshots, recs)
    && Right(r, |recs|, JudgePlaces(filter, recs, t))
  }

  lemma RunFits(filter: Option<TypeFilter>, start: R.System, events: seq<R.Event>, t: string, field: string)
    requires KeyedFresh(start, t, field) && PlacedRun(filter, start, events, t, field)
    ensures var s := R.Run(filter, start, events);
      Fitting(filter, s.producer, RecordLog(filter, start, events, t), t, field, s.replica)
  {
    RunPlaced(filter, start, events, t, field);
    RunKeyed(filter, start, events, t, field);
    SameInterval(filter, start, events);
  }

  lemma FittingLists(filter: Option<TypeFilter>, p: ProducerState, recs: seq<Keyed>, t: string, field: string,
                     r: Replica)
    requires Fitting(filter, p, recs, t, field, r) && Includes(filter, t)
    ensures ListsByOrdinal(p.engine.numbering, recs, t, field, r)
  {
    if r.Some? {
      var v := r.value.version;
      assert Placed(filter, recs, t, v, r.value.data);
      LogDense(p, recs, t, field, v);
      TaggedAt(p, recs, t, field, v);
      PlacedEverywhere(p.engine.numbering, t, field, ListOf(r.value.data, t), recs[v - 1]);
    }
  }

  /**
   Whole runs.  If every published delta keeps the places (and any snapshot after the
   first lists its records by ordinal), then whatever refreshes happen in between, the
   consumer's list of a visible keyed type has exactly one entry per record, and the
   entry at a key's ordinal is that key's latest payload.
   */
  lemma PlacesOverRuns(filter: Option<TypeFilter>, start: R.System, events: seq<R.Event>, t: string, field: string)
    requires KeyedFresh(start, t, field) && PlacedRun(filter, start, events, t, field) && Includes(filter, t)
    ensures var s := R.Run(filter, start, events);
      ListsByOrdinal(s.producer.engine.numbering, RecordLog(filter, start, events, t), t, field, s.replica)
  {
    RunFits(filter, start, events, t, field);
    var s := R.Run(filter, start, events);
    FittingLists(filter, s.producer, RecordLog(filter, start, events, t), t, field, s.replica);
  }

  // ----- runs that leave no key out -----

  /** No delta leaves an ordinal out; a snapshot after the first lists all ordinals handed out, in order. */
  ghost predicate GrowLog(n: int, recs: seq<Keyed>) {
    forall v :: 1 < v <= |recs| ==>
      if IsSnapshotVersion(n, v) then InPlace(recs[v - 1]) else InUse(recs[v - 2]) <= InUse(recs[v - 1])
  }

  ghost predicate Full(k: Keyed) {
    forall o: nat :: o in TableOf(k.records) <==> o < k.next
  }

  lemma FullKept(d: seq<DeltaRecord>, prev: Keyed, cur: Keyed)
    requires Tells(d, prev, cur) && Full(prev) && InUse(prev) <= InUse(cur)
    ensures Full(cur)
  {
    forall o: nat ensures o in TableOf(cur.records) <==> o < cur.next {
      if o < prev.next { assert o in InUse(prev); }
    }
  }

  lemma {:induction false} GrowFull(p: ProducerState, recs: seq<Keyed>, t: string, field: string, v: int)
    requires KeyedRecorded(p, recs, t, field) && GrowLog(p.numStatesBetweenSnapshots, recs) && 1 <= v <= |recs|
    ensures Full(recs[v - 1]) && |recs[v - 1].records| == recs[v - 1].next
    decreases v
  {
    TaggedAt(p, recs, t, field, v);
    if v == 1 || IsSnapshotVersion(p.numStatesBetweenSnapshots, v) {
      InOrderTable(recs[v - 1].records);
    } else {
      GrowFull(p, recs, t, field, v - 1);
      assert DeltaTold(p.store, recs, t, v);
      FullKept(DeltaIn(p.store.deltas[v - 1], t), recs[v - 2], recs[v - 1]);
      DenseCount(recs[v - 1].records, recs[v - 1].next);
    }
  }

  lemma GrowKeepsPlaces(p: ProducerState, recs: seq<Keyed>, t: string, field: string)
    requires KeyedRecorded(p, recs, t, field) && GrowLog(p.numStatesBetweenSnapshots, recs)
    ensures PlacesLog(p.numStatesBetweenSnapshots, recs)
  {
    forall v | 1 < v <= |recs|
      ensures if IsSnapshotVersion(p.numStatesBetweenSnapshots, v) then InOrder(recs[v - 1].records)
        else KeepsPlaces(recs[v - 2], recs[v - 1])
    {
      GrowFull(p, recs, t, field, v - 1);
    }
  }

  /** Grow-only runs: nothing left out until the next snapshot is enough. */
  lemma GrowOnlyRuns(filter: Option<TypeFilter>, start: R.System, events: seq<R.Event>, t: string, field: string)
    requires KeyedFresh(start, t, field) && KeyedRun(filter, start, events, t, field) && Includes(filter, t)
    requires Targeted(filter, start, events, t)
    requires GrowLog(start.producer.numStatesBetweenSnapshots, RecordLog(filter, start, events, t))
    ensures var s := R.Run(filter, start, events);
      ListsByOrdinal(s.producer.engine.numbering, RecordLog(filter, start, events, t), t, field, s.replica)
  {
    RunKeyed(filter, start, events, t, field);
    SameInterval(filter, start, events);
    GrowKeepsPlaces(R.Run(filter, start, events).producer, RecordLog(filter, start, events, t), t, field);
    PlacesOverRuns(filter, start, events, t, field);
  }
}
