/**
 Runs seen at one type with a primary key: every stored delta, addressed by
 ordinal, leads from one published table to the next.
 */
module KeyedHistory {
  import opened Basics
  import opened Deltas
  import opened Positional
  import opened WriteEngine
  import opened BlobStore
  import opened Production
  import opened Digests
  import opened History
  import opened PrimaryKeys

  // ----- what resharding leaves alone -----

  /** The same values under the same ordinals; only shard numbers may differ. */
  predicate SameIdentities(a: seq<Record>, b: seq<Record>) {
    |a| == |b| && forall i :: 0 <= i < |a| ==>
      a[i].value == b[i].value && a[i].Info? == b[i].Info? && (a[i].Info? ==>
        a[i].ordinal == b[i].ordinal && a[i].isUpdate == b[i].isUpdate)
  }

  lemma HalfCurrentKeys(a: seq<Record>, b: seq<Record>, field: string)
    requires SameIdentities(a, b)
    ensures CurrentKeys(a, field) <= CurrentKeys(b, field)
  {
    forall k | k in CurrentKeys(a, field) ensures k in CurrentKeys(b, field) {
      var i :| 0 <= i < |a| && a[i].Info? && KeyOf(a[i].value, field) == Some(k);
      assert b[i] in b;
    }
  }

  lemma SameCurrentKeys(a: seq<Record>, b: seq<Record>, field: string)
    requires SameIdentities(a, b)
    ensures CurrentKeys(a, field) == CurrentKeys(b, field)
  {
    HalfCurrentKeys(a, b, field);
    HalfCurrentKeys(b, a, field);
  }

  lemma {:induction false} SameTable(a: seq<Record>, b: seq<Record>)
    requires SameIdentities(a, b)
    ensures TableOf(a) == TableOf(b)
  {
    if a != [] { SameTable(a[..|a| - 1], b[..|b| - 1]); }
  }

  lemma SameTagged(n: Numbering, t: string, field: string, a: seq<Record>, b: seq<Record>)
    requires SameIdentities(a, b) && Tagged(n, t, field, a)
    ensures Tagged(n, t, field, b)
  {
    assert Values(a) == Values(b);
  }

  lemma ReshardIdentities(e: Engine, target: ShardSize, t: string)
    ensures SameIdentities(ListOf(Reshard(e, target).current, t), ListOf(e.current, t))
  {
  }

  /** The engine a cycle measures with: resharded if the producer is set to. */
  function ReshardedOf(p: ProducerState, e: Engine): Engine {
    if p.typeResharding then Reshard(e, p.targetMaxTypeShardSize) else e
  }

  lemma ReshardedFacts(p: ProducerState, e: Engine, t: string)
    ensures var r := ReshardedOf(p, e);
      && SameIdentities(ListOf(r.current, t), ListOf(e.current, t))
      && r.previous == e.previous && r.primaryKeys == e.primaryKeys && r.delta == e.delta && r.numbering == e.numbering
  {
    ReshardedPart(p, e);
    if p.typeResharding { ReshardIdentities(e, p.targetMaxTypeShardSize, t); }
  }

  lemma MeasuredIdentities(p: ProducerState, e: Engine, t: string)
    ensures SameIdentities(ListOf(Measured(p, e).current, t), ListOf(e.current, t))
    ensures Measured(p, e).numbering == e.numbering && Measured(p, e).primaryKeys == e.primaryKeys
  {
    ReshardedFacts(p, e, t);
  }

  /** Resharding does not change what the end of the cycle adds for a keyed type. */
  lemma MeasuredKeyed(p: ProducerState, e: Engine, t: string)
    requires e.previous.Some? && t in e.primaryKeys
    ensures ListOf(Measured(p, e).delta, t) == ListOf(CalculateDeltas(e).delta, t)
  {
    ReshardedFacts(p, e, t);
    var r := ReshardedOf(p, e);
    CalculatedAt(r, t);
    CalculatedAt(e, t);
    SameCurrentKeys(ListOf(r.current, t), ListOf(e.current, t), e.primaryKeys[t]);
  }

  // ----- the base of a cycle -----

  /** The engine's current list of type `t` carries the ordinals of its keys. */
  ghost predicate KeyedBase(e: Engine, t: string, field: string) {
    && t in e.primaryKeys && e.primaryKeys[t] == field
    && Numbered(e.numbering) && Tagged(e.numbering, t, field, ListOf(e.current, t))
  }

  lemma ReadyFromBase(e: Engine, t: string, field: string)
    requires KeyedBase(e, t, field)
    ensures Ready(Prepare(e), t, field) && PreviousOf(Prepare(e), t) == ListOf(e.current, t)
  {
  }

  /** The values a cycle is given for `t` have readable, distinct keys. */
  predicate KeyedInput(input: CycleInput, t: string, field: string) {
    KeyedList(OfType(input.rows, t), field)
  }

  function RecordsOf(p: ProducerState, input: CycleInput, t: string): seq<Record> {
    ListOf(Populated(p, input.rows).current, t)
  }

  lemma PopulatedBase(p: ProducerState, input: CycleInput, t: string, field: string)
    requires KeyedBase(p.engine, t, field) && KeyedInput(input, t, field)
    ensures KeyedBase(Populated(p, input.rows), t, field)
    ensures Extends(p.engine.numbering, Populated(p, input.rows).numbering)
    ensures Values(RecordsOf(p, input, t)) == OfType(input.rows, t)
  {
    ReadyFromBase(p.engine, t, field);
    KeyedDeltaExact(Prepare(p.engine), input.rows, t, field);
    PopulatedFacts(p, input.rows);
  }

  /** What a cycle does to identities: the population's numbering, and its records up to shards. */
  ghost predicate EngineAfter(e: Engine, q: Engine, o: Outcome, t: string) {
    && q.numbering == e.numbering && q.primaryKeys == e.primaryKeys
    && (if o == Rejected then q.current == map[] else SameIdentities(ListOf(q.current, t), ListOf(e.current, t)))
  }

  lemma EngineAfterCommit(r: ProducerState, f: Engine, q: ProducerState, o: Outcome, hash: Digest, t: string)
    requires Committed(r, f, q, o, hash)
    requires f.numbering == r.engine.numbering && f.primaryKeys == r.engine.primaryKeys
    requires SameIdentities(ListOf(f.current, t), ListOf(r.engine.current, t))
    ensures EngineAfter(r.engine, q.engine, o, t)
  {
  }

  lemma CycleEngine(p: ProducerState, input: CycleInput, t: string)
    ensures var (q, o) := Cycle(p, input);
      if o == NotPrimary then q == p else EngineAfter(Populated(p, input.rows), q.engine, o, t)
  {
    var r := Populating(p, input);
    var (q, o) := Cycle(p, input);
    if o in {Published, StoreFailed, Rejected} {
      var hash := DataHash(PopulatedContent(p, input));
      CycleCommits(p, input);
      CommitFacts(r, hash, input);
      MeasuredIdentities(r, r.engine, t);
      EngineAfterCommit(r, Measured(r, r.engine), q, o, hash, t);
    } else {
      CycleStops(p, input);
    }
  }

  /** Whatever becomes of a cycle with distinct keys, the next one can start from what it leaves. */
  lemma KeyedBaseKept(p: ProducerState, input: CycleInput, t: string, field: string)
    requires KeyedBase(p.engine, t, field) && KeyedInput(input, t, field)
    ensures KeyedBase(Cycle(p, input).0.engine, t, field)
    ensures Extends(p.engine.numbering, Cycle(p, input).0.engine.numbering)
  {
    var (q, o) := Cycle(p, input);
    CycleEngine(p, input, t);
    PopulatedFacts(p, input.rows);
    if o != NotPrimary {
      PopulatedBase(p, input, t, field);
      if o != Rejected {
        SameTagged(q.engine.numbering, t, field, RecordsOf(p, input, t), ListOf(q.engine.current, t));
      }
    }
  }

  // ----- the published delta of a keyed type -----

  function Cycled(p: ProducerState, input: CycleInput, t: string): seq<DeltaRecord> {
    ListOf(CalculateDeltas(Populated(p, input.rows)).delta, t)
  }

  lemma OptimizedAt(d: DeltaMap, t: string)
    ensures ListOf(OptimizeMap(d), t) == Optimize(ListOf(d, t))
  {
  }

  lemma PublishedKeyed(p: ProducerState, input: CycleInput, t: string)
    requires t in p.engine.primaryKeys && !ShouldCreateSnapshot(p, p.currentVersion + 1)
    ensures var b := BlobOf(MeasuredProducer(p, input), p.currentVersion + 1);
      ListOf(DecodedDelta(b.data), t) == Optimize(Cycled(p, input, t))
  {
    PopulatedFacts(p, input.rows);
    var r := Populating(p, input);
    MeasuredKeyed(r, r.engine, t);
    var d := Measured(r, r.engine).delta;
    OptimizedAt(d, t);
    if EmptyMap(OptimizeMap(d)) { EmptyLists(OptimizeMap(d), t); }
  }

  /** The delta of a keyed type leads, by ordinal, from one record list to another. */
  ghost predicate LeadsByOrdinal(d: seq<DeltaRecord>, prev: seq<Record>, cur: seq<Record>)
  {
    ReadsAs(ApplyAll(TableOf(prev), d), TableOf(cur))
  }

  lemma ReadsAsTrans(a: map<nat, Payload>, b: map<nat, Payload>, c: map<nat, Payload>)
    requires ReadsAs(a, b) && ReadsAs(b, c)
    ensures ReadsAs(a, c)
  {
    forall o: nat ensures SameAt(At(a, o), At(c, o)) {
      assert SameAt(At(a, o), At(b, o)) && SameAt(At(b, o), At(c, o));
    }
  }

  lemma ReadsAsFlip(a: map<nat, Payload>, b: map<nat, Payload>)
    requires ReadsAs(a, b)
    ensures ReadsAs(b, a)
  {
    forall o: nat ensures SameAt(At(b, o), At(a, o)) { assert SameAt(At(a, o), At(b, o)); }
  }

  /** A delta cannot tell apart tables that read the same. */
  lemma ApplyReadsAs(a: map<nat, Payload>, b: map<nat, Payload>, d: seq<DeltaRecord>)
    requires ReadsAs(a, b)
    ensures ReadsAs(ApplyAll(a, d), ApplyAll(b, d))
  {
    forall o: nat ensures SameAt(At(ApplyAll(a, d), o), At(ApplyAll(b, d), o)) {
      ApplyAllAt(a, d, o);
      ApplyAllAt(b, d, o);
      assert SameAt(At(a, o), At(b, o));
    }
  }

  // ----- new keys -----

  /** List position and ordinal agree. */
  predicate InOrder(rs: seq<Record>) {
    forall i :: 0 <= i < |rs| ==> rs[i].Info? && rs[i].ordinal == i
  }

  /**
   Population since `start`: an update is about a key known before the cycle, every
   key given an ordinal in the cycle is among the current records, and if no key was
   known before then the records stand in the order of their ordinals.
   */
  ghost predicate Novel(start: Engine, e: Engine, t: string, field: string) {
    var cur := ListOf(e.current, t);
    && (forall i :: 0 <= i < |cur| && cur[i].Info? && cur[i].isUpdate ==> cur[i].ordinal < NextOf(start.numbering, t))
    && (forall k :: k in KeysOf(e.numbering, t) && k !in KeysOf(start.numbering, t) ==> k in CurrentKeys(cur, field))
    && (NextOf(start.numbering, t) == 0 ==> InOrder(cur) && |cur| == NextOf(e.numbering, t))
  }

  lemma OrdinalBelow(n: Numbering, t: string, k: string)
    requires Numbered(n)
    ensures k in KeysOf(n, t) ==> KeysOf(n, t)[k] < NextOf(n, t)
  {
    assert NumberedType(KeysOf(n, t), NextOf(n, t));
    if k in KeysOf(n, t) { assert KeysOf(n, t)[k] in KeysOf(n, t).Values; }
  }

  lemma KeyUnseen(n: Numbering, t: string, field: string, cur: seq<Record>, v: Payload)
    requires Tagged(n, t, field, cur) && KeyedList(Values(cur) + [v], field)
    ensures KeyOf(v, field).Some? && KeyOf(v, field).value !in CurrentKeys(cur, field)
  {
    KeyedSnoc(Values(cur), v, field);
    KeysOfTagged(n, t, field, cur);
    forall i | 0 <= i < |cur| ensures KeyOf(cur[i].value, field) != KeyOf(v, field) {
      assert Values(cur)[i] == cur[i].value;
    }
  }

  lemma KnownBefore(start: Engine, e: Engine, rows: seq<Payload>, t: string, field: string, v: Payload)
    requires PopulatedSoFar(start, e, rows, t, field) && Novel(start, e, t, field) && Numbered(start.numbering)
    requires KeyedList(OfType(rows, t) + [v], field) && OrdinalOf(e.numbering, t, KeyOf(v, field).GetOr("")).Some?
    ensures OrdinalOf(e.numbering, t, KeyOf(v, field).GetOr("")).value < NextOf(start.numbering, t)
  {
    KeyUnseen(e.numbering, t, field, ListOf(e.current, t), v);
    OrdinalBelow(start.numbering, t, KeyOf(v, field).value);
  }

  lemma CurrentKeysSnoc(rs: seq<Record>, r: Record, field: string)
    ensures CurrentKeys(rs + [r], field) ==
      CurrentKeys(rs, field) + if r.Info? && KeyOf(r.value, field).Some? then {KeyOf(r.value, field).value} else {}
  {
    assert forall x :: x in rs + [r] <==> x in rs || x == r;
  }

  /** Whether `r` is the record a keyed value adds to `e`, given that a known key was known at the start. */
  predicate NextRecord(first: nat, e: Engine, t: string, key: string, r: Record) {
    var known := OrdinalOf(e.numbering, t, key);
    && r.Info? && r.isUpdate == known.Some?
    && r.ordinal == (if known.Some? then known.value else NextOf(e.numbering, t))
    && (known.Some? ==> known.value < first)
  }

  lemma NovelSnoc(start: Engine, e: Engine, f: Engine, t: string, field: string, key: string, r: Record)
    requires Novel(start, e, t, field) && NextRecord(NextOf(start.numbering, t), e, t, key, r)
    requires KeyOf(r.value, field) == Some(key)
    requires ListOf(f.current, t) == ListOf(e.current, t) + [r] && f.numbering == Assign(e.numbering, t, key)
    ensures Novel(start, f, t, field)
  {
    CurrentKeysSnoc(ListOf(e.current, t), r, field);
  }

  lemma NovelSame(start: Engine, e: Engine, rows: seq<Payload>, t: string, field: string, v: Payload)
    requires Ready(start, t, field) && PopulatedSoFar(start, e, rows, t, field) && Novel(start, e, t, field)
    requires v.typeName == t && KeyedList(OfType(rows, t) + [v], field)
    ensures Novel(start, AddValue(e, v), t, field)
  {
    KeyedSnoc(OfType(rows, t), v, field);
    AddKeyedAt(e, v, field);
    var key := KeyOf(v, field).value;
    if OrdinalOf(e.numbering, t, key).Some? { KnownBefore(start, e, rows, t, field, v); }
    NovelSnoc(start, e, AddValue(e, v), t, field, key, RecordOf(e, v, key));
  }

  lemma NovelOther(start: Engine, e: Engine, v: Payload, t: string, field: string)
    requires Novel(start, e, t, field) && v.typeName != t
    ensures Novel(start, AddValue(e, v), t, field)
  {
    OtherType(e, v, t);
  }

  lemma NovelNone(start: Engine, t: string, field: string)
    requires Ready(start, t, field)
    ensures Novel(start, start, t, field)
  {
  }

  lemma {:induction false} PopulateNovel(start: Engine, rows: seq<Payload>, t: string, field: string)
    requires Ready(start, t, field) && KeyedList(OfType(rows, t), field)
    ensures Novel(start, AddAll(start, rows), t, field)
  {
    if rows == [] {
      NovelNone(start, t, field);
    } else {
      var front, v := rows[..|rows| - 1], rows[|rows| - 1];
      OfTypeFront(rows, t, field);
      PopulateNovel(start, front, t, field);
      if v.typeName == t {
        PopulateKeyed(start, front, t, field);
        KeyedFront(rows, t, field);
        NovelSame(start, AddAll(start, front), front, t, field, v);
      } else {
        NovelOther(start, AddAll(start, front), v, t, field);
      }
    }
  }

  // ----- a record list with the ordinals handed out so far -----

  datatype Keyed = Keyed(records: seq<Record>, next: nat)

  /** All that a delta says about a keyed type between two states. */
  ghost predicate Tells(d: seq<DeltaRecord>, prev: Keyed, cur: Keyed) {
    && LeadsByOrdinal(d, prev.records, cur.records) && Increasing(d) && prev.next <= cur.next
    && (forall r :: r in d ==> match r
          case Add(o, _) => prev.next <= o < cur.next
          case Update(o, _) => o < prev.next
          case Delete(o) => o in TableOf(prev.records) && o !in TableOf(cur.records))
    && (forall o: nat :: o in TableOf(cur.records) ==> o < cur.next)
    && (forall o: nat :: prev.next <= o < cur.next ==> o in TableOf(cur.records))
  }

  lemma OptimizedOnly(rs: seq<DeltaRecord>, r: DeltaRecord)
    requires r in Optimize(rs)
    ensures r in rs
  {
    var out := Optimize(rs);
    OptimizeIsOptimized(rs);
    LastForOrdinal(out, r.ordinal);
    LastForOrdinal(rs, r.ordinal);
    var i :| 0 <= i < |out| && out[i] == r;
    assert LastFor(out, r.ordinal) == Some(r) by {
      var j :| 0 <= j < |out| && out[j] == LastFor(out, r.ordinal).value;
    }
  }

  lemma ChangeFrom(prev: map<nat, Payload>, rs: seq<Record>, r: DeltaRecord)
    requires (forall i :: 0 <= i < |rs| ==> rs[i].Info?) && r in Changes(prev, rs)
    ensures !r.Delete?
    ensures exists i :: 0 <= i < |rs| && rs[i].ordinal == r.ordinal && rs[i].isUpdate == r.Update?
  {
    if rs[|rs| - 1].ordinal == r.ordinal && r in ChangeOne(prev, rs[|rs| - 1]) {
    } else {
      ChangeFrom(prev, rs[..|rs| - 1], r);
      var i :| 0 <= i < |rs| - 1 && rs[..|rs| - 1][i].ordinal == r.ordinal && rs[..|rs| - 1][i].isUpdate == r.Update?;
      assert rs[i].ordinal == r.ordinal;
    }
  }

  lemma {:induction false} TableHas(rs: seq<Record>, o: nat)
    ensures o in TableOf(rs) <==> exists i :: 0 <= i < |rs| && rs[i].Info? && rs[i].ordinal == o
  {
    if rs != [] {
      var front := rs[..|rs| - 1];
      TableHas(front, o);
      assert forall i :: 0 <= i < |front| ==> front[i] == rs[i];
    }
  }

  /** Every ordinal handed out in the cycle is in use at its end. */
  lemma NewInUse(start: Engine, e: Engine, t: string, field: string, o: nat)
    requires Numbered(start.numbering) && Numbered(e.numbering) && Extends(start.numbering, e.numbering)
    requires Novel(start, e, t, field) && Tagged(e.numbering, t, field, ListOf(e.current, t))
    requires NextOf(start.numbering, t) <= o < NextOf(e.numbering, t)
    ensures o in TableOf(ListOf(e.current, t))
  {
    var cur := ListOf(e.current, t);
    assert NumberedType(KeysOf(e.numbering, t), NextOf(e.numbering, t));
    assert o in KeysOf(e.numbering, t).Values;
    var k :| k in KeysOf(e.numbering, t) && KeysOf(e.numbering, t)[k] == o;
    OrdinalBelow(start.numbering, t, k);
    KeysOfTagged(e.numbering, t, field, cur);
    var i :| 0 <= i < |cur| && KeyOf(cur[i].value, field) == Some(k);
    TableHas(cur, o);
  }

  function KeyedOf(e: Engine, t: string): Keyed {
    Keyed(ListOf(e.current, t), NextOf(e.numbering, t))
  }

  lemma DeltaRecordsTell(start: Engine, e: Engine, t: string, field: string, r: DeltaRecord)
    requires Ready(start, t, field) && Novel(start, e, t, field) && Numbered(e.numbering)
    requires Collected(e.numbering, NextOf(start.numbering, t), TableOf(PreviousOf(start, t)), t, field,
                       Values(ListOf(e.current, t)), ListOf(e.current, t), ListOf(e.delta, t))
    requires r in ListOf(e.delta, t)
    ensures match r
      case Add(o, _) => NextOf(start.numbering, t) <= o < NextOf(e.numbering, t)
      case Update(o, _) => o < NextOf(start.numbering, t)
      case Delete(_) => false
  {
    var cur := ListOf(e.current, t);
    ChangeFrom(TableOf(PreviousOf(start, t)), cur, r);
    var i :| 0 <= i < |cur| && cur[i].ordinal == r.ordinal && cur[i].isUpdate == r.Update?;
    TaggedBelow(e.numbering, t, field, cur, i);
  }

  lemma DeleteTells(n: Numbering, t: string, field: string, prev: seq<Record>, cur: seq<Record>,
                    changes: seq<DeltaRecord>, omitted: seq<DeltaRecord>, r: DeltaRecord)
    requires Delta(n, t, field, prev, cur, changes, omitted) && r in omitted
    ensures r.Delete? && r.ordinal in TableOf(prev) && r.ordinal !in TableOf(cur)
  {
    TableHas(prev, r.ordinal);
    OmittedOnly(n, t, field, prev, CurrentKeys(cur, field), r);
    TableHas(cur, r.ordinal);
    if i: nat :| i < |cur| && cur[i].ordinal == r.ordinal {
      OmittedMisses(n, t, field, prev, cur, changes, omitted, i);
      LastForOrdinal(omitted, r.ordinal);
    }
  }

  lemma MergedTells(start: Engine, e: Engine, t: string, field: string, r: DeltaRecord)
    requires Ready(start, t, field) && Novel(start, e, t, field)
    requires e.previous == start.previous && e.primaryKeys == start.primaryKeys
    requires Delta(e.numbering, t, field, PreviousOf(start, t), ListOf(e.current, t), ListOf(e.delta, t), Extra(e, t))
    requires Collected(e.numbering, NextOf(start.numbering, t), TableOf(PreviousOf(start, t)), t, field,
                       Values(ListOf(e.current, t)), ListOf(e.current, t), ListOf(e.delta, t))
    requires r in Optimize(ListOf(CalculateDeltas(e).delta, t))
    ensures match r
      case Add(o, _) => NextOf(start.numbering, t) <= o < NextOf(e.numbering, t)
      case Update(o, _) => o < NextOf(start.numbering, t)
      case Delete(o) => o in TableOf(PreviousOf(start, t)) && o !in TableOf(ListOf(e.current, t))
  {
    OptimizedOnly(ListOf(CalculateDeltas(e).delta, t), r);
    CalculatedAt(e, t);
    if r in ListOf(e.delta, t) {
      DeltaRecordsTell(start, e, t, field, r);
    } else {
      DeleteTells(e.numbering, t, field, PreviousOf(start, t), ListOf(e.current, t), ListOf(e.delta, t), Extra(e, t),
                  r);
    }
  }

  lemma InUseBelow(n: Numbering, t: string, field: string, rs: seq<Record>, o: nat)
    requires Numbered(n) && Tagged(n, t, field, rs) && o in TableOf(rs)
    ensures o < NextOf(n, t)
  {
    TableHas(rs, o);
    var i :| 0 <= i < |rs| && rs[i].Info? && rs[i].ordinal == o;
    TaggedBelow(n, t, field, rs, i);
  }

  lemma AllRecordsTell(start: Engine, e: Engine, t: string, field: string)
    requires Ready(start, t, field) && Novel(start, e, t, field)
    requires e.previous == start.previous && e.primaryKeys == start.primaryKeys
    requires Delta(e.numbering, t, field, PreviousOf(start, t), ListOf(e.current, t), ListOf(e.delta, t), Extra(e, t))
    requires Collected(e.numbering, NextOf(start.numbering, t), TableOf(PreviousOf(start, t)), t, field,
                       Values(ListOf(e.current, t)), ListOf(e.current, t), ListOf(e.delta, t))
    ensures forall r :: r in Optimize(ListOf(CalculateDeltas(e).delta, t)) ==> match r
      case Add(o, _) => NextOf(start.numbering, t) <= o < NextOf(e.numbering, t)
      case Update(o, _) => o < NextOf(start.numbering, t)
      case Delete(o) => o in TableOf(PreviousOf(start, t)) && o !in TableOf(ListOf(e.current, t))
  {
    forall r | r in Optimize(ListOf(CalculateDeltas(e).delta, t)) ensures match r
      case Add(o, _) => NextOf(start.numbering, t) <= o < NextOf(e.numbering, t)
      case Update(o, _) => o < NextOf(start.numbering, t)
      case Delete(o) => o in TableOf(PreviousOf(start, t)) && o !in TableOf(ListOf(e.current, t))
    {
      MergedTells(start, e, t, field, r);
    }
  }

  lemma InUse(start: Engine, e: Engine, t: string, field: string)
    requires Numbered(start.numbering) && Numbered(e.numbering) && Extends(start.numbering, e.numbering)
    requires Novel(start, e, t, field) && Tagged(e.numbering, t, field, ListOf(e.current, t))
    ensures forall o: nat :: o in TableOf(ListOf(e.current, t)) ==> o < NextOf(e.numbering, t)
    ensures forall o: nat :: NextOf(start.numbering, t) <= o < NextOf(e.numbering, t) ==>
      o in TableOf(ListOf(e.current, t))
  {
    forall o: nat | o in TableOf(ListOf(e.current, t)) ensures o < NextOf(e.numbering, t) {
      InUseBelow(e.numbering, t, field, ListOf(e.current, t), o);
    }
    forall o: nat | NextOf(start.numbering, t) <= o < NextOf(e.numbering, t)
      ensures o in TableOf(ListOf(e.current, t))
    {
      NewInUse(start, e, t, field, o);
    }
  }

  /** The merged delta of a cycle with distinct keys, fully told. */
  lemma CycleTells(start: Engine, rows: seq<Payload>, t: string, field: string)
    requires Ready(start, t, field) && KeyedList(OfType(rows, t), field)
    ensures var e := AddAll(start, rows);
      Tells(Optimize(ListOf(CalculateDeltas(e).delta, t)),
            Keyed(PreviousOf(start, t), NextOf(start.numbering, t)), KeyedOf(e, t))
  {
    var e := AddAll(start, rows);
    PopulateKeyed(start, rows, t, field);
    PopulateNovel(start, rows, t, field);
    KeyedDeltaExact(start, rows, t, field);
    TaggedLater(start.numbering, e.numbering, t, field, PreviousOf(start, t));
    OptimizeShape(ListOf(CalculateDeltas(e).delta, t));
    AllRecordsTell(start, e, t, field);
    InUse(start, e, t, field);
  }

  // ----- when the delta of a keyed type is empty -----

  lemma {:induction false} UpdateIsReal(prev: map<nat, Payload>, rs: seq<Record>, r: DeltaRecord)
    requires (forall i :: 0 <= i < |rs| ==> rs[i].Info?) && r in Changes(prev, rs) && r.Update?
    ensures !Unchanged(prev, r.ordinal, r.value.text)
  {
    if r in Changes(prev, rs[..|rs| - 1]) { UpdateIsReal(prev, rs[..|rs| - 1], r); }
  }

  lemma MergedUpdateIsReal(start: Engine, rows: seq<Payload>, t: string, field: string, r: DeltaRecord)
    requires Ready(start, t, field) && KeyedList(OfType(rows, t), field)
    requires r in Optimize(ListOf(CalculateDeltas(AddAll(start, rows)).delta, t)) && r.Update?
    ensures !Unchanged(TableOf(PreviousOf(start, t)), r.ordinal, r.value.text)
  {
    var e := AddAll(start, rows);
    PopulateKeyed(start, rows, t, field);
    OptimizedOnly(ListOf(CalculateDeltas(e).delta, t), r);
    CalculatedAt(e, t);
    TaggedLater(start.numbering, e.numbering, t, field, PreviousOf(start, t));
    if r in Extra(e, t) {
      OmittedOnly(e.numbering, t, field, PreviousOf(start, t), CurrentKeys(ListOf(e.current, t), field), r);
    } else {
      UpdateIsReal(TableOf(PreviousOf(start, t)), ListOf(e.current, t), r);
    }
  }

  lemma {:induction false} IncreasingLast(d: seq<DeltaRecord>, r: DeltaRecord)
    requires Increasing(d) && r in d
    ensures LastFor(d, r.ordinal) == Some(r)
  {
    LastForOrdinal(d, r.ordinal);
    var i :| 0 <= i < |d| && d[i] == r;
    var j :| 0 <= j < |d| && d[j] == LastFor(d, r.ordinal).value;
  }

  /** A record of a told delta shows: the tables read differently at its ordinal. */
  lemma RecordShows(d: seq<DeltaRecord>, prev: Keyed, cur: Keyed, r: DeltaRecord)
    requires Tells(d, prev, cur) && r in d
    requires forall o: nat :: o in TableOf(prev.records) ==> o < prev.next
    requires r.Update? ==> !Unchanged(TableOf(prev.records), r.ordinal, r.value.text)
    ensures !ReadsAs(TableOf(prev.records), TableOf(cur.records))
  {
    var o, a, b := r.ordinal, TableOf(prev.records), TableOf(cur.records);
    IncreasingLast(d, r);
    ApplyAllAt(a, d, o);
    assert SameAt(At(ApplyAll(a, d), o), At(b, o));
    assert !SameAt(At(a, o), At(b, o));
  }

  /** With distinct keys a type's delta is empty exactly when both tables read the same, whatever the list order. */
  lemma KeyedDeltaEmpty(start: Engine, rows: seq<Payload>, t: string, field: string)
    requires Ready(start, t, field) && KeyedList(OfType(rows, t), field)
    ensures var e := AddAll(start, rows);
      Optimize(ListOf(CalculateDeltas(e).delta, t)) == [] <==>
        ReadsAs(TableOf(PreviousOf(start, t)), TableOf(ListOf(e.current, t)))
  {
    var e := AddAll(start, rows);
    var d := Optimize(ListOf(CalculateDeltas(e).delta, t));
    CycleTells(start, rows, t, field);
    if d != [] {
      var r := d[0];
      if r.Update? { MergedUpdateIsReal(start, rows, t, field, r); }
      forall o: nat | o in TableOf(PreviousOf(start, t)) ensures o < NextOf(start.numbering, t) {
        InUseBelow(start.numbering, t, field, PreviousOf(start, t), o);
      }
      RecordShows(d, Keyed(PreviousOf(start, t), NextOf(start.numbering, t)), KeyedOf(e, t), r);
    }
  }
}
