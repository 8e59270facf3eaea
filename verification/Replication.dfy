/**
 End to end: producer cycles and consumer refreshes in any order, and what the
 replica then holds.
 */
module Replication {
  import opened Basics
  import opened Deltas
  import opened Positional
  import opened WriteEngine
  import opened BlobStore
  import opened Production
  import opened Digests
  import opened Consumption
  import opened History
  import opened Walking

  // ----- the store against the log of published states -----

  ghost predicate SnapshotsTell(p: ProducerState, log: seq<Content>) {
    forall v :: v in p.store.snapshots ==> 1 <= v <= |log| && p.store.snapshots[v].data == SnapshotBytes(log[v - 1])
  }

  ghost predicate DeltasTell(p: ProducerState, log: seq<Content>) {
    forall v :: 1 < v <= |log| && !IsSnapshotVersion(p.numStatesBetweenSnapshots, v) ==>
      v - 1 in p.store.deltas && LeadsTo(p.engine.primaryKeys, p.store.deltas[v - 1], v, log[v - 2], log[v - 1])
  }

  ghost predicate BaseReads(p: ProducerState, last: Content) {
    p.lastDataHash == Some(DataHash(last)) && SameContent(ContentOf(p.engine.current), last)
  }

  /** The store tells the published states `log`, and the engine measures against the last of them. */
  ghost predicate Recorded(p: ProducerState, log: seq<Content>) {
    && |log| == p.currentVersion && StoreShape(p)
    && (forall i :: 0 <= i < |log| ==> log[i] != map[] && NonEmptyLists(log[i]))
    && SnapshotsTell(p, log) && DeltasTell(p, log)
    && (|log| > 0 ==> BaseReads(p, log[|log| - 1]))
  }

  function Logged(p: ProducerState, log: seq<Content>, input: CycleInput): seq<Content> {
    if Cycle(p, input).1 == Published then log + [PopulatedContent(p, input)] else log
  }

  /**
   A cycle that succeeds: it publishes, or it is skipped for another producer, or
   it is skipped as identical to a state that it really reads like.
   */
  ghost predicate Succeeds(p: ProducerState, log: seq<Content>, input: CycleInput) {
    var o := Cycle(p, input).1;
    o == NotPrimary || o == Published ||
    (o == Identical && |log| > 0 && SameContent(PopulatedContent(p, input), log[|log| - 1]))
  }

  /** The same, told from what the cycle is given. */
  lemma SucceedsOnInputs(p: ProducerState, log: seq<Content>, input: CycleInput)
    requires Recorded(p, log)
    ensures Succeeds(p, log, input) <==>
      !input.primary || Publishing(p, input) || (|log| > 0 && SameContent(RowsContent(input.rows), log[|log| - 1]))
  {
    CycleOutcome(p, input);
    PopulatedIsRows(p, input);
    NoRows(input.rows);
    if |log| > 0 && SameContent(RowsContent(input.rows), log[|log| - 1]) {
      SameDigest(RowsContent(input.rows), log[|log| - 1]);
    }
  }

  lemma LoggedDeltas(p: ProducerState, q: ProducerState, log: seq<Content>, c: Content, b: Blob, u: int)
    requires Recorded(p, log) && Publishes(p, q, c, b)
    requires 1 < u <= |log| + 1 && !IsSnapshotVersion(p.numStatesBetweenSnapshots, u)
    ensures u - 1 in q.store.deltas
    ensures LeadsTo(p.engine.primaryKeys, q.store.deltas[u - 1], u, (log + [c])[u - 2], (log + [c])[u - 1])
  {
    SnapshotDue(p.numStatesBetweenSnapshots, p.currentVersion, p.lastSnapshotVersion);
    if u == |log| + 1 {
      LeadsFromSame(p.engine.primaryKeys, b, u, ContentOf(p.engine.current), log[|log| - 1], c);
    } else {
      assert LeadsTo(p.engine.primaryKeys, p.store.deltas[u - 1], u, log[u - 2], log[u - 1]);
    }
  }

  lemma DeltasTellMore(p: ProducerState, q: ProducerState, log: seq<Content>, c: Content, b: Blob)
    requires Recorded(p, log) && Publishes(p, q, c, b)
    ensures DeltasTell(q, log + [c])
  {
    forall u | 1 < u <= |log + [c]| && !IsSnapshotVersion(q.numStatesBetweenSnapshots, u)
      ensures u - 1 in q.store.deltas
      ensures LeadsTo(q.engine.primaryKeys, q.store.deltas[u - 1], u, (log + [c])[u - 2], (log + [c])[u - 1])
    {
      LoggedDeltas(p, q, log, c, b, u);
    }
  }

  lemma SnapshotsTellMore(p: ProducerState, q: ProducerState, log: seq<Content>, c: Content, b: Blob)
    requires Recorded(p, log) && Publishes(p, q, c, b)
    ensures SnapshotsTell(q, log + [c])
  {
  }

  lemma RecordedPublish(p: ProducerState, q: ProducerState, log: seq<Content>, c: Content, b: Blob)
    requires Recorded(p, log) && Publishes(p, q, c, b)
    ensures Recorded(q, log + [c])
  {
    PublishKeepsShape(p, q, c, b);
    SnapshotsTellMore(p, q, log, c, b);
    DeltasTellMore(p, q, log, c, b);
  }

  lemma RecordedStays(p: ProducerState, q: ProducerState, log: seq<Content>)
    requires Recorded(p, log) && StoreShape(q)
    requires q.store == p.store && q.currentVersion == p.currentVersion && q.lastDataHash == p.lastDataHash
    requires q.engine.primaryKeys == p.engine.primaryKeys && q.numStatesBetweenSnapshots == p.numStatesBetweenSnapshots
    requires |log| > 0 ==> SameContent(ContentOf(q.engine.current), log[|log| - 1])
    ensures Recorded(q, log)
  {
  }

  /** Every run of successful cycles keeps store, log and diff base together. */
  lemma RecordedKept(p: ProducerState, log: seq<Content>, input: CycleInput)
    requires Recorded(p, log) && Succeeds(p, log, input)
    ensures Recorded(Cycle(p, input).0, Logged(p, log, input))
  {
    if Cycle(p, input).1 == Published {
      var b := CyclePublishes(p, input);
      RecordedPublish(p, Cycle(p, input).0, log, PopulatedContent(p, input), b);
    } else {
      StoreShapeKept(p, input);
      CycleEffect(p, input);
      CycleOutcome(p, input);
      PopulatedIsRows(p, input);
      if |log| > 0 { BaseKept(p, input, log[|log| - 1]); }
      RecordedStays(p, Cycle(p, input).0, log);
    }
  }

  // ----- one delta against a faithful replica -----

  /** The replica's list of type `t` reads as in `c`, or the filter hides the type. */
  predicate Exact(filter: Option<TypeFilter>, data: Content, c: Content, t: string) {
    (t in data <==> t in Shown(filter, c.Keys)) && (t in data ==> SameText(data[t], c[t]))
  }

  /** The type does not vanish and shrinks by at most one record. */
  predicate Gentle(prev: Content, cur: Content, t: string) {
    t in prev ==> t in cur && |prev[t]| <= |cur[t]| + 1
  }

  lemma ReplayedAt(filter: Option<TypeFilter>, data: Content, d: DeltaMap, t: string)
    ensures var after := ReplayedData(filter, data, d);
      && (t in after <==> t in data || (t in d && Includes(filter, t)))
      && ListOf(after, t) == if Includes(filter, t) then Replay(ListOf(data, t), ListOf(d, t)) else ListOf(data, t)
  {
  }

  /** A delta that says, type by type, what leads from `prev` to `cur`. */
  ghost predicate Tells(primaryKeys: map<string, string>, d: DeltaMap, prev: Content, cur: Content) {
    && NoEmptyLists(d) && NonEmptyLists(prev) && NonEmptyLists(cur)
    && forall t :: t !in primaryKeys ==> ListOf(d, t) == PlainDelta(prev, cur, t)
  }

  lemma SameTextVia(x: seq<Payload>, y: seq<Payload>, z: seq<Payload>)
    requires SameText(x, y)
    ensures SameText(x, z) <==> SameText(y, z)
  {
  }

  lemma ReplayExactAt(data: seq<Payload>, prev: seq<Payload>, cur: seq<Payload>)
    requires SameText(data, prev)
    ensures SameText(Replay(data, Diff(prev, cur)), cur) <==> |prev| <= |cur| + 1
  {
    ReplayByText(data, prev, Diff(prev, cur));
    ReplayDiffExact(prev, cur);
    SameTextVia(Replay(data, Diff(prev, cur)), Replay(prev, Diff(prev, cur)), cur);
  }

  lemma ExactByList(filter: Option<TypeFilter>, data: Content, c: Content, t: string)
    requires t in data && t in c && Includes(filter, t)
    ensures Exact(filter, data, c, t) <==> SameText(ListOf(data, t), c[t])
  {
  }

  /** A published delta keeps a faithful replica faithful exactly when the step is gentle. */
  lemma DeltaStepExact(filter: Option<TypeFilter>, primaryKeys: map<string, string>, d: DeltaMap,
                       prev: Content, cur: Content, data: Content, t: string)
    requires Tells(primaryKeys, d, prev, cur) && t !in primaryKeys && Exact(filter, data, prev, t)
    ensures Exact(filter, ReplayedData(filter, data, d), cur, t) <==> !Includes(filter, t) || Gentle(prev, cur, t)
  {
    ReplayedAt(filter, data, d, t);
    assert ListOf(d, t) == PlainDelta(prev, cur, t);
    assert t in d <==> PlainDelta(prev, cur, t) != [];
    if Includes(filter, t) && t in cur {
      ReplayExactAt(ListOf(data, t), ListOf(prev, t), cur[t]);
      DiffEmpty(ListOf(prev, t), cur[t]);
      ExactByList(filter, ReplayedData(filter, data, d), cur, t);
    }
  }

  // ----- a refresh over many blobs -----

  ghost predicate GentleStep(filter: Option<TypeFilter>, primaryKeys: map<string, string>, prev: Content,
                             cur: Content) {
    forall t :: t !in primaryKeys && Includes(filter, t) ==> Gentle(prev, cur, t)
  }

  /** The data of every type without a primary key is exact at version `v`. */
  ghost predicate ExactAll(filter: Option<TypeFilter>, primaryKeys: map<string, string>, log: seq<Content>, v: int,
                           data: Content) {
    1 <= v <= |log| && forall t :: t !in primaryKeys ==> Exact(filter, data, log[v - 1], t)
  }

  ghost function Judge(filter: Option<TypeFilter>, primaryKeys: map<string, string>, log: seq<Content>): Judgement {
    (v: int, data: Content) => ExactAll(filter, primaryKeys, log, v, data)
  }

  ghost predicate Faithful(filter: Option<TypeFilter>, primaryKeys: map<string, string>, r: Replica,
                           log: seq<Content>) {
    Right(r, |log|, Judge(filter, primaryKeys, log))
  }

  lemma FaithfulAt(filter: Option<TypeFilter>, primaryKeys: map<string, string>, r: Replica, log: seq<Content>,
                   t: string)
    requires Faithful(filter, primaryKeys, r, log) && r.Some? && t !in primaryKeys
    ensures 1 <= VersionOf(r) <= |log| && Exact(filter, DataOf(r), log[VersionOf(r) - 1], t)
  {
    assert ExactAll(filter, primaryKeys, log, VersionOf(r), DataOf(r));
  }

  /** Across every delta of the log, the visible types without a primary key change gently. */
  ghost predicate GentleLog(filter: Option<TypeFilter>, n: int, primaryKeys: map<string, string>, log: seq<Content>) {
    forall v, t :: 1 < v <= |log| && !IsSnapshotVersion(n, v) && t !in primaryKeys && Includes(filter, t) ==>
      Gentle(log[v - 2], log[v - 1], t)
  }

  lemma ExactAllStep(filter: Option<TypeFilter>, primaryKeys: map<string, string>, d: DeltaMap, log: seq<Content>,
                     v: int, data: Content)
    requires 1 <= v < |log| && Tells(primaryKeys, d, log[v - 1], log[v])
    requires GentleStep(filter, primaryKeys, log[v - 1], log[v])
    requires ExactAll(filter, primaryKeys, log, v, data)
    ensures ExactAll(filter, primaryKeys, log, v + 1, ReplayedData(filter, data, d))
  {
    forall t | t !in primaryKeys ensures Exact(filter, ReplayedData(filter, data, d), log[v], t) {
      assert Exact(filter, data, log[v - 1], t);
      DeltaStepExact(filter, primaryKeys, d, log[v - 1], log[v], data, t);
    }
  }

  lemma GentleAt(filter: Option<TypeFilter>, n: int, primaryKeys: map<string, string>, log: seq<Content>, v: int)
    requires GentleLog(filter, n, primaryKeys, log) && 1 < v <= |log| && !IsSnapshotVersion(n, v)
    ensures GentleStep(filter, primaryKeys, log[v - 2], log[v - 1])
  {
  }

  lemma JudgePreserves(filter: Option<TypeFilter>, primaryKeys: map<string, string>, log: seq<Content>, v: int,
                       d: DeltaMap)
    requires forall data :: ExactAll(filter, primaryKeys, log, v, data) ==>
      ExactAll(filter, primaryKeys, log, v + 1, ReplayedData(filter, data, d))
    ensures Preserves(filter, Judge(filter, primaryKeys, log), v, d)
  {
  }

  lemma RecordedDelta(p: ProducerState, log: seq<Content>, v: int)
    requires Recorded(p, log) && 1 <= v < |log| && v + 1 !in p.store.snapshots && p.store.deltas[v].data.DeltaBytes?
    ensures !IsSnapshotVersion(p.numStatesBetweenSnapshots, v + 1)
    ensures Tells(p.engine.primaryKeys, p.store.deltas[v].data.delta, log[v - 1], log[v])
  {
    assert LeadsTo(p.engine.primaryKeys, p.store.deltas[v + 1 - 1], v + 1, log[v + 1 - 2], log[v + 1 - 1]);
  }

  lemma RecordedStep(filter: Option<TypeFilter>, p: ProducerState, log: seq<Content>, v: int)
    requires Recorded(p, log) && GentleLog(filter, p.numStatesBetweenSnapshots, p.engine.primaryKeys, log)
    requires 1 <= v < |log| && v + 1 !in p.store.snapshots && p.store.deltas[v].data.DeltaBytes?
    ensures Tells(p.engine.primaryKeys, p.store.deltas[v].data.delta, log[v - 1], log[v])
    ensures GentleStep(filter, p.engine.primaryKeys, log[v - 1], log[v])
  {
    RecordedDelta(p, log, v);
    GentleAt(filter, p.numStatesBetweenSnapshots, p.engine.primaryKeys, log, v + 1);
  }

  lemma TellsPreserves(filter: Option<TypeFilter>, primaryKeys: map<string, string>, d: DeltaMap, log: seq<Content>,
                       v: int)
    requires 1 <= v < |log| && Tells(primaryKeys, d, log[v - 1], log[v])
    requires GentleStep(filter, primaryKeys, log[v - 1], log[v])
    ensures Preserves(filter, Judge(filter, primaryKeys, log), v, d)
  {
    forall data | ExactAll(filter, primaryKeys, log, v, data)
      ensures ExactAll(filter, primaryKeys, log, v + 1, ReplayedData(filter, data, d))
    {
      ExactAllStep(filter, primaryKeys, d, log, v, data);
    }
    JudgePreserves(filter, primaryKeys, log, v, d);
  }

  lemma DeltaPreserves(filter: Option<TypeFilter>, p: ProducerState, log: seq<Content>, v: int)
    requires Recorded(p, log) && GentleLog(filter, p.numStatesBetweenSnapshots, p.engine.primaryKeys, log)
    requires 1 <= v < |log| && v + 1 !in p.store.snapshots && p.store.deltas[v].data.DeltaBytes?
    ensures Preserves(filter, Judge(filter, p.engine.primaryKeys, log), v, p.store.deltas[v].data.delta)
  {
    RecordedStep(filter, p, log, v);
    TellsPreserves(filter, p.engine.primaryKeys, p.store.deltas[v].data.delta, log, v);
  }

  lemma ShapeWalkable(p: ProducerState)
    requires StoreShape(p) && forall v :: v in p.store.snapshots ==> p.store.snapshots[v].data.SnapshotBytes?
    ensures Walkable(p.store, p.currentVersion)
  {
    assert IsSnapshotVersion(p.numStatesBetweenSnapshots, 1);
  }

  lemma RecordedWalkable(p: ProducerState, log: seq<Content>)
    requires Recorded(p, log)
    ensures Walkable(p.store, |log|)
  {
    ShapeWalkable(p);
  }

  lemma SnapshotExact(filter: Option<TypeFilter>, p: ProducerState, log: seq<Content>, v: int)
    requires Recorded(p, log) && v in p.store.snapshots
    ensures p.store.snapshots[v].data.SnapshotBytes?
    ensures ExactAll(filter, p.engine.primaryKeys, log, v, Visible(filter, p.store.snapshots[v].data.content))
  {
  }

  /** The recorded store carries exactness from version to version. */
  lemma RecordedSound(filter: Option<TypeFilter>, p: ProducerState, log: seq<Content>)
    requires Recorded(p, log) && GentleLog(filter, p.numStatesBetweenSnapshots, p.engine.primaryKeys, log)
    ensures Sound(filter, p.store, |log|, Judge(filter, p.engine.primaryKeys, log))
  {
    RecordedWalkable(p, log);
    forall v | v in p.store.snapshots
      ensures ExactAll(filter, p.engine.primaryKeys, log, v, Visible(filter, p.store.snapshots[v].data.content))
    {
      SnapshotExact(filter, p, log, v);
    }
    forall v | 1 <= v < |log| && v + 1 !in p.store.snapshots && p.store.deltas[v].data.DeltaBytes?
      ensures Preserves(filter, Judge(filter, p.engine.primaryKeys, log), v, p.store.deltas[v].data.delta)
    {
      DeltaPreserves(filter, p, log, v);
    }
  }

  /** One refresh: faithful before, faithful after, never backwards, and arriving exactly when its walk decodes. */
  lemma RefreshFaithful(filter: Option<TypeFilter>, p: ProducerState, log: seq<Content>, r: Replica, target: int)
    requires Recorded(p, log) && GentleLog(filter, p.numStatesBetweenSnapshots, p.engine.primaryKeys, log)
    requires Faithful(filter, p.engine.primaryKeys, r, log) && target <= |log|
    ensures var (next, ok) := Refresh(filter, p.store, r, target);
      && Faithful(filter, p.engine.primaryKeys, next, log)
      && VersionOf(r) <= VersionOf(next)
      && (ok <==> WalkDecodes(p.store, VersionOf(r), target))
      && (ok <==> VersionOf(next) == if target > VersionOf(r) then target else VersionOf(r))
  {
    RecordedSound(filter, p, log);
    RefreshRight(filter, p.store, |log|, Judge(filter, p.engine.primaryKeys, log), r, target);
  }

  // ----- whole runs -----

  datatype Event = Cycling(input: CycleInput) | Refreshing(target: int)

  datatype System = System(producer: ProducerState, log: seq<Content>, replica: Replica)

  /** Where runs start: nothing published, nothing read. */
  predicate Fresh(s: System) {
    && s.log == [] && s.replica == None
    && s.producer.store == EMPTY_STORE && s.producer.currentVersion == 0 && s.producer.lastSnapshotVersion == 0
  }

  function Step(filter: Option<TypeFilter>, s: System, e: Event): System {
    match e
    case Cycling(input) => System(Cycle(s.producer, input).0, Logged(s.producer, s.log, input), s.replica)
    case Refreshing(target) =>
      if Filled(s.producer.store) then s.(replica := Refresh(filter, s.producer.store, s.replica, target).0) else s
  }

  function Run(filter: Option<TypeFilter>, start: System, events: seq<Event>): System {
    if events == [] then start else Step(filter, Run(filter, start, events[..|events| - 1]), events[|events| - 1])
  }

  /** In the run so far no snapshot that was due was refused by the serializer. */
  ghost predicate KeepsSnapshots(filter: Option<TypeFilter>, start: System, events: seq<Event>) {
    events == [] ||
    var front, e := events[..|events| - 1], events[|events| - 1];
    && KeepsSnapshots(filter, start, front)
    && (e.Cycling? ==> !LosesSnapshot(Run(filter, start, front).producer, e.input))
  }

  lemma {:induction false} RunShape(filter: Option<TypeFilter>, start: System, events: seq<Event>)
    requires Fresh(start) && KeepsSnapshots(filter, start, events)
    ensures StoreShape(Run(filter, start, events).producer)
  {
    if events != [] {
      var front, e := events[..|events| - 1], events[|events| - 1];
      RunShape(filter, start, front);
      if e.Cycling? { StoreShapeKept(Run(filter, start, front).producer, e.input); }
    }
  }

  /**
   Version `v` has a snapshot exactly when the interval selects it, and otherwise the
   delta from the version before.
   */
  predicate StoredAt(p: ProducerState, v: int)
    requires p.numStatesBetweenSnapshots >= 1 && v >= 1
  {
    if (v - 1) % p.numStatesBetweenSnapshots == 0 then v in p.store.snapshots
    else v !in p.store.snapshots && v - 1 in p.store.deltas && p.store.deltas[v - 1].toVersion == v
  }

  predicate PlansWithin(p: ProducerState, from: nat, target: nat)
    requires Filled(p.store)
  {
    && Plan(p.store, from, target).Ok?
    && |Plan(p.store, from, target).value| <= p.numStatesBetweenSnapshots
    && |Plan(p.store, from, target).value| <= target - from
  }

  lemma ModOne(a: nat)
    ensures a % 1 == 0
  {
  }

  lemma ShapeStoredAt(p: ProducerState, v: int)
    requires StoreShape(p) && p.numStatesBetweenSnapshots >= 1 && 1 <= v <= p.currentVersion
    ensures StoredAt(p, v)
  {
    SnapshotVersions(p.numStatesBetweenSnapshots, v);
    SnapshotVersions(p.numStatesBetweenSnapshots, 1);
    if p.numStatesBetweenSnapshots == 1 { ModOne(v - 1); }
    if v == 1 { ModUnique(0, 0, 0, p.numStatesBetweenSnapshots); }
  }

  /**
   The store after any run, whatever its cycles were given: each published version
   is there as the interval says, and between published versions the planner finds
   no gap and needs at most as many blobs as an interval holds.
   */
  lemma StoreOverRuns(filter: Option<TypeFilter>, start: System, events: seq<Event>, from: nat, target: nat)
    requires Fresh(start) && KeepsSnapshots(filter, start, events)
    ensures var p := Run(filter, start, events).producer;
      p.numStatesBetweenSnapshots >= 1 && from <= target <= p.currentVersion ==>
        Filled(p.store) && PlansWithin(p, from, target) && (target >= 1 ==> StoredAt(p, target))
  {
    RunShape(filter, start, events);
    var p := Run(filter, start, events).producer;
    if p.numStatesBetweenSnapshots >= 1 && from <= target <= p.currentVersion {
      PlanBounded(p, from, target);
      if target >= 1 { ShapeStoredAt(p, target); }
    }
  }

  ghost predicate SucceedingRun(filter: Option<TypeFilter>, start: System, events: seq<Event>) {
    events == [] ||
    var front, e := events[..|events| - 1], events[|events| - 1];
    && SucceedingRun(filter, start, front)
    && (e.Cycling? ==> Succeeds(Run(filter, start, front).producer, Run(filter, start, front).log, e.input))
  }

  /**
   The diff base over runs: as long as every cycle succeeds, the store tells the
   published states and the state the next delta is measured against reads like the
   last of them.
   */
  lemma {:induction false} RunRecorded(filter: Option<TypeFilter>, start: System, events: seq<Event>)
    requires Fresh(start) && SucceedingRun(filter, start, events)
    ensures Recorded(Run(filter, start, events).producer, Run(filter, start, events).log)
  {
    if events != [] {
      var front, e := events[..|events| - 1], events[|events| - 1];
      RunRecorded(filter, start, front);
      if e.Cycling? { RecordedKept(Run(filter, start, front).producer, Run(filter, start, front).log, e.input); }
    }
  }

  /** The next cycle publishes, and publishes a delta. */
  predicate PublishesDelta(p: ProducerState, input: CycleInput) {
    p.currentVersion > 0 && Cycle(p, input).1 == Published && !ShouldCreateSnapshot(p, p.currentVersion + 1)
  }

  /**
   What the theorem asks of one event: a cycle succeeds and, where it publishes a
   delta, changes the visible types without a primary key gently; a refresh goes to
   a version already published.
   */
  ghost predicate Regular(filter: Option<TypeFilter>, s: System, e: Event) {
    match e
    case Cycling(input) =>
      Succeeds(s.producer, s.log, input) &&
      (PublishesDelta(s.producer, input) && |s.log| > 0 ==>
        GentleStep(filter, s.producer.engine.primaryKeys, s.log[|s.log| - 1], PopulatedContent(s.producer, input)))
    case Refreshing(target) => target <= |s.log|
  }

  ghost predicate RegularRun(filter: Option<TypeFilter>, start: System, events: seq<Event>) {
    events == [] ||
    (RegularRun(filter, start, events[..|events| - 1]) &&
     Regular(filter, Run(filter, start, events[..|events| - 1]), events[|events| - 1]))
  }

  /** What holds after every event of a regular run. */
  ghost predicate Consistent(filter: Option<TypeFilter>, s: System) {
    && Recorded(s.producer, s.log)
    && GentleLog(filter, s.producer.numStatesBetweenSnapshots, s.producer.engine.primaryKeys, s.log)
    && Faithful(filter, s.producer.engine.primaryKeys, s.replica, s.log)
  }

  lemma GentleLogGrows(filter: Option<TypeFilter>, n: int, primaryKeys: map<string, string>, log: seq<Content>,
                       c: Content)
    requires GentleLog(filter, n, primaryKeys, log)
    requires |log| > 0 && !IsSnapshotVersion(n, |log| + 1) ==> GentleStep(filter, primaryKeys, log[|log| - 1], c)
    ensures GentleLog(filter, n, primaryKeys, log + [c])
  {
    forall v, t | 1 < v <= |log + [c]| && !IsSnapshotVersion(n, v) && t !in primaryKeys && Includes(filter, t)
      ensures Gentle((log + [c])[v - 2], (log + [c])[v - 1], t)
    {
      if v <= |log| { assert Gentle(log[v - 2], log[v - 1], t); }
    }
  }

  lemma FaithfulGrows(filter: Option<TypeFilter>, primaryKeys: map<string, string>, r: Replica, log: seq<Content>,
                      more: seq<Content>)
    requires Faithful(filter, primaryKeys, r, log)
    ensures Faithful(filter, primaryKeys, r, log + more)
  {
    if r.Some? {
      assert ExactAll(filter, primaryKeys, log, VersionOf(r), DataOf(r));
      assert ExactAll(filter, primaryKeys, log + more, VersionOf(r), DataOf(r));
    }
  }

  lemma ConsistentByPublish(filter: Option<TypeFilter>, s: System, input: CycleInput)
    requires Consistent(filter, s) && Regular(filter, s, Cycling(input)) && Cycle(s.producer, input).1 == Published
    ensures GentleLog(filter, s.producer.numStatesBetweenSnapshots, s.producer.engine.primaryKeys,
      s.log + [PopulatedContent(s.producer, input)])
  {
    var p := s.producer;
    SnapshotDue(p.numStatesBetweenSnapshots, p.currentVersion, p.lastSnapshotVersion);
    GentleLogGrows(filter, p.numStatesBetweenSnapshots, p.engine.primaryKeys, s.log, PopulatedContent(p, input));
  }

  lemma ConsistentByCycle(filter: Option<TypeFilter>, s: System, input: CycleInput)
    requires Consistent(filter, s) && Regular(filter, s, Cycling(input))
    ensures Consistent(filter, Step(filter, s, Cycling(input)))
  {
    RecordedKept(s.producer, s.log, input);
    CycleEffect(s.producer, input);
    if Cycle(s.producer, input).1 == Published {
      ConsistentByPublish(filter, s, input);
      FaithfulGrows(filter, s.producer.engine.primaryKeys, s.replica, s.log, [PopulatedContent(s.producer, input)]);
    }
  }

  lemma ConsistentKept(filter: Option<TypeFilter>, s: System, e: Event)
    requires Consistent(filter, s) && Regular(filter, s, e)
    ensures Consistent(filter, Step(filter, s, e))
    ensures VersionOf(s.replica) <= VersionOf(Step(filter, s, e).replica)
    ensures s.log <= Step(filter, s, e).log
  {
    match e
    case Cycling(input) => ConsistentByCycle(filter, s, input);
    case Refreshing(target) => RefreshFaithful(filter, s.producer, s.log, s.replica, target);
  }

  lemma {:induction false} RunConsistent(filter: Option<TypeFilter>, start: System, events: seq<Event>)
    requires Fresh(start) && RegularRun(filter, start, events)
    ensures Consistent(filter, Run(filter, start, events))
  {
    if events != [] {
      RunConsistent(filter, start, events[..|events| - 1]);
      ConsistentKept(filter, Run(filter, start, events[..|events| - 1]), events[|events| - 1]);
    }
  }

  /** The replica's list of type `t` is the one published at the replica's own version. */
  ghost predicate ServesList(filter: Option<TypeFilter>, s: System, t: string) {
    s.replica.Some? && t !in s.producer.engine.primaryKeys ==>
      (1 <= s.replica.value.version <= |s.log| &&
       Exact(filter, s.replica.value.data, s.log[s.replica.value.version - 1], t))
  }

  lemma ConsistentExact(filter: Option<TypeFilter>, s: System, t: string)
    requires Consistent(filter, s)
    ensures ServesList(filter, s, t)
  {
    if s.replica.Some? && t !in s.producer.engine.primaryKeys {
      FaithfulAt(filter, s.producer.engine.primaryKeys, s.replica, s.log, t);
    }
  }

  /** Over any run, regular or not, and for types of any kind, the replica serves nothing the filter hides. */
  lemma {:induction false} RunShown(filter: Option<TypeFilter>, start: System, events: seq<Event>)
    requires Fresh(start)
    ensures OnlyShown(filter, Run(filter, start, events).replica)
  {
    if events != [] {
      var front, e := events[..|events| - 1], events[|events| - 1];
      RunShown(filter, start, front);
      var s := Run(filter, start, front);
      if e.Refreshing? && Filled(s.producer.store) { RefreshShown(filter, s.producer.store, s.replica, e.target); }
    }
  }

  /**
   Safety over whole runs.  However cycles and refreshes interleave and whichever
   blobs a refresh takes, the replica's visible lists of types without a primary
   key read exactly as published at the replica's own version, even right after a
   refresh that failed half way.
   */
  lemma ReplicaFaithful(filter: Option<TypeFilter>, start: System, events: seq<Event>, t: string)
    requires Fresh(start) && RegularRun(filter, start, events)
    ensures ServesList(filter, Run(filter, start, events), t)
  {
    RunConsistent(filter, start, events);
    ConsistentExact(filter, Run(filter, start, events), t);
  }

  /** No event of a regular run takes the replica back, or changes what has been published. */
  lemma {:induction false} RunGrows(filter: Option<TypeFilter>, start: System, events: seq<Event>, k: nat)
    requires Fresh(start) && RegularRun(filter, start, events) && k <= |events|
    ensures RegularRun(filter, start, events[..k])
    ensures VersionOf(Run(filter, start, events[..k]).replica) <= VersionOf(Run(filter, start, events).replica)
    ensures Run(filter, start, events[..k]).log <= Run(filter, start, events).log
  {
    if k < |events| {
      var front := events[..|events| - 1];
      assert front[..k] == events[..k];
      RunGrows(filter, start, front, k);
      RunConsistent(filter, start, front);
      ConsistentKept(filter, Run(filter, start, front), events[|events| - 1]);
    } else {
      assert events[..k] == events;
    }
  }

  // ----- arrival, when no type has a primary key -----

  lemma GentleKeys(prev: Content, cur: Content)
    requires GentleStep(None, map[], prev, cur)
    ensures prev.Keys <= cur.Keys
  {
    forall t | t in prev ensures t in cur { assert Gentle(prev, cur, t); }
  }

  /** A delta published without primary keys is not empty: the digest would have skipped the cycle. */
  lemma PublishedDecodes(p: ProducerState, q: ProducerState, last: Content, c: Content, b: Blob)
    requires p.engine.primaryKeys == map[] && Publishes(p, q, c, b) && p.currentVersion > 0 && BaseReads(p, last)
    requires !ShouldCreateSnapshot(p, p.currentVersion + 1) && last.Keys <= c.Keys
    ensures b.data.DeltaBytes?
  {
    var v := p.currentVersion + 1;
    LeadsFromSame(map[], b, v, ContentOf(p.engine.current), last, c);
    PlainDeltaEmpty(b, v, last, c);
    if SameContent(last, c) { SameDigest(last, c); }
  }

  lemma DecodableGrows(p: ProducerState, q: ProducerState, b: Blob)
    requires StoreShape(p) && Decodes(p.store, p.currentVersion)
    requires q.store == Stored(p.store, b) && q.currentVersion == p.currentVersion + 1
    requires q.numStatesBetweenSnapshots == p.numStatesBetweenSnapshots
    requires if SnapshotIsDue(p) then b.kind == SnapshotBlob && b.version == q.currentVersion
      else b.kind == DeltaBlob && b.fromVersion == p.currentVersion && b.data.DeltaBytes?
    ensures Decodes(q.store, q.currentVersion)
  {
    SnapshotDue(p.numStatesBetweenSnapshots, p.currentVersion, p.lastSnapshotVersion);
  }

  lemma DecodableByPublish(p: ProducerState, log: seq<Content>, q: ProducerState, c: Content, b: Blob)
    requires Recorded(p, log) && p.engine.primaryKeys == map[] && Decodes(p.store, p.currentVersion)
    requires Publishes(p, q, c, b)
    requires |log| > 0 && !ShouldCreateSnapshot(p, p.currentVersion + 1) ==> GentleStep(None, map[], log[|log| - 1], c)
    ensures Decodes(q.store, q.currentVersion)
  {
    if !ShouldCreateSnapshot(p, p.currentVersion + 1) {
      GentleKeys(log[|log| - 1], c);
      PublishedDecodes(p, q, log[|log| - 1], c, b);
    }
    DecodableGrows(p, q, b);
  }

  lemma DecodableStays(p: ProducerState, input: CycleInput)
    requires Cycle(p, input).1 != Published && Decodes(p.store, p.currentVersion)
    ensures Decodes(Cycle(p, input).0.store, Cycle(p, input).0.currentVersion)
  {
    CycleEffect(p, input);
  }

  lemma DecodableKept(s: System, input: CycleInput)
    requires Consistent(None, s) && Regular(None, s, Cycling(input)) && s.producer.engine.primaryKeys == map[]
    requires Decodes(s.producer.store, s.producer.currentVersion)
    ensures Decodes(Cycle(s.producer, input).0.store, Cycle(s.producer, input).0.currentVersion)
  {
    if Cycle(s.producer, input).1 == Published {
      var b := CyclePublishes(s.producer, input);
      DecodableByPublish(s.producer, s.log, Cycle(s.producer, input).0, PopulatedContent(s.producer, input), b);
    } else {
      DecodableStays(s.producer, input);
    }
  }

  /** The highest version any refresh asked for. */
  function Highest(events: seq<Event>): int {
    if events == [] then 0 else
      var before, e := Highest(events[..|events| - 1]), events[|events| - 1];
      if e.Refreshing? && e.target > before then e.target else before
  }

  /** Every refresh of the run finds that the walk it takes decodes. */
  ghost predicate WalksThrough(filter: Option<TypeFilter>, start: System, events: seq<Event>) {
    events == [] ||
    var front, e := events[..|events| - 1], events[|events| - 1];
    var s := Run(filter, start, front);
    && WalksThrough(filter, start, front)
    && (e.Refreshing? ==> WalkDecodes(s.producer.store, VersionOf(s.replica), e.target))
  }

  /** Every refresh of the run leaves the consumer at its target or above. */
  ghost predicate AllArrive(filter: Option<TypeFilter>, start: System, events: seq<Event>) {
    events == [] ||
    var front, e := events[..|events| - 1], events[|events| - 1];
    && AllArrive(filter, start, front)
    && (e.Refreshing? ==> e.target <= VersionOf(Step(filter, Run(filter, start, front), e).replica))
  }

  lemma RefreshStays(filter: Option<TypeFilter>, s: System, target: int)
    requires Consistent(filter, s) && VersionOf(s.replica) < target <= |s.log|
    ensures VersionOf(Refresh(filter, s.producer.store, s.replica, target).0) <= target
  {
    RecordedWalkable(s.producer, s.log);
    RefreshEnds(filter, s.producer.store, |s.log|, s.replica, target);
  }

  lemma ArrivesWhere(filter: Option<TypeFilter>, s: System, e: Event)
    requires Consistent(filter, s) && Regular(filter, s, e)
    ensures var v := VersionOf(Step(filter, s, e).replica);
      if e.Refreshing? && WalkDecodes(s.producer.store, VersionOf(s.replica), e.target) then
        v == if e.target > VersionOf(s.replica) then e.target else VersionOf(s.replica)
      else if e.Refreshing? then v < e.target
      else v == VersionOf(s.replica)
  {
    if e.Refreshing? {
      RefreshFaithful(filter, s.producer, s.log, s.replica, e.target);
      if e.target > VersionOf(s.replica) { RefreshStays(filter, s, e.target); }
    }
  }

  /** Over any regular run the refreshes all arrive if and only if each one's own walk decodes. */
  lemma {:induction false} RunArrivesExactly(filter: Option<TypeFilter>, start: System, events: seq<Event>)
    requires Fresh(start) && RegularRun(filter, start, events)
    ensures AllArrive(filter, start, events) <==> WalksThrough(filter, start, events)
    ensures WalksThrough(filter, start, events) ==> VersionOf(Run(filter, start, events).replica) == Highest(events)
  {
    if events != [] {
      var front := events[..|events| - 1];
      RunArrivesExactly(filter, start, front);
      RunConsistent(filter, start, front);
      ArrivesWhere(filter, Run(filter, start, front), events[|events| - 1]);
    }
  }

  /**
   With primary keys and a type filter: where each refresh's own walk decodes, the
   consumer is at the highest version asked for, and every visible list of a type
   without a key is the one published there.
   */
  lemma ReplicationWithKeys(filter: Option<TypeFilter>, start: System, events: seq<Event>, t: string)
    requires Fresh(start) && RegularRun(filter, start, events) && WalksThrough(filter, start, events)
    ensures VersionOf(Run(filter, start, events).replica) == Highest(events)
    ensures ServesList(filter, Run(filter, start, events), t)
  {
    RunArrivesExactly(filter, start, events);
    ReplicaFaithful(filter, start, events, t);
  }

  /** No type has a primary key, and every delta published so far decodes. */
  ghost predicate Keyless(s: System) {
    s.producer.engine.primaryKeys == map[] && Decodes(s.producer.store, s.producer.currentVersion)
  }

  lemma KeylessWalk(s: System, target: int)
    requires Consistent(None, s) && Keyless(s) && target <= |s.log|
    ensures WalkDecodes(s.producer.store, VersionOf(s.replica), target)
  {
    RecordedWalkable(s.producer, s.log);
    if target > VersionOf(s.replica) {
      DecodesAnyWalk(s.producer.store, |s.log|, VersionOf(s.replica), target);
    }
  }

  lemma ArriveStep(s: System, e: Event)
    requires Consistent(None, s) && Regular(None, s, e) && Keyless(s)
    ensures Keyless(Step(None, s, e))
    ensures VersionOf(Step(None, s, e).replica) ==
      if e.Refreshing? && e.target > VersionOf(s.replica) then e.target else VersionOf(s.replica)
  {
    match e
    case Cycling(input) =>
      DecodableKept(s, input);
      CycleEffect(s.producer, input);
    case Refreshing(target) =>
      KeylessWalk(s, target);
      ArrivesWhere(None, s, e);
  }

  lemma {:induction false} RunArrives(start: System, events: seq<Event>)
    requires Fresh(start) && start.producer.engine.primaryKeys == map[] && RegularRun(None, start, events)
    ensures Keyless(Run(None, start, events))
    ensures VersionOf(Run(None, start, events).replica) == Highest(events)
  {
    if events != [] {
      var front := events[..|events| - 1];
      RunArrives(start, front);
      RunConsistent(None, start, front);
      ArriveStep(Run(None, start, front), events[|events| - 1]);
    }
  }

  lemma ExactEverywhere(data: Content, c: Content)
    requires forall t :: Exact(None, data, c, t)
    ensures SameContent(data, c)
  {
    assert forall t :: Exact(None, data, c, t) ==> (t in data <==> t in c);
    assert data.Keys == c.Keys;
    forall t | t in data ensures SameText(data[t], c[t]) { assert Exact(None, data, c, t); }
  }

  lemma ExactAllEverywhere(log: seq<Content>, v: int, data: Content)
    requires ExactAll(None, map[], log, v, data)
    ensures 1 <= v <= |log| && SameContent(data, log[v - 1])
  {
    var c, none: map<string, string> := log[v - 1], map[];
    forall t ensures Exact(None, data, c, t) { assert t !in none; }
    ExactEverywhere(data, c);
  }

  /** The consumer is at version `h`, with the data published there. */
  ghost predicate ServesVersion(r: Replica, log: seq<Content>, h: int) {
    && VersionOf(r) == h
    && (r.Some? ==> 1 <= h <= |log| && SameContent(r.value.data, log[h - 1]))
  }

  lemma FaithfulServes(r: Replica, log: seq<Content>)
    requires Faithful(None, map[], r, log)
    ensures ServesVersion(r, log, VersionOf(r))
  {
    if r.Some? {
      assert ExactAll(None, map[], log, r.value.version, r.value.data);
      ExactAllEverywhere(log, r.value.version, r.value.data);
    }
  }

  lemma KeylessFaithful(s: System)
    requires Consistent(None, s) && Keyless(s)
    ensures Faithful(None, map[], s.replica, s.log)
  {
  }

  /**
   End-to-end replication.  With no primary keys, after any regular run the consumer
   is at the highest version it was ever asked for, and its data reads exactly as
   published at that version: the same types, the same lists, record by record.
   */
  lemma ReplicationOverRuns(start: System, events: seq<Event>)
    requires Fresh(start) && start.producer.engine.primaryKeys == map[] && RegularRun(None, start, events)
    ensures ServesVersion(Run(None, start, events).replica, Run(None, start, events).log, Highest(events))
  {
    RunArrives(start, events);
    RunConsistent(None, start, events);
    var s := Run(None, start, events);
    KeylessFaithful(s);
    FaithfulServes(s.replica, s.log);
  }
}
