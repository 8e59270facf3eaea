/** The announcer under every interleaving of its locked pieces, its queue and its worker, before it is closed. */
module AnnouncerProtocol {
  import opened Basics
  import opened Announcer

  // ----- what one notification does -----

  /** The subscribers whose send succeeds, in list order, each tried after those before it. */
  function Reached(channels: seq<Channel>, ids: seq<nat>, version: int, waiting: set<nat>): seq<nat>
    requires Open(channels, ids)
  {
    if ids == [] then [] else
      var before, id := Notified(channels, ids[..|ids| - 1], version, waiting), ids[|ids| - 1];
      Reached(channels, ids[..|ids| - 1], version, waiting) + if Accepts(before[id], id, waiting) then [id] else []
  }

  lemma DistinctFront(ids: seq<nat>)
    requires Distinct(ids) && ids != []
    ensures Distinct(ids[..|ids| - 1]) && ids[|ids| - 1] !in ids[..|ids| - 1]
  {
  }

  /** Each listed channel is offered the version once; nobody else is. */
  lemma {:induction false} NotifiedAt(channels: seq<Channel>, ids: seq<nat>, version: int, waiting: set<nat>, id: nat)
    requires Open(channels, ids) && Distinct(ids) && id < |channels|
    ensures Notified(channels, ids, version, waiting)[id] ==
      if id in ids && HasRoom(channels[id], id, waiting) then Sent(channels[id], version) else channels[id]
  {
    if ids != [] {
      var front, last := ids[..|ids| - 1], ids[|ids| - 1];
      DistinctFront(ids);
      assert ids == front + [last];
      NotifiedAt(channels, front, version, waiting, id);
    }
  }

  lemma {:induction false} KeepingBeyond(s: seq<nat>, dead: set<nat>, k: nat)
    requires k >= |s|
    ensures Keeping(s, dead + {k}) == Keeping(s, dead)
  {
    if s != [] { KeepingBeyond(s[..|s| - 1], dead, k); }
  }

  lemma {:induction false} DeadBelow(channels: seq<Channel>, ids: seq<nat>, version: int, waiting: set<nat>)
    requires Open(channels, ids)
    ensures forall d :: d in DeadAt(channels, ids, version, waiting) ==> d < |ids|
  {
    if ids != [] { DeadBelow(channels, ids[..|ids| - 1], version, waiting); }
  }

  /** Removal by descending index leaves exactly the subscribers whose send succeeded, in order. */
  lemma {:induction false} RemovalIsFiltering(channels: seq<Channel>, ids: seq<nat>, version: int, waiting: set<nat>)
    requires Open(channels, ids)
    ensures Keeping(ids, DeadAt(channels, ids, version, waiting)) == Reached(channels, ids, version, waiting)
  {
    if ids != [] {
      var front := ids[..|ids| - 1];
      RemovalIsFiltering(channels, front, version, waiting);
      DeadBelow(channels, front, version, waiting);
      KeepingBeyond(front, DeadAt(channels, front, version, waiting), |front|);
      assert DeadAt(channels, front, version, waiting) + {} == DeadAt(channels, front, version, waiting);
    }
  }

  lemma {:induction false} ReachedMembers(channels: seq<Channel>, ids: seq<nat>, version: int, waiting: set<nat>)
    requires Open(channels, ids) && Distinct(ids)
    ensures Distinct(Reached(channels, ids, version, waiting))
    ensures forall id :: id in Reached(channels, ids, version, waiting) <==>
      id in ids && HasRoom(channels[id], id, waiting)
  {
    if ids != [] {
      var front, last := ids[..|ids| - 1], ids[|ids| - 1];
      DistinctFront(ids);
      assert ids == front + [last];
      ReachedMembers(channels, front, version, waiting);
      NotifiedAt(channels, front, version, waiting, last);
    }
  }

  /**
   One notification.  A listed subscriber with room gets exactly the version and
   stays; one without room gets nothing and is removed; nobody else is touched.
   */
  lemma NotifyReaches(s: State, version: int, waiting: set<nat>, id: nat)
    requires Valid(s) && Distinct(s.subscribers) && id < |s.channels|
    ensures var after := NotifyAll(s, version, waiting);
      && |after.channels| == |s.channels|
      && (id in s.subscribers && HasRoom(s.channels[id], id, waiting) ==>
            id in after.subscribers && after.channels[id].log == s.channels[id].log + [version])
      && (id in s.subscribers && !HasRoom(s.channels[id], id, waiting) ==>
            id !in after.subscribers && after.channels[id] == s.channels[id])
      && (id !in s.subscribers ==> id !in after.subscribers && after.channels[id] == s.channels[id])
  {
    RemovalIsFiltering(s.channels, s.subscribers, version, waiting);
    ReachedMembers(s.channels, s.subscribers, version, waiting);
    NotifiedAt(s.channels, s.subscribers, version, waiting, id);
  }

  // ----- the protocol -----

  /**
   The announcer with what runs beside it: the version the worker holds, the
   Announce calls between their lock and their enqueue, and for the record the
   versions announced so far in lock order, those whose Announce returned an
   error, and how many had been announced when each channel was made.
   */
  datatype Protocol = Protocol(
    a: State,
    worker: Option<int>,
    flying: multiset<int>,
    announced: seq<int>,
    failed: set<int>,
    joined: seq<nat>)

  datatype Event =
    | AnnounceLocks(version: int)
    | Enqueues(version: int)
    | GivesUp(version: int)
    | WorkerTakes
    | WorkerProcesses(waiting: set<nat>)
    | Subscribes(bufferSize: nat)
    | Unsubscribes(id: nat)
    | Pins(version: int, waiting: set<nat>)
    | Unpins(waiting: set<nat>)
    | Receives(id: nat)

  const INITIAL := Protocol(State(0, 0, false, [], [], []), None, multiset{}, [], {}, [])

  /** Whether an event can happen; receiving and the worker may also come back empty-handed. */
  predicate Enabled(p: Protocol, e: Event) {
    match e
    case Enqueues(v) => v in p.flying && |p.a.announceQueue| < QUEUE_CAPACITY
    case GivesUp(v) => v in p.flying
    case WorkerTakes => p.worker.None? && p.a.announceQueue != []
    case WorkerProcesses(_) => p.worker.Some?
    case Receives(id) => id < |p.a.channels| && p.a.channels[id].taken < |p.a.channels[id].log|
    case _ => true
  }

  function Received(c: Channel): Channel {
    c.(taken := c.taken + 1)
  }

  function Step(p: Protocol, e: Event): Protocol
    requires Valid(p.a) && Enabled(p, e)
  {
    match e
    case AnnounceLocks(v) => p.(a := Recorded(p.a, v), flying := p.flying + multiset{v}, announced := p.announced + [v])
    case Enqueues(v) => p.(a := p.a.(announceQueue := p.a.announceQueue + [v]), flying := p.flying - multiset{v})
    case GivesUp(v) => p.(flying := p.flying - multiset{v}, failed := p.failed + {v})
    case WorkerTakes => p.(a := p.a.(announceQueue := p.a.announceQueue[1..]), worker := Some(p.a.announceQueue[0]))
    case WorkerProcesses(waiting) => p.(a := Processed(p.a, p.worker.value, waiting), worker := None)
    case Subscribes(bufferSize) => p.(a := Joined(p.a, bufferSize), joined := p.joined + [|p.announced|])
    case Unsubscribes(id) => p.(a := Left(p.a, id))
    case Pins(v, waiting) => p.(a := PinnedAt(p.a, v, waiting))
    case Unpins(waiting) => p.(a := Unpinned(p.a, waiting))
    case Receives(id) => p.(a := p.a.(channels := p.a.channels[id := Received(p.a.channels[id])]))
  }

  function Highest(announced: seq<int>): int {
    if announced == [] then 0 else
      var before, v := Highest(announced[..|announced| - 1]), announced[|announced| - 1];
      if v > before then v else before
  }

  lemma {:induction false} HighestBounds(announced: seq<int>)
    ensures Highest(announced) >= 0
    ensures forall v :: v in announced ==> v <= Highest(announced)
    ensures Highest(announced) == 0 || Highest(announced) in announced
  {
    if announced != [] {
      assert announced == announced[..|announced| - 1] + [announced[|announced| - 1]];
      HighestBounds(announced[..|announced| - 1]);
    }
  }

  /** Only announced versions are on the way. */
  ghost predicate OnlyAnnounced(p: Protocol) {
    && (forall v :: v in p.a.announceQueue ==> v in p.announced)
    && (forall v :: v in p.flying ==> v in p.announced)
    && (p.worker.Some? ==> p.worker.value in p.announced)
  }

  /** A version is with the subscriber, on its way, or its announcement failed. */
  predicate OnTheWay(p: Protocol, v: int) {
    v in p.a.announceQueue || p.worker == Some(v) || v in p.flying || v in p.failed
  }

  ghost predicate Covered(p: Protocol, id: nat)
    requires id < |p.a.channels| && |p.joined| == |p.a.channels| && p.joined[id] <= |p.announced|
  {
    p.a.latestVersion in p.announced[p.joined[id]..] ==>
      p.a.latestVersion in p.a.channels[id].log || OnTheWay(p, p.a.latestVersion)
  }

  predicate Sized(c: Channel) {
    c.taken <= |c.log| <= c.taken + c.capacity
  }

  ghost predicate Shaped(p: Protocol) {
    && Valid(p.a) && Distinct(p.a.subscribers)
    && |p.joined| == |p.a.channels| && (forall i :: 0 <= i < |p.joined| ==> p.joined[i] <= |p.announced|)
    && (forall i :: 0 <= i < |p.a.channels| ==> Sized(p.a.channels[i]))
    && |p.a.announceQueue| <= QUEUE_CAPACITY
  }

  ghost predicate Safe(p: Protocol) {
    && Shaped(p) && OnlyAnnounced(p)
    && p.a.latestVersion == Highest(p.announced)
    && (forall i :: 0 <= i < |p.a.subscribers| ==> Covered(p, p.a.subscribers[i]))
  }

  /** What a notification may do to the listed subscribers and their channels. */
  ghost predicate Spread(before: State, after: State, version: int) {
    && Valid(after) && |after.channels| == |before.channels| && Distinct(after.subscribers)
    && (forall id :: 0 <= id < |before.channels| ==>
          after.channels[id] == before.channels[id] || after.channels[id].log == before.channels[id].log + [version])
    && (forall id :: 0 <= id < |before.channels| && Sized(before.channels[id]) ==> Sized(after.channels[id]))
    && (forall id :: id in after.subscribers ==>
      id in before.subscribers && after.channels[id].log == before.channels[id].log + [version])
  }

  lemma NotifySpreads(s: State, version: int, waiting: set<nat>)
    requires Valid(s) && Distinct(s.subscribers)
    ensures Spread(s, NotifyAll(s, version, waiting), version)
  {
    RemovalIsFiltering(s.channels, s.subscribers, version, waiting);
    ReachedMembers(s.channels, s.subscribers, version, waiting);
    forall id: nat | id < |s.channels|
      ensures Notified(s.channels, s.subscribers, version, waiting)[id] ==
        if id in s.subscribers && HasRoom(s.channels[id], id, waiting) then Sent(s.channels[id], version)
          else s.channels[id]
    {
      NotifiedAt(s.channels, s.subscribers, version, waiting, id);
    }
    var after := NotifyAll(s, version, waiting);
    forall i | 0 <= i < |after.subscribers| ensures after.subscribers[i] < |after.channels| {
      assert after.subscribers[i] in s.subscribers;
    }
  }

  lemma DistinctCons(x: nat, s: seq<nat>)
    ensures Distinct([x] + s) <==> x !in s && Distinct(s)
  {
    var t := [x] + s;
    assert forall i :: 0 <= i < |s| ==> t[i + 1] == s[i];
    if x in s {
      var i :| 0 <= i < |s| && s[i] == x;
      assert t[0] == t[i + 1];
    }
  }

  lemma {:induction false} WithoutFirstMembers(s: seq<nat>, id: nat)
    requires Distinct(s)
    ensures Distinct(WithoutFirst(s, id))
    ensures forall x :: x in WithoutFirst(s, id) <==> x in s && x != id
  {
    if s != [] {
      assert s == [s[0]] + s[1..];
      DistinctCons(s[0], s[1..]);
      WithoutFirstMembers(s[1..], id);
      DistinctCons(s[0], WithoutFirst(s[1..], id));
    }
  }

  // ----- every event keeps it -----

  lemma CoveredKept(p: Protocol, q: Protocol, id: nat)
    requires Shaped(p) && id < |p.a.channels| && Covered(p, id)
    requires id < |q.a.channels| && |q.joined| == |q.a.channels| && q.joined[id] == p.joined[id]
    requires q.announced == p.announced
    requires q.a.latestVersion == p.a.latestVersion
    requires forall v :: v in p.a.channels[id].log ==> v in q.a.channels[id].log
    requires OnTheWay(p, p.a.latestVersion) ==>
      OnTheWay(q, p.a.latestVersion) || p.a.latestVersion in q.a.channels[id].log
    ensures Covered(q, id)
  {
  }

  lemma SafeByAnnounce(p: Protocol, v: int)
    requires Safe(p)
    ensures Safe(Step(p, AnnounceLocks(v)))
  {
    var q := Step(p, AnnounceLocks(v));
    HighestBounds(p.announced);
    assert q.announced[..|q.announced| - 1] == p.announced;
    forall i | 0 <= i < |q.a.subscribers| ensures Covered(q, q.a.subscribers[i]) {
      var id := p.a.subscribers[i];
      assert Covered(p, id);
      assert q.announced[q.joined[id]..] == p.announced[p.joined[id]..] + [v];
    }
  }

  lemma SafeByEnqueue(p: Protocol, v: int)
    requires Safe(p) && Enabled(p, Enqueues(v))
    ensures Safe(Step(p, Enqueues(v)))
  {
    var q := Step(p, Enqueues(v));
    forall i | 0 <= i < |q.a.subscribers| ensures Covered(q, q.a.subscribers[i]) {
      CoveredKept(p, q, p.a.subscribers[i]);
    }
  }

  lemma SafeByGivingUp(p: Protocol, v: int)
    requires Safe(p) && Enabled(p, GivesUp(v))
    ensures Safe(Step(p, GivesUp(v)))
  {
    var q := Step(p, GivesUp(v));
    forall i | 0 <= i < |q.a.subscribers| ensures Covered(q, q.a.subscribers[i]) {
      CoveredKept(p, q, p.a.subscribers[i]);
    }
  }

  lemma QueuedAnnounced(p: Protocol, v: int)
    requires OnlyAnnounced(p) && v in p.a.announceQueue
    ensures v in p.announced
  {
  }

  lemma SafeByTaking(p: Protocol)
    requires Safe(p) && Enabled(p, WorkerTakes)
    ensures Safe(Step(p, WorkerTakes))
  {
    var q := Step(p, WorkerTakes);
    assert p.a.announceQueue == [p.a.announceQueue[0]] + q.a.announceQueue;
    QueuedAnnounced(p, p.a.announceQueue[0]);
    forall i | 0 <= i < |q.a.subscribers| ensures Covered(q, q.a.subscribers[i]) {
      CoveredKept(p, q, p.a.subscribers[i]);
    }
  }

  lemma SpreadCovers(p: Protocol, q: Protocol, version: int, id: nat)
    requires Shaped(p) && Spread(p.a, q.a, version) && id in q.a.subscribers && id < |p.a.channels| && Covered(p, id)
    requires q.joined == p.joined && q.announced == p.announced && q.a.latestVersion == p.a.latestVersion
    requires OnTheWay(p, p.a.latestVersion) && p.a.latestVersion != version ==> OnTheWay(q, p.a.latestVersion)
    ensures Covered(q, id)
  {
    CoveredKept(p, q, id);
  }

  lemma SafeBySpread(p: Protocol, q: Protocol, version: int)
    requires Safe(p) && Spread(p.a, q.a, version) && OnlyAnnounced(q)
    requires q.joined == p.joined && q.announced == p.announced && q.a.latestVersion == p.a.latestVersion
    requires |q.a.announceQueue| <= QUEUE_CAPACITY
    requires OnTheWay(p, p.a.latestVersion) && p.a.latestVersion != version ==> OnTheWay(q, p.a.latestVersion)
    ensures Safe(q)
  {
    forall i | 0 <= i < |q.a.subscribers| ensures Covered(q, q.a.subscribers[i]) {
      var id := q.a.subscribers[i];
      assert id in p.a.subscribers;
      var k :| 0 <= k < |p.a.subscribers| && p.a.subscribers[k] == id;
      SpreadCovers(p, q, version, id);
    }
  }

  lemma SafeByProcessing(p: Protocol, waiting: set<nat>)
    requires Safe(p) && p.worker.Some?
    ensures Safe(Step(p, WorkerProcesses(waiting)))
  {
    var q, v := Step(p, WorkerProcesses(waiting)), p.worker.value;
    HighestBounds(p.announced);
    if v >= p.a.latestVersion {
      NotifySpreads(p.a, v, waiting);
      SafeBySpread(p, q, v);
    } else {
      forall i | 0 <= i < |q.a.subscribers| ensures Covered(q, q.a.subscribers[i]) {
        CoveredKept(p, q, p.a.subscribers[i]);
      }
    }
  }

  lemma SafeByPinning(p: Protocol, e: Event)
    requires Safe(p) && (e.Pins? || e.Unpins?)
    ensures Safe(Step(p, e))
  {
    match e
    case Pins(v, waiting) =>
      NotifySpreads(p.a.(isPinned := true, pinnedVersion := v), v, waiting);
      SafeBySpread(p, Step(p, e), v);
    case Unpins(waiting) =>
      NotifySpreads(p.a.(isPinned := false, pinnedVersion := 0), p.a.latestVersion, waiting);
      SafeBySpread(p, Step(p, e), p.a.latestVersion);
  }

  lemma SafeBySubscribing(p: Protocol, bufferSize: nat)
    requires Safe(p)
    ensures Safe(Step(p, Subscribes(bufferSize)))
  {
    var q := Step(p, Subscribes(bufferSize));
    forall i | 0 <= i < |q.a.subscribers| ensures Covered(q, q.a.subscribers[i]) {
      if i < |p.a.subscribers| {
        CoveredKept(p, q, p.a.subscribers[i]);
      } else {
        assert q.announced[q.joined[q.a.subscribers[i]]..] == [];
      }
    }
  }

  lemma SafeByUnsubscribing(p: Protocol, id: nat)
    requires Safe(p)
    ensures Safe(Step(p, Unsubscribes(id)))
  {
    var q := Step(p, Unsubscribes(id));
    WithoutFirstMembers(p.a.subscribers, id);
    forall i | 0 <= i < |q.a.subscribers|
      ensures q.a.subscribers[i] < |q.a.channels| && Covered(q, q.a.subscribers[i])
    {
      assert q.a.subscribers[i] in p.a.subscribers;
      var k :| 0 <= k < |p.a.subscribers| && p.a.subscribers[k] == q.a.subscribers[i];
      CoveredKept(p, q, p.a.subscribers[k]);
    }
  }

  lemma SafeByReceiving(p: Protocol, id: nat)
    requires Safe(p) && Enabled(p, Receives(id))
    ensures Safe(Step(p, Receives(id)))
  {
    var q := Step(p, Receives(id));
    forall i | 0 <= i < |q.a.subscribers| ensures Covered(q, q.a.subscribers[i]) {
      CoveredKept(p, q, p.a.subscribers[i]);
    }
  }

  lemma SafeKept(p: Protocol, e: Event)
    requires Safe(p) && Enabled(p, e)
    ensures Safe(Step(p, e))
  {
    match e
    case AnnounceLocks(v) => SafeByAnnounce(p, v);
    case Enqueues(v) => SafeByEnqueue(p, v);
    case GivesUp(v) => SafeByGivingUp(p, v);
    case WorkerTakes => SafeByTaking(p);
    case WorkerProcesses(waiting) => SafeByProcessing(p, waiting);
    case Subscribes(bufferSize) => SafeBySubscribing(p, bufferSize);
    case Unsubscribes(id) => SafeByUnsubscribing(p, id);
    case Pins(_, _) => SafeByPinning(p, e);
    case Unpins(_) => SafeByPinning(p, e);
    case Receives(id) => SafeByReceiving(p, id);
  }

  /** A receive makes room for one more version and changes nothing else. */
  lemma ReceivingFrees(p: Protocol, id: nat, waiting: set<nat>)
    requires Safe(p) && Enabled(p, Receives(id)) && p.a.channels[id].capacity > 0
    ensures var q := Step(p, Receives(id));
      && HasRoom(q.a.channels[id], id, waiting) && q.a.channels[id].log == p.a.channels[id].log
      && q.a.subscribers == p.a.subscribers
      && (forall k :: 0 <= k < |p.a.channels| && k != id ==> q.a.channels[k] == p.a.channels[k])
  {
    assert Sized(p.a.channels[id]);
  }

  // ----- whole runs -----

  /** The state `end` follows from `INITIAL` by the events, each enabled in its turn. */
  ghost predicate Reaches(events: seq<Event>, end: Protocol) {
    if events == [] then end == INITIAL else
      var e := events[|events| - 1];
      exists p: Protocol :: Reaches(events[..|events| - 1], p) && Valid(p.a) && Enabled(p, e) && end == Step(p, e)
  }

  /**
   Safety of the announcer.  After any interleaving the latest version is the
   highest announced one (or 0), only announced versions are on the way, no buffer
   or queue overflows, and for every listed subscriber for whom that version was
   announced after it joined, the version has reached its channel, is on the way, or
   its Announce returned an error.
   */
  lemma {:induction false} RunSafe(events: seq<Event>, end: Protocol)
    requires Reaches(events, end)
    ensures Safe(end)
  {
    if events != [] {
      var front, e := events[..|events| - 1], events[|events| - 1];
      var p: Protocol :| Reaches(front, p) && Valid(p.a) && Enabled(p, e) && end == Step(p, e);
      RunSafe(front, p);
      SafeKept(p, e);
    }
  }

  /** Nothing is on its way. */
  predicate Quiet(p: Protocol) {
    p.a.announceQueue == [] && p.worker == None && p.flying == multiset{}
  }

  /**
   Once everything has settled and no Announce of the highest version has failed, each
   listed subscriber for whom it was announced after it joined has been sent it.
   */
  lemma QuietDelivered(events: seq<Event>, end: Protocol, id: nat)
    requires Reaches(events, end) && Quiet(end) && id in end.a.subscribers
    requires Highest(end.announced) !in end.failed
    ensures id < |end.a.channels| && id < |end.joined| && end.joined[id] <= |end.announced|
    ensures Highest(end.announced) in end.announced[end.joined[id]..] ==>
      Highest(end.announced) in end.a.channels[id].log
  {
    RunSafe(events, end);
    var i :| 0 <= i < |end.a.subscribers| && end.a.subscribers[i] == id;
    assert Covered(end, id);
  }

  // ----- order of delivery -----

  predicate Rising(log: seq<int>) {
    forall i, j :: 0 <= i < j < |log| ==> log[i] <= log[j]
  }

  ghost predicate AllRising(s: State) {
    forall id :: 0 <= id < |s.channels| ==>
      (Rising(s.channels[id].log) && forall v :: v in s.channels[id].log ==> v <= s.latestVersion)
  }

  lemma SpreadRises(before: State, after: State, version: int)
    requires AllRising(before) && Spread(before, after, version)
    requires before.latestVersion <= version == after.latestVersion
    ensures AllRising(after)
  {
    forall id | 0 <= id < |after.channels|
      ensures Rising(after.channels[id].log) && forall v :: v in after.channels[id].log ==> v <= after.latestVersion
    {
      assert Rising(before.channels[id].log);
      assert forall k :: 0 <= k < |before.channels[id].log| ==> before.channels[id].log[k] in before.channels[id].log;
    }
  }

  lemma RisingKept(p: Protocol, e: Event)
    requires Shaped(p) && Enabled(p, e) && !e.Pins? && !e.Unpins? && AllRising(p.a)
    ensures AllRising(Step(p, e).a)
  {
    if e.WorkerProcesses? && p.worker.value >= p.a.latestVersion {
      NotifySpreads(p.a.(latestVersion := p.worker.value), p.worker.value, e.waiting);
      SpreadRises(p.a, Step(p, e).a, p.worker.value);
    }
  }

  predicate NeverPins(events: seq<Event>) {
    forall i :: 0 <= i < |events| ==> !events[i].Pins? && !events[i].Unpins?
  }

  /** Without pinning, no subscriber ever sees the version go back. */
  lemma {:induction false} RunRises(events: seq<Event>, end: Protocol)
    requires Reaches(events, end) && NeverPins(events)
    ensures AllRising(end.a)
  {
    if events != [] {
      var front, e := events[..|events| - 1], events[|events| - 1];
      var p: Protocol :| Reaches(front, p) && Valid(p.a) && Enabled(p, e) && end == Step(p, e);
      RunRises(front, p);
      RunSafe(front, p);
      RisingKept(p, e);
    }
  }

  lemma RisingSnoc(log: seq<int>, v: int)
    requires Rising(log)
    ensures Rising(log + [v]) <==> log == [] || log[|log| - 1] <= v
  {
    var longer := log + [v];
    if log != [] {
      assert longer[|log| - 1] == log[|log| - 1] && longer[|log|] == v;
      assert forall i :: 0 <= i < |log| ==> log[i] <= log[|log| - 1];
    }
  }

  ghost predicate LogsRise(s: State) {
    forall id :: 0 <= id < |s.channels| ==> Rising(s.channels[id].log)
  }

  /** The version an event offers to the listed subscribers, if it offers one. */
  function Offers(p: Protocol, e: Event): Option<int> {
    match e
    case Pins(v, _) => Some(v)
    case Unpins(_) => Some(p.a.latestVersion)
    case WorkerProcesses(_) =>
      if p.worker.Some? && p.worker.value >= p.a.latestVersion then Some(p.worker.value) else None
    case _ => None
  }

  function WaitingIn(e: Event): set<nat> {
    match e
    case Pins(_, waiting) => waiting
    case Unpins(waiting) => waiting
    case WorkerProcesses(waiting) => waiting
    case _ => {}
  }

  predicate OrderlyAt(s: State, id: nat, version: int, waiting: set<nat>)
    requires id < |s.channels|
  {
    var log := s.channels[id].log;
    HasRoom(s.channels[id], id, waiting) ==> log == [] || log[|log| - 1] <= version
  }

  /** No listed subscriber that the event reaches has been sent a higher version before. */
  predicate Orderly(p: Protocol, e: Event)
    requires Valid(p.a)
  {
    Offers(p, e).Some? ==>
      forall i :: 0 <= i < |p.a.subscribers| ==> OrderlyAt(p.a, p.a.subscribers[i], Offers(p, e).value, WaitingIn(e))
  }

  lemma NotifyOrder(s: State, version: int, waiting: set<nat>)
    requires Valid(s) && Distinct(s.subscribers) && LogsRise(s)
    ensures LogsRise(NotifyAll(s, version, waiting)) <==>
      forall i :: 0 <= i < |s.subscribers| ==> OrderlyAt(s, s.subscribers[i], version, waiting)
  {
    var after := Notified(s.channels, s.subscribers, version, waiting);
    forall id: nat | id < |s.channels|
      ensures Rising(after[id].log) <==> (id in s.subscribers ==> OrderlyAt(s, id, version, waiting))
    {
      NotifiedAt(s.channels, s.subscribers, version, waiting, id);
      RisingSnoc(s.channels[id].log, version);
    }
    if LogsRise(NotifyAll(s, version, waiting)) {
      forall i | 0 <= i < |s.subscribers| ensures OrderlyAt(s, s.subscribers[i], version, waiting) {
        assert Rising(after[s.subscribers[i]].log);
      }
    }
  }

  lemma QuietStep(p: Protocol, e: Event)
    requires Shaped(p) && Enabled(p, e) && !e.Pins? && !e.Unpins? && !e.WorkerProcesses?
    ensures LogsRise(p.a) ==> LogsRise(Step(p, e).a)
    ensures |p.a.channels| <= |Step(p, e).a.channels|
    ensures forall id :: 0 <= id < |p.a.channels| ==> Step(p, e).a.channels[id].log == p.a.channels[id].log
  {
  }

  /** One step keeps every subscriber's versions in order exactly when it is orderly, whatever kind of step it is. */
  lemma OrderKept(p: Protocol, e: Event)
    requires Shaped(p) && Enabled(p, e) && LogsRise(p.a)
    ensures LogsRise(Step(p, e).a) <==> Orderly(p, e)
  {
    match e
    case Pins(v, waiting) => NotifyOrder(p.a.(isPinned := true, pinnedVersion := v), v, waiting);
    case Unpins(waiting) => NotifyOrder(p.a.(isPinned := false, pinnedVersion := 0), p.a.latestVersion, waiting);
    case WorkerProcesses(waiting) =>
      if p.worker.value >= p.a.latestVersion {
        NotifyOrder(p.a.(latestVersion := p.worker.value), p.worker.value, waiting);
      }
    case _ => QuietStep(p, e);
  }

  lemma RisingPrefix(log: seq<int>, longer: seq<int>)
    requires log <= longer && Rising(longer)
    ensures Rising(log)
  {
    assert forall i :: 0 <= i < |log| ==> log[i] == longer[i];
  }

  lemma LogsGrow(p: Protocol, e: Event)
    requires Shaped(p) && Enabled(p, e)
    ensures |p.a.channels| <= |Step(p, e).a.channels|
    ensures forall id :: 0 <= id < |p.a.channels| ==> p.a.channels[id].log <= Step(p, e).a.channels[id].log
  {
    match e
    case Pins(v, waiting) => NotifySpreads(p.a.(isPinned := true, pinnedVersion := v), v, waiting);
    case Unpins(waiting) => NotifySpreads(p.a.(isPinned := false, pinnedVersion := 0), p.a.latestVersion, waiting);
    case WorkerProcesses(waiting) =>
      if p.worker.value >= p.a.latestVersion {
        NotifySpreads(p.a.(latestVersion := p.worker.value), p.worker.value, waiting);
      }
    case _ => QuietStep(p, e);
  }

  /** Logs only grow, so an order once lost stays lost. */
  lemma OrderStaysLost(p: Protocol, e: Event)
    requires Shaped(p) && Enabled(p, e) && LogsRise(Step(p, e).a)
    ensures LogsRise(p.a)
  {
    var q := Step(p, e);
    LogsGrow(p, e);
    forall id | 0 <= id < |p.a.channels| ensures Rising(p.a.channels[id].log) {
      RisingPrefix(p.a.channels[id].log, q.a.channels[id].log);
    }
  }

  /** Like `Reaches`, with every step orderly. */
  ghost predicate ReachesInOrder(events: seq<Event>, end: Protocol) {
    if events == [] then end == INITIAL else
      var e := events[|events| - 1];
      exists p: Protocol ::
        ReachesInOrder(events[..|events| - 1], p) && Valid(p.a) && Enabled(p, e) && Orderly(p, e) && end == Step(p, e)
  }

  lemma {:induction false} InOrderReaches(events: seq<Event>, end: Protocol)
    requires ReachesInOrder(events, end)
    ensures Reaches(events, end)
  {
    if events != [] {
      var front, e := events[..|events| - 1], events[|events| - 1];
      var p: Protocol :|
        ReachesInOrder(front, p) && Valid(p.a) && Enabled(p, e) && Orderly(p, e) && end == Step(p, e);
      InOrderReaches(front, p);
    }
  }

  /** Over any run, pins and all: every subscriber's versions never go back if and only if every step was orderly. */
  lemma {:induction false} RunOrder(events: seq<Event>, end: Protocol)
    requires Reaches(events, end)
    ensures LogsRise(end.a) <==> ReachesInOrder(events, end)
  {
    if events != [] {
      var front, e := events[..|events| - 1], events[|events| - 1];
      if LogsRise(end.a) {
        var p: Protocol :| Reaches(front, p) && Valid(p.a) && Enabled(p, e) && end == Step(p, e);
        RunSafe(front, p);
        OrderStaysLost(p, e);
        RunOrder(front, p);
        OrderKept(p, e);
      }
      if ReachesInOrder(events, end) {
        var p: Protocol :|
          ReachesInOrder(front, p) && Valid(p.a) && Enabled(p, e) && Orderly(p, e) && end == Step(p, e);
        InOrderReaches(front, p);
        RunSafe(front, p);
        RunOrder(front, p);
        OrderKept(p, e);
      }
    }
  }

  // ----- who stays listed -----

  /** The step does not end the subscription, and what it offers finds room. */
  predicate KeepsListed(p: Protocol, e: Event, id: nat) {
    id < |p.a.channels| ==>
      e != Unsubscribes(id) && (Offers(p, e).Some? ==> HasRoom(p.a.channels[id], id, WaitingIn(e)))
  }

  /** After any step a subscriber made before it is listed exactly if it was and the step keeps it. */
  lemma ListedAfter(p: Protocol, e: Event, id: nat)
    requires Shaped(p) && Enabled(p, e) && id < |p.a.channels|
    ensures id in Step(p, e).a.subscribers <==> id in p.a.subscribers && KeepsListed(p, e, id)
  {
    match e
    case Pins(v, waiting) => NotifyReaches(p.a.(isPinned := true, pinnedVersion := v), v, waiting, id);
    case Unpins(waiting) =>
      NotifyReaches(p.a.(isPinned := false, pinnedVersion := 0), p.a.latestVersion, waiting, id);
    case WorkerProcesses(waiting) =>
      if p.worker.value >= p.a.latestVersion {
        NotifyReaches(p.a.(latestVersion := p.worker.value), p.worker.value, waiting, id);
      }
    case Unsubscribes(x) => WithoutFirstMembers(p.a.subscribers, x);
    case _ =>
  }

  /** Like `Reaches`, with every step keeping the subscriber. */
  ghost predicate ReachesKeeping(events: seq<Event>, end: Protocol, id: nat) {
    if events == [] then end == INITIAL else
      var e := events[|events| - 1];
      exists p: Protocol ::
        ReachesKeeping(events[..|events| - 1], p, id) && Valid(p.a) && Enabled(p, e) && KeepsListed(p, e, id) &&
        end == Step(p, e)
  }

  lemma {:induction false} KeepingReaches(events: seq<Event>, end: Protocol, id: nat)
    requires ReachesKeeping(events, end, id)
    ensures Reaches(events, end)
  {
    if events != [] {
      var front, e := events[..|events| - 1], events[|events| - 1];
      var p: Protocol :|
        ReachesKeeping(front, p, id) && Valid(p.a) && Enabled(p, e) && KeepsListed(p, e, id) && end == Step(p, e);
      KeepingReaches(front, p, id);
    }
  }

  /** Before it is made, a channel has nothing to lose. */
  lemma {:induction false} NotYetMade(events: seq<Event>, end: Protocol, id: nat)
    requires Reaches(events, end) && id >= |end.a.channels|
    ensures ReachesKeeping(events, end, id)
  {
    if events != [] {
      var front, e := events[..|events| - 1], events[|events| - 1];
      var p: Protocol :| Reaches(front, p) && Valid(p.a) && Enabled(p, e) && end == Step(p, e);
      RunSafe(front, p);
      LogsGrow(p, e);
      NotYetMade(front, p, id);
    }
  }

  lemma ListedWhenMade(p: Protocol, e: Event, id: nat)
    requires Shaped(p) && Enabled(p, e) && |p.a.channels| <= id < |Step(p, e).a.channels|
    ensures e.Subscribes? && id == |p.a.channels| && id in Step(p, e).a.subscribers
  {
    if e.Subscribes? { assert Step(p, e).a.subscribers[|p.a.subscribers|] == |p.a.channels|; }
  }

  /**
   Over any run a subscriber is listed if and only if nobody has unsubscribed it and
   every version offered since it joined has found room in its channel.
   */
  lemma {:induction false} RunListed(events: seq<Event>, end: Protocol, id: nat)
    requires Reaches(events, end) && id < |end.a.channels|
    ensures id in end.a.subscribers <==> ReachesKeeping(events, end, id)
  {
    var front, e := events[..|events| - 1], events[|events| - 1];
    if id in end.a.subscribers {
      var p: Protocol :| Reaches(front, p) && Valid(p.a) && Enabled(p, e) && end == Step(p, e);
      RunSafe(front, p);
      if id < |p.a.channels| {
        ListedAfter(p, e, id);
        RunListed(front, p, id);
      } else {
        NotYetMade(front, p, id);
      }
    }
    if ReachesKeeping(events, end, id) {
      var p: Protocol :|
        ReachesKeeping(front, p, id) && Valid(p.a) && Enabled(p, e) && KeepsListed(p, e, id) && end == Step(p, e);
      KeepingReaches(front, p, id);
      RunSafe(front, p);
      if id < |p.a.channels| {
        RunListed(front, p, id);
        ListedAfter(p, e, id);
      } else {
        ListedWhenMade(p, e, id);
      }
    }
  }

  /** A subscriber that always had room and never left has been sent the highest version once everything has settled. */
  lemma RoomyDelivered(events: seq<Event>, end: Protocol, id: nat)
    requires ReachesKeeping(events, end, id) && Quiet(end) && id < |end.a.channels|
    requires Highest(end.announced) !in end.failed
    ensures id in end.a.subscribers && id < |end.joined| && end.joined[id] <= |end.announced|
    ensures Highest(end.announced) in end.announced[end.joined[id]..] ==>
      Highest(end.announced) in end.a.channels[id].log
  {
    KeepingReaches(events, end, id);
    RunListed(events, end, id);
    QuietDelivered(events, end, id);
  }

  function OfferedNow(p: Protocol, e: Event, id: nat): seq<int> {
    if id < |p.a.channels| && Offers(p, e).Some? then [Offers(p, e).value] else []
  }

  /** Like `Reaches`, with the versions offered since channel `id` was made. */
  ghost predicate ReachesOffering(events: seq<Event>, end: Protocol, id: nat, offers: seq<int>) {
    if events == [] then end == INITIAL && offers == [] else
      var e := events[|events| - 1];
      exists p: Protocol, before: seq<int> ::
        ReachesOffering(events[..|events| - 1], p, id, before) && Valid(p.a) && Enabled(p, e) && end == Step(p, e) &&
        offers == before + OfferedNow(p, e, id)
  }

  lemma {:induction false} OfferingReaches(events: seq<Event>, end: Protocol, id: nat, offers: seq<int>)
    requires ReachesOffering(events, end, id, offers)
    ensures Reaches(events, end) && (id >= |end.a.channels| ==> offers == [])
  {
    if events != [] {
      var front, e := events[..|events| - 1], events[|events| - 1];
      var p: Protocol, before: seq<int> :|
        ReachesOffering(front, p, id, before) && Valid(p.a) && Enabled(p, e) && end == Step(p, e) &&
        offers == before + OfferedNow(p, e, id);
      OfferingReaches(front, p, id, before);
      RunSafe(front, p);
      LogsGrow(p, e);
    }
  }

  lemma LogAfter(p: Protocol, e: Event, id: nat)
    requires Shaped(p) && Enabled(p, e) && id in Step(p, e).a.subscribers && id < |p.a.channels|
    ensures id in p.a.subscribers
    ensures Step(p, e).a.channels[id].log == p.a.channels[id].log + OfferedNow(p, e, id)
  {
    ListedAfter(p, e, id);
    match e
    case Pins(v, waiting) => NotifyReaches(p.a.(isPinned := true, pinnedVersion := v), v, waiting, id);
    case Unpins(waiting) =>
      NotifyReaches(p.a.(isPinned := false, pinnedVersion := 0), p.a.latestVersion, waiting, id);
    case WorkerProcesses(waiting) =>
      if p.worker.value >= p.a.latestVersion {
        NotifyReaches(p.a.(latestVersion := p.worker.value), p.worker.value, waiting, id);
      }
    case _ => QuietStep(p, e);
  }

  /** Over any run a listed subscriber has been sent exactly what was offered since it joined, in that order. */
  lemma {:induction false} ListedGetsAll(events: seq<Event>, end: Protocol, id: nat, offers: seq<int>)
    requires ReachesOffering(events, end, id, offers) && id in end.a.subscribers
    ensures id < |end.a.channels| && end.a.channels[id].log == offers
  {
    OfferingReaches(events, end, id, offers);
    RunSafe(events, end);
    var i :| 0 <= i < |end.a.subscribers| && end.a.subscribers[i] == id;
    var front, e := events[..|events| - 1], events[|events| - 1];
    var p: Protocol, before: seq<int> :|
      ReachesOffering(front, p, id, before) && Valid(p.a) && Enabled(p, e) && end == Step(p, e) &&
      offers == before + OfferedNow(p, e, id);
    OfferingReaches(front, p, id, before);
    RunSafe(front, p);
    if id < |p.a.channels| {
      LogAfter(p, e, id);
      ListedGetsAll(front, p, id, before);
    } else {
      ListedWhenMade(p, e, id);
    }
  }

  /** The version pinned last and not released since. */
  function LastPin(events: seq<Event>): Option<int> {
    if events == [] then None else
      match events[|events| - 1]
      case Pins(v, _) => Some(v)
      case Unpins(_) => None
      case _ => LastPin(events[..|events| - 1])
  }

  /** What a reader of the latest version sees: the pin while there is one, the highest announced version otherwise. */
  lemma {:induction false} RunReading(events: seq<Event>, end: Protocol)
    requires Reaches(events, end)
    ensures end.a.isPinned == LastPin(events).Some?
    ensures Reading(end.a) == LastPin(events).GetOr(Highest(end.announced))
  {
    RunSafe(events, end);
    if events != [] {
      var front, e := events[..|events| - 1], events[|events| - 1];
      var p: Protocol :| Reaches(front, p) && Valid(p.a) && Enabled(p, e) && end == Step(p, e);
      RunReading(front, p);
    }
  }
}
