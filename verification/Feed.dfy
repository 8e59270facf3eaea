/** The in-memory feed: versions go out under one lock, and a full channel is skipped, not removed. */
module Feed {
  import opened Basics
  import opened Announcer
  import P = AnnouncerProtocol

  datatype FeedState = FeedState(
    latestVersion: int,
    pinnedVersion: int,
    isPinned: bool,
    subs: set<nat>,
    channels: seq<Channel>)

  predicate Listed(s: FeedState) {
    forall id :: id in s.subs ==> id < |s.channels|
  }

  function OfferedOne(c: Channel, id: nat, subs: set<nat>, version: int, waiting: set<nat>): Channel {
    if id in subs && Accepts(c, id, waiting) then Sent(c, version) else c
  }

  /** The channels after each subscription among `subs` has been offered the version. */
  function Offered(channels: seq<Channel>, subs: set<nat>, version: int, waiting: set<nat>): (r: seq<Channel>)
    ensures |r| == |channels|
    ensures forall id :: 0 <= id < |channels| ==> r[id] == OfferedOne(channels[id], id, subs, version, waiting)
  {
    seq(|channels|, id requires 0 <= id < |channels| => OfferedOne(channels[id], id, subs, version, waiting))
  }

  function AnnouncedIn(s: FeedState, version: int, waiting: set<nat>): FeedState {
    if version > s.latestVersion then
      s.(latestVersion := version, channels := Offered(s.channels, s.subs, version, waiting))
    else s
  }

  function FeedReading(s: FeedState): int {
    if s.isPinned then s.pinnedVersion else s.latestVersion
  }

  lemma OfferedNext(channels: seq<Channel>, ids: seq<nat>, i: nat, version: int, waiting: set<nat>)
    requires i < |ids| && ids[i] < |channels| && Distinct(ids)
    ensures var now := Offered(channels, Members(ids[..i]), version, waiting);
      Offered(channels, Members(ids[..i + 1]), version, waiting) ==
        now[ids[i] := OfferedOne(now[ids[i]], ids[i], {ids[i]}, version, waiting)]
  {
    assert Members(ids[..i + 1]) == Members(ids[..i]) + {ids[i]};
    assert ids[i] !in Members(ids[..i]);
  }

  class InMemoryFeed {
    var latestVersion: int
    var pinnedVersion: int
    var isPinned: bool
    var subs: set<nat>
    var channels: seq<Channel>

    ghost function Model(): FeedState
      reads this
    {
      FeedState(latestVersion, pinnedVersion, isPinned, subs, channels)
    }

    constructor ()
      ensures Model() == FeedState(0, 0, false, {}, [])
    {
      latestVersion, pinnedVersion, isPinned := 0, 0, false;
      subs, channels := {}, [];
    }

    method Offer(id: nat, version: int, waiting: set<nat>)
      requires id < |channels|
      modifies this`channels
      ensures channels == old(channels)[id := OfferedOne(old(channels[id]), id, {id}, version, waiting)]
    {
      var c := channels[id];
      if if c.capacity == 0 then id in waiting else |c.log| < c.taken + c.capacity {
        channels := channels[id := Sent(c, version)];
      }
    }

    method OfferAll(version: int, waiting: set<nat>)
      requires Listed(Model())
      modifies this`channels
      ensures channels == Offered(old(channels), subs, version, waiting)
    {
      var ids := InSomeOrder(subs);
      assert Offered(channels, {}, version, waiting) == channels;
      for i := 0 to |ids|
        invariant |channels| == |old(channels)|
        invariant channels == Offered(old(channels), Members(ids[..i]), version, waiting)
      {
        assert ids[i] in subs;
        OfferedNext(old(channels), ids, i, version, waiting);
        Offer(ids[i], version, waiting);
      }
      assert ids[..|ids|] == ids;
      assert Members(ids) == subs;
    }

    method Announce(version: int, waiting: set<nat>)
      requires Listed(Model())
      modifies this`latestVersion, this`channels
      ensures Model() == AnnouncedIn(old(Model()), version, waiting)
    {
      if version > latestVersion {
        latestVersion := version;
        OfferAll(version, waiting);
      }
    }

    method Latest() returns (version: int)
      ensures version == FeedReading(Model())
    {
      if isPinned { return pinnedVersion; }
      return latestVersion;
    }

    method Pin(version: int)
      modifies this`isPinned, this`pinnedVersion
      ensures Model() == old(Model()).(isPinned := true, pinnedVersion := version)
    {
      isPinned := true;
      pinnedVersion := version;
    }

    method Unpin()
      modifies this`isPinned, this`pinnedVersion
      ensures Model() == old(Model()).(isPinned := false, pinnedVersion := 0)
    {
      isPinned := false;
      pinnedVersion := 0;
    }

    method Subscribe(bufferSize: nat) returns (id: nat)
      modifies this`subs, this`channels
      ensures id == |old(channels)|
      ensures Model() ==
        old(Model()).(subs := old(subs) + {id}, channels := old(channels) + [Channel(bufferSize, [], 0)])
    {
      id := |channels|;
      channels := channels + [Channel(bufferSize, [], 0)];
      subs := subs + {id};
    }

    /** Closing a subscription. */
    method Remove(id: nat)
      modifies this`subs
      ensures Model() == old(Model()).(subs := old(subs) - {id})
    {
      subs := subs - {id};
    }
  }

  /**
   One announcement.  Only a higher version goes out; a listed channel with room gets
   exactly that version; one without room is skipped and stays listed; nobody else is
   touched.
   */
  lemma AnnounceReaches(s: FeedState, version: int, waiting: set<nat>, id: nat)
    requires id < |s.channels|
    ensures var after := AnnouncedIn(s, version, waiting);
      && |after.channels| == |s.channels| && after.subs == s.subs
      && after.latestVersion == (if version > s.latestVersion then version else s.latestVersion)
      && (version > s.latestVersion && id in s.subs && HasRoom(s.channels[id], id, waiting) ==>
            after.channels[id].log == s.channels[id].log + [version])
      && (version <= s.latestVersion || id !in s.subs || !HasRoom(s.channels[id], id, waiting) ==>
            after.channels[id] == s.channels[id])
  {
  }

  // ----- runs -----

  /** The feed with its history: versions announced, and per channel when it joined and how often it was skipped. */
  datatype Protocol = Protocol(f: FeedState, announced: seq<int>, joined: seq<nat>, skipped: seq<nat>)

  datatype Event =
    | Announces(version: int, waiting: set<nat>)
    | Subscribes(bufferSize: nat)
    | Closes(id: nat)
    | Pins(version: int)
    | Unpins
    | Receives(id: nat)

  const INITIAL := Protocol(FeedState(0, 0, false, {}, []), [], [], [])

  predicate SkippedNow(p: Protocol, version: int, waiting: set<nat>, id: nat)
    requires id < |p.f.channels|
  {
    version > p.f.latestVersion && id in p.f.subs && !HasRoom(p.f.channels[id], id, waiting)
  }

  function Skips(p: Protocol, version: int, waiting: set<nat>): (r: seq<nat>)
    requires |p.skipped| == |p.f.channels|
    ensures |r| == |p.skipped|
    ensures forall id :: 0 <= id < |r| ==>
      r[id] == p.skipped[id] + (if SkippedNow(p, version, waiting, id) then 1 else 0)
  {
    seq(|p.skipped|, id requires 0 <= id < |p.skipped| =>
      p.skipped[id] + if SkippedNow(p, version, waiting, id) then 1 else 0)
  }

  predicate Shaped(p: Protocol) {
    && Listed(p.f) && |p.joined| == |p.f.channels| == |p.skipped|
    && (forall id :: 0 <= id < |p.joined| ==> p.joined[id] <= |p.announced|)
  }

  predicate Enabled(p: Protocol, e: Event) {
    e.Receives? ==> e.id < |p.f.channels| && p.f.channels[e.id].taken < |p.f.channels[e.id].log|
  }

  function Step(p: Protocol, e: Event): Protocol
    requires Shaped(p) && Enabled(p, e)
  {
    match e
    case Announces(v, waiting) =>
      p.(f := AnnouncedIn(p.f, v, waiting), announced := p.announced + [v], skipped := Skips(p, v, waiting))
    case Subscribes(bufferSize) =>
      p.(f := p.f.(subs := p.f.subs + {|p.f.channels|}, channels := p.f.channels + [Channel(bufferSize, [], 0)]),
         joined := p.joined + [|p.announced|], skipped := p.skipped + [0])
    case Closes(id) => p.(f := p.f.(subs := p.f.subs - {id}))
    case Pins(v) => p.(f := p.f.(isPinned := true, pinnedVersion := v))
    case Unpins => p.(f := p.f.(isPinned := false, pinnedVersion := 0))
    case Receives(id) => p.(f := p.f.(channels := p.f.channels[id := P.Received(p.f.channels[id])]))
  }

  /** The running maxima: the versions from position `from` on that beat everything before them. */
  function Records(announced: seq<int>, from: nat): seq<int> {
    if |announced| <= from then [] else
      var before, v := announced[..|announced| - 1], announced[|announced| - 1];
      Records(before, from) + if v > P.Highest(before) then [v] else []
  }

  predicate StrictlyRising(log: seq<int>) {
    forall i, j :: 0 <= i < j < |log| ==> log[i] < log[j]
  }

  /**
   What a channel holds: strictly rising records; and while it is listed, all of them
   but those it was skipped for.
   */
  ghost predicate Told(p: Protocol, id: nat)
    requires Shaped(p) && id < |p.f.channels|
  {
    var log, records := p.f.channels[id].log, Records(p.announced, p.joined[id]);
    && StrictlyRising(log) && (forall v :: v in log ==> v <= p.f.latestVersion)
    && (forall v :: v in log ==> v in records)
    && (id in p.f.subs ==> |log| + p.skipped[id] == |records| && (p.skipped[id] == 0 ==> log == records))
  }

  ghost predicate Safe(p: Protocol) {
    && Shaped(p) && p.f.latestVersion == P.Highest(p.announced)
    && (forall id :: 0 <= id < |p.f.channels| ==> P.Sized(p.f.channels[id]) && Told(p, id))
  }

  lemma RecordsSnoc(announced: seq<int>, v: int, from: nat)
    requires from <= |announced|
    ensures Records(announced + [v], from) == Records(announced, from) + if v > P.Highest(announced) then [v] else []
  {
    assert (announced + [v])[..|announced|] == announced;
  }

  lemma ToldByAnnouncing(p: Protocol, v: int, waiting: set<nat>, id: nat)
    requires Safe(p) && id < |p.f.channels|
    ensures var q := Step(p, Announces(v, waiting)); Shaped(q) && P.Sized(q.f.channels[id]) && Told(q, id)
  {
    RecordsSnoc(p.announced, v, p.joined[id]);
    assert Told(p, id);
    var log := p.f.channels[id].log;
    assert forall i :: 0 <= i < |log| ==> log[i] in log;
  }

  lemma SafeByAnnouncing(p: Protocol, v: int, waiting: set<nat>)
    requires Safe(p)
    ensures Safe(Step(p, Announces(v, waiting)))
  {
    assert (p.announced + [v])[..|p.announced|] == p.announced;
    forall id | 0 <= id < |p.f.channels|
      ensures P.Sized(Step(p, Announces(v, waiting)).f.channels[id]) && Told(Step(p, Announces(v, waiting)), id)
    {
      ToldByAnnouncing(p, v, waiting, id);
    }
  }

  lemma ToldKept(p: Protocol, q: Protocol, id: nat)
    requires Safe(p) && Shaped(q) && id < |p.f.channels| <= |q.f.channels|
    requires q.announced == p.announced && q.f.latestVersion == p.f.latestVersion
    requires q.joined[id] == p.joined[id] && q.skipped[id] == p.skipped[id]
    requires q.f.channels[id].log == p.f.channels[id].log && (id in q.f.subs ==> id in p.f.subs)
    ensures Told(q, id)
  {
    assert Told(p, id);
  }

  lemma SafeKept(p: Protocol, e: Event)
    requires Safe(p) && Enabled(p, e)
    ensures Safe(Step(p, e))
  {
    if e.Announces? {
      SafeByAnnouncing(p, e.version, e.waiting);
    } else {
      var q := Step(p, e);
      forall id | 0 <= id < |q.f.channels| ensures P.Sized(q.f.channels[id]) && Told(q, id) {
        if id < |p.f.channels| {
          ToldKept(p, q, id);
        } else {
          assert Records(q.announced, q.joined[id]) == [];
        }
      }
    }
  }

  ghost predicate Reaches(events: seq<Event>, end: Protocol) {
    if events == [] then end == INITIAL else
      var e := events[|events| - 1];
      exists p: Protocol :: Reaches(events[..|events| - 1], p) && Shaped(p) && Enabled(p, e) && end == Step(p, e)
  }

  lemma {:induction false} RunSafe(events: seq<Event>, end: Protocol)
    requires Reaches(events, end)
    ensures Safe(end)
  {
    if events != [] {
      var front, e := events[..|events| - 1], events[|events| - 1];
      var p: Protocol :| Reaches(front, p) && Shaped(p) && Enabled(p, e) && end == Step(p, e);
      RunSafe(front, p);
      SafeKept(p, e);
    }
  }

  /**
   Delivery.  Pins or not, every channel sees strictly rising versions, and a listed
   one has been sent exactly the running maxima announced since it joined if and
   only if it was never found full.
   */
  lemma FeedDelivers(events: seq<Event>, end: Protocol, id: nat)
    requires Reaches(events, end) && id < |end.f.channels|
    ensures |end.joined| == |end.f.channels| == |end.skipped|
    ensures StrictlyRising(end.f.channels[id].log)
    ensures id in end.f.subs ==>
      (end.f.channels[id].log == Records(end.announced, end.joined[id]) <==> end.skipped[id] == 0)
  {
    RunSafe(events, end);
    assert Told(end, id);
  }
  /** The version pinned last and not released since. */
  function LastPin(events: seq<Event>): Option<int> {
    if events == [] then None else
      match events[|events| - 1]
      case Pins(v) => Some(v)
      case Unpins => None
      case _ => LastPin(events[..|events| - 1])
  }

  /** What a reader of the latest version sees: the pin while there is one, the highest announced version otherwise. */
  lemma {:induction false} FeedReads(events: seq<Event>, end: Protocol)
    requires Reaches(events, end)
    ensures end.f.isPinned == LastPin(events).Some?
    ensures FeedReading(end.f) == LastPin(events).GetOr(P.Highest(end.announced))
  {
    RunSafe(events, end);
    if events != [] {
      var front, e := events[..|events| - 1], events[|events| - 1];
      var p: Protocol :| Reaches(front, p) && Shaped(p) && Enabled(p, e) && end == Step(p, e);
      FeedReads(front, p);
    }
  }
}
