/**
 The goroutine announcer.  Its lock-protected pieces are methods, each specified by
 a function on `State` values; the protocol interleaves those pieces in any order.
 */
module Announcer {
  import opened Basics

  // ----- channels -----

  /** A subscriber channel: everything ever sent into it, and how much of that has been received. */
  datatype Channel = Channel(capacity: nat, log: seq<int>, taken: nat)

  /** A non-blocking send gets through when there is room; without a buffer, when a receiver waits. */
  predicate Accepts(c: Channel, id: nat, waiting: set<nat>) {
    if c.capacity == 0 then id in waiting else |c.log| < c.taken + c.capacity
  }

  /** One more version can be sent: a buffer has a free place, or without a buffer a receiver waits. */
  predicate HasRoom(c: Channel, id: nat, waiting: set<nat>) {
    (c.capacity > 0 && |c.log| - c.taken < c.capacity) || (c.capacity == 0 && id in waiting)
  }

  function Sent(c: Channel, version: int): Channel {
    Channel(c.capacity, c.log + [version], if c.capacity == 0 then c.taken + 1 else c.taken)
  }

  predicate Open(channels: seq<Channel>, ids: seq<nat>) {
    forall i :: 0 <= i < |ids| ==> ids[i] < |channels|
  }

  /** The channels after the subscribers `ids` have been offered `version`, one after the other. */
  function Notified(channels: seq<Channel>, ids: seq<nat>, version: int, waiting: set<nat>): (r: seq<Channel>)
    requires Open(channels, ids)
    ensures |r| == |channels|
  {
    if ids == [] then channels else
      var before, id := Notified(channels, ids[..|ids| - 1], version, waiting), ids[|ids| - 1];
      if Accepts(before[id], id, waiting) then before[id := Sent(before[id], version)] else before
  }

  lemma NotifiedNext(channels: seq<Channel>, ids: seq<nat>, i: nat, version: int, waiting: set<nat>)
    requires Open(channels, ids) && i < |ids|
    ensures var now := Notified(channels, ids[..i], version, waiting);
      Notified(channels, ids[..i + 1], version, waiting) ==
        if Accepts(now[ids[i]], ids[i], waiting) then now[ids[i] := Sent(now[ids[i]], version)] else now
  {
    assert ids[..i + 1][..i] == ids[..i];
  }

  /** The positions of the subscribers whose send failed. */
  function DeadAt(channels: seq<Channel>, ids: seq<nat>, version: int, waiting: set<nat>): set<nat>
    requires Open(channels, ids)
  {
    if ids == [] then {} else
      var before, id := Notified(channels, ids[..|ids| - 1], version, waiting), ids[|ids| - 1];
      DeadAt(channels, ids[..|ids| - 1], version, waiting) +
        if Accepts(before[id], id, waiting) then {} else {|ids| - 1}
  }

  lemma DeadNext(channels: seq<Channel>, ids: seq<nat>, i: nat, version: int, waiting: set<nat>)
    requires Open(channels, ids) && i < |ids|
    ensures DeadAt(channels, ids[..i + 1], version, waiting) ==
      DeadAt(channels, ids[..i], version, waiting) +
        if Accepts(Notified(channels, ids[..i], version, waiting)[ids[i]], ids[i], waiting) then {} else {i}
  {
    assert ids[..i + 1][..i] == ids[..i];
  }

  /** The elements at positions outside `dead`, in order. */
  function Keeping<T>(s: seq<T>, dead: set<nat>): seq<T> {
    if s == [] then [] else Keeping(s[..|s| - 1], dead) + if |s| - 1 in dead then [] else [s[|s| - 1]]
  }

  lemma MembersSnoc(s: seq<nat>, x: nat)
    ensures Members(s + [x]) == Members(s) + {x}
  {
  }

  // ----- removal by descending index -----

  predicate Ascending(dead: seq<nat>, n: nat) {
    && (forall i, j :: 0 <= i < j < |dead| ==> dead[i] < dead[j])
    && (forall i :: 0 <= i < |dead| ==> dead[i] < n)
  }

  lemma {:induction false} KeepingAll<T>(s: seq<T>, dead: set<nat>)
    requires forall d :: d in dead ==> d >= |s|
    ensures Keeping(s, dead) == s
  {
    if s != [] { KeepingAll(s[..|s| - 1], dead); }
  }

  /** Removing a position below all removed so far does not depend on them. */
  lemma {:induction false} KeepingStep<T>(s: seq<T>, dead: set<nat>, k: nat)
    requires k < |s| && forall d :: d in dead ==> d > k
    ensures k < |Keeping(s, dead)|
    ensures Keeping(s, dead + {k}) == Keeping(s, dead)[..k] + Keeping(s, dead)[k + 1..]
  {
    var front := s[..|s| - 1];
    if k == |front| {
      KeepingAll(s, dead);
      KeepingAll(front, dead + {k});
      KeepingAll(front, dead);
    } else {
      KeepingStep(front, dead, k);
    }
  }

  /** What both notification loops do with the failed subscribers. */
  method RemoveDead<T>(subscribers: seq<T>, dead: seq<nat>) returns (r: seq<T>)
    requires Ascending(dead, |subscribers|)
    ensures r == Keeping(subscribers, Members(dead))
  {
    r := subscribers;
    var i := |dead|;
    KeepingAll(subscribers, {});
    assert Members(dead[i..]) == {};
    while i > 0
      invariant 0 <= i <= |dead|
      invariant r == Keeping(subscribers, Members(dead[i..]))
    {
      i := i - 1;
      KeepingStep(subscribers, Members(dead[i + 1..]), dead[i]);
      assert Members(dead[i..]) == Members(dead[i + 1..]) + {dead[i]};
      r := r[..dead[i]] + r[dead[i] + 1..];
    }
    assert dead[0..] == dead;
  }

  // ----- the announcer as a value -----

  datatype State = State(
    latestVersion: int,
    pinnedVersion: int,
    isPinned: bool,
    subscribers: seq<nat>,
    announceQueue: seq<int>,
    channels: seq<Channel>)

  const QUEUE_CAPACITY: nat := 100

  predicate Valid(s: State) {
    Open(s.channels, s.subscribers)
  }

  function NotifyAll(s: State, version: int, waiting: set<nat>): State
    requires Valid(s)
  {
    s.(channels := Notified(s.channels, s.subscribers, version, waiting),
       subscribers := Keeping(s.subscribers, DeadAt(s.channels, s.subscribers, version, waiting)))
  }

  function Recorded(s: State, version: int): State {
    s.(latestVersion := if version > s.latestVersion then version else s.latestVersion)
  }

  function Processed(s: State, version: int, waiting: set<nat>): State
    requires Valid(s)
  {
    if version >= s.latestVersion then NotifyAll(s.(latestVersion := version), version, waiting) else s
  }

  function Joined(s: State, bufferSize: nat): State {
    s.(channels := s.channels + [Channel(bufferSize, [], 0)], subscribers := s.subscribers + [|s.channels|])
  }

  function WithoutFirst(s: seq<nat>, id: nat): seq<nat> {
    if s == [] then [] else if s[0] == id then s[1..] else [s[0]] + WithoutFirst(s[1..], id)
  }

  lemma {:induction false} FirstAt(s: seq<nat>, id: nat, i: nat)
    requires i < |s| && s[i] == id && id !in s[..i]
    ensures WithoutFirst(s, id) == s[..i] + s[i + 1..]
  {
    if i > 0 {
      assert s[..i] == [s[0]] + s[1..][..i - 1];
      FirstAt(s[1..], id, i - 1);
    }
  }

  lemma {:induction false} NoFirst(s: seq<nat>, id: nat)
    requires id !in s
    ensures WithoutFirst(s, id) == s
  {
    if s != [] { NoFirst(s[1..], id); }
  }

  function Left(s: State, id: nat): State {
    s.(subscribers := WithoutFirst(s.subscribers, id))
  }

  function PinnedAt(s: State, version: int, waiting: set<nat>): State
    requires Valid(s)
  {
    NotifyAll(s.(isPinned := true, pinnedVersion := version), version, waiting)
  }

  function Unpinned(s: State, waiting: set<nat>): State
    requires Valid(s)
  {
    NotifyAll(s.(isPinned := false, pinnedVersion := 0), s.latestVersion, waiting)
  }

  function Reading(s: State): int {
    if s.isPinned then s.pinnedVersion else s.latestVersion
  }

  // ----- the announcer as an object -----

  /** Channels are numbered in the order they are made; `waiting` are those with a parked receiver. */
  class GoroutineAnnouncer {
    var latestVersion: int
    var pinnedVersion: int
    var isPinned: bool
    var subscribers: seq<nat>
    var announceQueue: seq<int>
    var channels: seq<Channel>

    ghost function Model(): State
      reads this
    {
      State(latestVersion, pinnedVersion, isPinned, subscribers, announceQueue, channels)
    }

    constructor ()
      ensures Model() == State(0, 0, false, [], [], [])
    {
      latestVersion, pinnedVersion, isPinned := 0, 0, false;
      subscribers, announceQueue, channels := [], [], [];
    }

    method SafeChannelSend(id: nat, version: int, waiting: set<nat>) returns (ok: bool)
      requires id < |channels|
      modifies this`channels
      ensures ok <==> HasRoom(old(channels[id]), id, waiting)
      ensures channels == if ok then old(channels)[id := Sent(old(channels[id]), version)] else old(channels)
      ensures channels[id].log == old(channels[id]).log + if ok then [version] else []
      ensures channels[id].capacity == old(channels[id]).capacity
      ensures channels[id].taken == old(channels[id]).taken + if ok && channels[id].capacity == 0 then 1 else 0
    {
      var c := channels[id];
      ok := if c.capacity == 0 then id in waiting else |c.log| < c.taken + c.capacity;
      if ok { channels := channels[id := Sent(c, version)]; }
    }

    method OfferAll(version: int, waiting: set<nat>) returns (dead: seq<nat>)
      requires Open(channels, subscribers)
      modifies this`channels
      ensures channels == Notified(old(channels), subscribers, version, waiting)
      ensures Ascending(dead, |subscribers|) && Members(dead) == DeadAt(old(channels), subscribers, version, waiting)
    {
      dead := [];
      for i := 0 to |subscribers|
        invariant channels == Notified(old(channels), subscribers[..i], version, waiting)
        invariant Ascending(dead, i) && Members(dead) == DeadAt(old(channels), subscribers[..i], version, waiting)
      {
        NotifiedNext(old(channels), subscribers, i, version, waiting);
        DeadNext(old(channels), subscribers, i, version, waiting);
        var ok := SafeChannelSend(subscribers[i], version, waiting);
        MembersSnoc(dead, i);
        if !ok { dead := dead + [i]; }
      }
      assert subscribers[..|subscribers|] == subscribers;
    }

    /** The caller holds the lock. */
    method AnnounceVersionLocked(version: int, waiting: set<nat>)
      requires Valid(Model())
      modifies this`channels, this`subscribers
      ensures Model() == NotifyAll(old(Model()), version, waiting)
    {
      var deadSubscribers := OfferAll(version, waiting);
      subscribers := RemoveDead(subscribers, deadSubscribers);
    }

    method ProcessAnnouncement(version: int, waiting: set<nat>)
      requires Valid(Model())
      modifies this
      ensures Model() == Processed(old(Model()), version, waiting)
      ensures latestVersion == if version > old(latestVersion) then version else old(latestVersion)
      ensures version < old(latestVersion) ==> channels == old(channels) && subscribers == old(subscribers)
    {
      if version >= latestVersion {
        latestVersion := version;
        var deadSubscribers := OfferAll(version, waiting);
        subscribers := RemoveDead(subscribers, deadSubscribers);
      }
    }

    /** The locked first half of Announce. */
    method RecordVersion(version: int)
      modifies this`latestVersion
      ensures Model() == Recorded(old(Model()), version)
    {
      if version > latestVersion { latestVersion := version; }
    }

    /** The second half of Announce; it fails when no room is found in time. */
    method Enqueue(version: int, inTime: bool) returns (ok: bool)
      modifies this`announceQueue
      ensures ok <==> inTime && |old(announceQueue)| < 100
      ensures announceQueue == if ok then old(announceQueue) + [version] else old(announceQueue)
    {
      ok := inTime && |announceQueue| < QUEUE_CAPACITY;
      if ok { announceQueue := announceQueue + [version]; }
    }

    method Latest() returns (version: int)
      ensures version == Reading(Model())
    {
      if isPinned { return pinnedVersion; }
      return latestVersion;
    }

    method Pin(version: int, waiting: set<nat>)
      requires Valid(Model())
      modifies this
      ensures Model() == PinnedAt(old(Model()), version, waiting)
    {
      isPinned := true;
      pinnedVersion := version;
      AnnounceVersionLocked(version, waiting);
    }

    method Unpin(waiting: set<nat>)
      requires Valid(Model())
      modifies this
      ensures Model() == Unpinned(old(Model()), waiting)
    {
      isPinned := false;
      pinnedVersion := 0;
      AnnounceVersionLocked(latestVersion, waiting);
    }

    method Subscribe(bufferSize: nat) returns (id: nat)
      modifies this`channels, this`subscribers
      ensures id == |old(channels)| && Model() == Joined(old(Model()), bufferSize)
      ensures channels == old(channels) + [Channel(bufferSize, [], 0)] && subscribers == old(subscribers) + [id]
    {
      id := |channels|;
      channels := channels + [Channel(bufferSize, [], 0)];
      subscribers := subscribers + [id];
    }

    method Unsubscribe(id: nat)
      modifies this`subscribers
      ensures Model() == Left(old(Model()), id)
    {
      for i := 0 to |subscribers|
        invariant subscribers == old(subscribers) && id !in subscribers[..i]
      {
        if subscribers[i] == id {
          FirstAt(subscribers, id, i);
          subscribers := subscribers[..i] + subscribers[i + 1..];
          return;
        }
      }
      NoFirst(subscribers, id);
    }
  }
}
