/**
 The consumer: rebuilding a state from a snapshot and the deltas after it.
 `Refresh` is the specification on values; the classes below it carry it out on
 record lists edited in place, behind a read state that is swapped at the end.
 */
module Consumption {
  import opened Basics
  import opened Deltas
  import opened Positional
  import opened BlobStore

  datatype TypeFilter = TypeFilter(included: set<string>, excluded: set<string>, excludeAll: bool)

  predicate Includes(filter: Option<TypeFilter>, t: string) {
    match filter
    case None => true
    case Some(f) => if f.excludeAll then t in f.included else t !in f.excluded
  }

  /** What a filter leaves of some types: the included ones if it excludes all, otherwise all but the excluded ones. */
  function Shown(filter: Option<TypeFilter>, types: set<string>): set<string> {
    match filter
    case None => types
    case Some(f) => if f.excludeAll then types * f.included else types - f.excluded
  }

  function Visible(filter: Option<TypeFilter>, c: Content): (v: Content)
    ensures v.Keys == Shown(filter, c.Keys) && forall t :: t in v ==> v[t] == c[t]
  {
    map t | t in c && Includes(filter, t) :: c[t]
  }

  /** What the consumer currently serves; none before the first refresh. */
  datatype ReplicaState = ReplicaState(version: int, data: Content)

  type Replica = Option<ReplicaState>

  function VersionOf(r: Replica): int {
    if r.Some? then r.value.version else 0
  }

  function DataOf(r: Replica): Content {
    if r.Some? then r.value.data else map[]
  }

  function Loaded(filter: Option<TypeFilter>, b: Blob): Replica {
    if b.data.SnapshotBytes? then Some(ReplicaState(b.version, Visible(filter, b.data.content))) else None
  }

  /** The data after the deltas of the types in `done` have been replayed. */
  function ReplayedTypes(filter: Option<TypeFilter>, base: Content, d: DeltaMap, done: set<string>): Content {
    map t | t in base.Keys + (set u | u in d && u in done && Includes(filter, u)) ::
      if t in d && t in done && Includes(filter, t) then Replay(ListOf(base, t), d[t]) else base[t]
  }

  function ReplayedData(filter: Option<TypeFilter>, base: Content, d: DeltaMap): Content {
    ReplayedTypes(filter, base, d, d.Keys)
  }

  /** Bytes that do not decode, the empty ones among them, are an error. */
  function Applied(filter: Option<TypeFilter>, r: Replica, b: Blob): Replica {
    if b.data.DeltaBytes? then Some(ReplicaState(b.toVersion, ReplayedData(filter, DataOf(r), b.data.delta))) else None
  }

  function ApplyBlob(filter: Option<TypeFilter>, r: Replica, b: Blob): Result<Replica> {
    match b.kind
    case SnapshotBlob => if Loaded(filter, b).Some? then Ok(Loaded(filter, b)) else Err("snapshot")
    case DeltaBlob => if Applied(filter, r, b).Some? then Ok(Applied(filter, r, b)) else Err("delta")
    case _ => Ok(r)
  }

  /** The blobs in order, stopping at the first that fails; the flag tells whether all went through. */
  function ApplyChain(filter: Option<TypeFilter>, r: Replica, chain: seq<Blob>): (Replica, bool)
    decreases |chain|
  {
    if chain == [] then (r, true) else
      match ApplyBlob(filter, r, chain[0])
      case Ok(next) => ApplyChain(filter, next, chain[1..])
      case Err(_) => (r, false)
  }

  function Refresh(filter: Option<TypeFilter>, s: Store, r: Replica, target: int): (Replica, bool)
    requires Filled(s)
  {
    if target == VersionOf(r) then (r, true) else
      match Plan(s, VersionOf(r), target)
      case Ok(chain) => ApplyChain(filter, r, chain)
      case Err(_) => (r, false)
  }

  /** One turn of the auto-refresh loop: a version above the current one is followed, errors are dropped. */
  function Follow(filter: Option<TypeFilter>, s: Store, r: Replica, version: int): Replica
    requires Filled(s)
  {
    if version > VersionOf(r) then Refresh(filter, s, r, version).0 else r
  }

  /** A version that comes in, and the store as it is by then. */
  datatype Notice = Notice(store: Store, version: int)

  function AutoRefresh(filter: Option<TypeFilter>, r: Replica, notices: seq<Notice>): Replica
    requires forall i :: 0 <= i < |notices| ==> Filled(notices[i].store)
  {
    if notices == [] then r else
      var last := notices[|notices| - 1];
      Follow(filter, last.store, AutoRefresh(filter, r, notices[..|notices| - 1]), last.version)
  }

  lemma ReplayedStep(filter: Option<TypeFilter>, base: Content, d: DeltaMap, done: set<string>, t: string)
    requires t in d && t !in done
    ensures ReplayedTypes(filter, base, d, done + {t}) ==
      if Includes(filter, t) then ReplayedTypes(filter, base, d, done)[t := Replay(ListOf(base, t), d[t])]
      else ReplayedTypes(filter, base, d, done)
    ensures ListOf(ReplayedTypes(filter, base, d, done), t) == ListOf(base, t)
  {
  }

  lemma ReplayedNone(filter: Option<TypeFilter>, base: Content, d: DeltaMap)
    ensures ReplayedTypes(filter, base, d, {}) == base
  {
  }

  // ----- what a filter lets through -----

  /** A refresh to a version with a snapshot serves exactly the types of that snapshot that the filter shows. */
  lemma RefreshToSnapshot(filter: Option<TypeFilter>, s: Store, r: Replica, target: int)
    requires Filled(s) && target > VersionOf(r) && target in s.snapshots && s.snapshots[target].data.SnapshotBytes?
    ensures var (next, ok) := Refresh(filter, s, r, target);
      var content := s.snapshots[target].data.content;
      && ok && VersionOf(next) == target && DataOf(next).Keys == Shown(filter, content.Keys)
      && (forall t :: t in DataOf(next) ==> DataOf(next)[t] == content[t])
  {
    var b := s.snapshots[target];
    assert Plan(s, VersionOf(r), target) == Ok([b]);
    assert ApplyBlob(filter, r, b) == Ok(Loaded(filter, b));
    assert [b][1..] == [] && ApplyChain(filter, Loaded(filter, b), []) == (Loaded(filter, b), true);
    assert ApplyChain(filter, r, [b]) == (Loaded(filter, b), true);
  }

  /** A snapshot serves exactly its own types that the filter shows, with their lists. */
  lemma SnapshotTypes(filter: Option<TypeFilter>, b: Blob)
    requires b.data.SnapshotBytes?
    ensures var (data, content) := (DataOf(Loaded(filter, b)), b.data.content);
      data.Keys == Shown(filter, content.Keys) && forall t :: t in data ==> data[t] == content[t]
  {
  }

  lemma ReplayedKeys(filter: Option<TypeFilter>, base: Content, d: DeltaMap)
    ensures ReplayedData(filter, base, d).Keys == base.Keys + Shown(filter, d.Keys)
  {
    var data := ReplayedData(filter, base, d);
    assert forall t :: t in data <==> t in base || (t in d && Includes(filter, t));
    assert forall t :: t in Shown(filter, d.Keys) <==> t in d && Includes(filter, t);
  }

  /** A delta adds the types it names, as far as the filter shows them, and takes none away. */
  lemma DeltaTypes(filter: Option<TypeFilter>, r: Replica, b: Blob)
    requires b.data.DeltaBytes?
    ensures DataOf(Applied(filter, r, b)).Keys == DataOf(r).Keys + Shown(filter, b.data.delta.Keys)
  {
    ReplayedKeys(filter, DataOf(r), b.data.delta);
  }

  /** The replica serves nothing the filter hides. */
  predicate OnlyShown(filter: Option<TypeFilter>, r: Replica) {
    Shown(filter, DataOf(r).Keys) == DataOf(r).Keys
  }

  lemma BlobShown(filter: Option<TypeFilter>, r: Replica, b: Blob)
    requires OnlyShown(filter, r) && ApplyBlob(filter, r, b).Ok?
    ensures OnlyShown(filter, ApplyBlob(filter, r, b).value)
  {
    if b.kind == DeltaBlob { DeltaTypes(filter, r, b); }
  }

  lemma {:induction false} ChainShown(filter: Option<TypeFilter>, r: Replica, chain: seq<Blob>)
    requires OnlyShown(filter, r)
    ensures OnlyShown(filter, ApplyChain(filter, r, chain).0)
    decreases |chain|
  {
    if chain != [] && ApplyBlob(filter, r, chain[0]).Ok? {
      BlobShown(filter, r, chain[0]);
      ChainShown(filter, ApplyBlob(filter, r, chain[0]).value, chain[1..]);
    }
  }

  /** Whatever the store holds and however a refresh ends, it serves nothing the filter hides. */
  lemma RefreshShown(filter: Option<TypeFilter>, s: Store, r: Replica, target: int)
    requires Filled(s) && OnlyShown(filter, r)
    ensures OnlyShown(filter, Refresh(filter, s, r, target).0)
  {
    if target != VersionOf(r) && Plan(s, VersionOf(r), target).Ok? {
      ChainShown(filter, r, Plan(s, VersionOf(r), target).value);
    }
  }

  /** The same over any sequence of announced versions, while the store changes. */
  lemma {:induction false} AutoRefreshShown(filter: Option<TypeFilter>, r: Replica, notices: seq<Notice>)
    requires OnlyShown(filter, r) && forall i :: 0 <= i < |notices| ==> Filled(notices[i].store)
    ensures OnlyShown(filter, AutoRefresh(filter, r, notices))
  {
    if notices != [] {
      var front, last := notices[..|notices| - 1], notices[|notices| - 1];
      AutoRefreshShown(filter, r, front);
      RefreshShown(filter, last.store, AutoRefresh(filter, r, front), last.version);
    }
  }

  // ----- record lists, edited in place -----

  class RecordList {
    var items: seq<Payload>

    /** A copy: nothing of the original is shared. */
    constructor (items: seq<Payload>)
      ensures this.items == items
    {
      this.items := items;
    }

    method ReplayRecords(rs: seq<DeltaRecord>)
      modifies this
      ensures items == Replay(old(items), rs)
    {
      for i := 0 to |rs|
        invariant items == Replay(old(items), rs[..i])
      {
        assert rs[..i + 1][..i] == rs[..i];
        match rs[i] {
          case Add(_, v) => items := items + [v];
          case Update(o, v) => if o < |items| { items := items[o := v]; }
          case Delete(o) => if o < |items| { items := items[..o] + items[o + 1..]; }
        }
      }
      assert rs[..|rs|] == rs;
    }
  }

  /** Every type has a list of its own, and the lists hold `c`. */
  ghost predicate Holds(data: map<string, RecordList>, c: Content)
    reads data.Values
  {
    && data.Keys == c.Keys
    && (forall t :: t in data ==> data[t].items == c[t])
    && (forall t, u :: t in data && u in data && t != u ==> data[t] != data[u])
  }

  function ContentsOf(data: map<string, RecordList>): Content
    reads data.Values
  {
    map t | t in data :: data[t].items
  }

  lemma HoldsContents(data: map<string, RecordList>, c: Content)
    requires Holds(data, c)
    ensures ContentsOf(data) == c
  {
  }

  /** One more type, in a list of its own. */
  method AddList(data: map<string, RecordList>, t: string, items: seq<Payload>, ghost c: Content)
    returns (more: map<string, RecordList>)
    requires Holds(data, c) && t !in data
    ensures more.Keys == data.Keys + {t} && fresh(more[t]) && forall u :: u in data ==> more[u] == data[u]
    ensures Holds(more, c[t := items])
  {
    var s := new RecordList(items);
    more := data[t := s];
  }

  method ReplayType(data: map<string, RecordList>, t: string, rs: seq<DeltaRecord>, ghost c: Content)
    requires Holds(data, c) && t in data
    modifies data[t]
    ensures Holds(data, c[t := Replay(c[t], rs)])
  {
    data[t].ReplayRecords(rs);
  }

  function Restricted(c: Content, names: set<string>): Content {
    map t | t in c && t in names :: c[t]
  }

  lemma RestrictedStep(c: Content, done: set<string>, t: string)
    requires t in c && t !in done
    ensures Restricted(c, done + {t}) == Restricted(c, done)[t := c[t]]
    ensures Restricted(c, c.Keys) == c
  {
  }

  /** Decoded or copied record lists, each in a list of its own. */
  method NewLists(content: Content) returns (data: map<string, RecordList>)
    ensures forall t :: t in data ==> fresh(data[t])
    ensures Holds(data, content)
  {
    data := map[];
    var names := InSomeOrder(content.Keys);
    assert Restricted(content, {}) == map[];
    for i := 0 to |names|
      invariant forall t :: t in data ==> fresh(data[t])
      invariant Holds(data, Restricted(content, Members(names[..i])))
    {
      var t := names[i];
      assert Members(names[..i + 1]) == Members(names[..i]) + {t} && t !in Members(names[..i]);
      RestrictedStep(content, Members(names[..i]), t);
      data := AddList(data, t, content[t], Restricted(content, Members(names[..i])));
    }
    assert Members(names[..|names|]) == content.Keys;
    assert Restricted(content, content.Keys) == content;
  }

  /** The delta records of one type; a type seen for the first time starts empty. */
  method ApplyType(data: map<string, RecordList>, t: string, rs: seq<DeltaRecord>, ghost c: Content)
    returns (next: map<string, RecordList>)
    requires Holds(data, c)
    modifies data.Values
    ensures next.Keys == data.Keys + {t} && forall u :: u in data ==> next[u] == data[u]
    ensures t !in data ==> fresh(next[t])
    ensures Holds(next, c[t := Replay(ListOf(c, t), rs)])
  {
    next := data;
    if t !in next {
      next := AddList(next, t, [], c);
      ReplayType(next, t, rs, c[t := []]);
      assert c[t := []][t := Replay([], rs)] == c[t := Replay([], rs)];
    } else {
      ReplayType(next, t, rs, c);
    }
  }

  method ApplyIncluded(filter: Option<TypeFilter>, data: map<string, RecordList>, d: DeltaMap, t: string,
                       ghost base: Content, ghost done: set<string>)
    returns (next: map<string, RecordList>)
    requires t in d && t !in done && Holds(data, ReplayedTypes(filter, base, d, done))
    modifies data.Values
    ensures forall u :: u in next ==> (u in data && next[u] == data[u]) || fresh(next[u])
    ensures Holds(next, ReplayedTypes(filter, base, d, done + {t}))
  {
    ReplayedStep(filter, base, d, done, t);
    next := data;
    if Includes(filter, t) {
      next := ApplyType(data, t, d[t], ReplayedTypes(filter, base, d, done));
    }
  }

  method ApplyTypes(filter: Option<TypeFilter>, d: DeltaMap, start: map<string, RecordList>, ghost base: Content)
    returns (data: map<string, RecordList>)
    requires Holds(start, base)
    modifies start.Values
    ensures forall u :: u in data ==> (u in start && data[u] == start[u]) || fresh(data[u])
    ensures Holds(data, ReplayedData(filter, base, d))
  {
    data := start;
    ReplayedNone(filter, base, d);
    var names := d.Keys;
    ghost var done: set<string> := {};
    while names != {}
      invariant names <= d.Keys && done == d.Keys - names
      invariant forall u :: u in data ==> (u in start && data[u] == start[u]) || fresh(data[u])
      invariant Holds(data, ReplayedTypes(filter, base, d, done))
      decreases |names|
    {
      var t :| t in names;
      data := ApplyIncluded(filter, data, d, t, base, done);
      names, done := names - {t}, done + {t};
    }
    assert done == d.Keys;
  }

  class ReadState {
    const version: int
    const data: map<string, RecordList>
    var invalidated: bool

    constructor (version: int, data: map<string, RecordList>)
      ensures this.version == version && this.data == data && !invalidated
    {
      this.version, this.data, invalidated := version, data, false;
    }
  }

  /** A count stored in a 32-bit signed integer. */
  function ToInt32(n: nat): (r: int)
    ensures -0x8000_0000 <= r < 0x8000_0000 && (n - r) % 0x1_0000_0000 == 0
    ensures n < 0x8000_0000 ==> r == n
  {
    (n + 0x8000_0000) % 0x1_0000_0000 - 0x8000_0000
  }

  method CountRecords(data: map<string, RecordList>, ghost c: Content) returns (total: nat)
    requires Holds(data, c)
    ensures total == SumLengths(c)
  {
    total := 0;
    ghost var left := c;
    var names := data.Keys;
    while names != {}
      invariant left.Keys == names <= data.Keys
      invariant forall t :: t in left ==> left[t] == c[t]
      invariant total + SumLengths(left) == SumLengths(c)
      decreases |names|
    {
      var t :| t in names;
      SumLengthsPick(left, t);
      total := total + |data[t].items|;
      names, left := names - {t}, left - {t};
    }
    SumLengthsNone(left);
  }

  class ReadStateEngine {
    var currentState: ReadState?
    var totalRecords: int
    ghost var installed: set<ReadState>

    /** Of all states ever installed, the current one alone may still be read. */
    ghost predicate Valid()
      reads this, currentState, installed, if currentState != null then currentState.data.Values else {}
    {
      && (forall s :: s in installed ==> (s.invalidated <==> s != currentState))
      && (currentState != null ==> currentState in installed && Holds(currentState.data, ContentsOf(currentState.data)))
    }

    ghost function Model(): Replica
      requires Valid()
      reads this, currentState, installed
      reads if currentState != null then currentState.data.Values else {}
    {
      if currentState == null then None else Some(ReplicaState(currentState.version, ContentsOf(currentState.data)))
    }

    constructor ()
      ensures Valid() && Model() == None
    {
      currentState, totalRecords, installed := null, 0, {};
    }

    function GetCurrentVersion(): int
      reads this, currentState
    {
      if currentState == null then 0 else currentState.version
    }

    method Install(state: ReadState?)
      modifies this`currentState, this`installed, currentState
      ensures currentState == state && installed == old(installed) + if state == null then {} else {state}
      ensures old(currentState) != null ==> old(currentState).invalidated
      ensures state != null && state != old(currentState) ==> state.invalidated == old(state.invalidated)
    {
      if currentState != null {
        currentState.invalidated := true;
      }
      currentState := state;
      if state != null { installed := installed + {state}; }
    }

    /** Installing a state, or none, invalidates the one before it, and touches no record list of either. */
    method SetCurrentState(state: ReadState?)
      requires state != null ==> Holds(state.data, ContentsOf(state.data))
      modifies this, currentState
      ensures currentState == state && installed == old(installed) + if state == null then {} else {state}
      ensures old(currentState) != null ==> old(currentState).invalidated
      ensures state != null && state != old(currentState) ==> state.invalidated == old(state.invalidated)
      ensures old(Valid()) && (state != null ==> state !in old(installed) && !state.invalidated) ==> Valid()
      ensures totalRecords == if state == null then 0 else ToInt32(SumLengths(ContentsOf(state.data)))
    {
      Install(state);
      if state == null {
        totalRecords := 0;
      } else {
        Recount(state);
      }
    }

    method Recount(state: ReadState)
      requires Holds(state.data, ContentsOf(state.data))
      modifies this`totalRecords
      ensures totalRecords == ToInt32(SumLengths(ContentsOf(state.data)))
    {
      ghost var c := ContentsOf(state.data);
      var total := CountRecords(state.data, c);
      totalRecords := ToInt32(total);
      HoldsContents(state.data, c);
    }
  }

  class Consumer {
    const readEngine: ReadStateEngine
    const retriever: InMemoryBlobStore
    const typeFilter: Option<TypeFilter>

    constructor (retriever: InMemoryBlobStore, typeFilter: Option<TypeFilter>)
      ensures this.retriever == retriever && this.typeFilter == typeFilter
      ensures fresh(readEngine) && readEngine.Valid() && readEngine.Model() == None
    {
      this.retriever, this.typeFilter := retriever, typeFilter;
      readEngine := new ReadStateEngine();
    }

    method PlanBlobs(from: int, target: int) returns (chain: Option<seq<Blob>>)
      requires retriever.Valid()
      ensures chain == match Plan(retriever.Model(), from, target) case Ok(c) => Some(c) case Err(_) => None
    {
      ghost var s := retriever.Model();
      var blobs: seq<Blob> := [];
      var cur := target;
      assert forall c: seq<Blob> :: c + blobs == c;
      while cur > from
        invariant Plan(s, from, target) ==
          match Plan(s, from, cur) case Ok(c) => Ok(c + blobs) case Err(m) => Err(m)
        decreases cur - from
      {
        var snap := retriever.RetrieveSnapshotBlob(cur);
        if snap.Some? {
          return Some([snap.value] + blobs);
        }
        var delta := retriever.RetrieveDeltaBlob(cur - 1);
        if delta.None? { return None; }
        ghost var before := blobs;
        blobs := [delta.value] + blobs;
        assert forall c: seq<Blob> :: c + [delta.value] + before == c + blobs;
        cur := delta.value.fromVersion;
      }
      assert [] + blobs == blobs;
      return Some(blobs);
    }

    method SnapshotState(version: int, content: Content) returns (state: ReadState)
      ensures fresh(state) && forall t :: t in state.data ==> fresh(state.data[t])
      ensures state.version == version && !state.invalidated
      ensures Holds(state.data, Visible(typeFilter, content))
    {
      var data := NewLists(Visible(typeFilter, content));
      state := new ReadState(version, data);
    }

    /** A new state from the snapshot alone; undecodable bytes leave the consumer as it was. */
    method LoadSnapshot(b: Blob) returns (ok: bool)
      requires readEngine.Valid()
      modifies readEngine, readEngine.currentState
      ensures readEngine.Valid()
      ensures ok == Loaded(typeFilter, b).Some?
      ensures readEngine.Model() == if ok then Loaded(typeFilter, b) else old(readEngine.Model())
      ensures ok ==> fresh(readEngine.currentState)
      ensures ok ==> readEngine.currentState.data.Keys == Shown(typeFilter, b.data.content.Keys)
      ensures ok ==> readEngine.totalRecords == ToInt32(SumLengths(ContentsOf(readEngine.currentState.data)))
      ensures ok && old(readEngine.currentState) != null ==> old(readEngine.currentState).invalidated
      ensures forall s :: s in old(readEngine.installed) ==> ContentsOf(s.data) == old(ContentsOf(s.data))
      ensures !ok ==> readEngine.currentState == old(readEngine.currentState)
    {
      if !b.data.SnapshotBytes? { return false; }
      var readState := SnapshotState(b.version, b.data.content);
      HoldsContents(readState.data, Visible(typeFilter, b.data.content));
      readEngine.SetCurrentState(readState);
      return true;
    }

    method CopyCurrent() returns (data: map<string, RecordList>)
      requires readEngine.Valid()
      ensures forall t :: t in data ==> fresh(data[t])
      ensures Holds(data, DataOf(readEngine.Model()))
    {
      var currentState := readEngine.currentState;
      if currentState != null && !currentState.invalidated {
        data := NewLists(ContentsOf(currentState.data));
      } else {
        data := map[];
      }
    }

    method MergedState(version: int, d: DeltaMap) returns (state: ReadState)
      requires readEngine.Valid()
      ensures fresh(state) && forall t :: t in state.data ==> fresh(state.data[t])
      ensures state.version == version && !state.invalidated
      ensures Holds(state.data, ReplayedData(typeFilter, old(DataOf(readEngine.Model())), d))
    {
      ghost var base := DataOf(readEngine.Model());
      var data := CopyCurrent();
      data := ApplyTypes(typeFilter, d, data, base);
      state := new ReadState(version, data);
    }

    /**
     The delta applied to copies of the current lists.  Only the read engine and the
     invalidation mark of the state being replaced are written: every record list
     that existed before the call is left as it was.
     */
    method ApplyDelta(b: Blob) returns (ok: bool)
      requires readEngine.Valid()
      modifies readEngine, readEngine.currentState
      ensures readEngine.Valid()
      ensures ok == Applied(typeFilter, old(readEngine.Model()), b).Some?
      ensures readEngine.Model() ==
        if ok then Applied(typeFilter, old(readEngine.Model()), b) else old(readEngine.Model())
      ensures ok ==> fresh(readEngine.currentState)
      ensures ok ==> forall t :: t in readEngine.currentState.data ==> fresh(readEngine.currentState.data[t])
      ensures ok ==>
        readEngine.currentState.data.Keys ==
        old(DataOf(readEngine.Model()).Keys) + Shown(typeFilter, b.data.delta.Keys)
      ensures ok && old(readEngine.currentState) != null ==>
        old(readEngine.currentState).invalidated
      ensures forall s :: s in old(readEngine.installed) ==> ContentsOf(s.data) == old(ContentsOf(s.data))
      ensures ok ==> readEngine.totalRecords == ToInt32(SumLengths(ContentsOf(readEngine.currentState.data)))
      ensures !ok ==> readEngine.currentState == old(readEngine.currentState)
    {
      if !b.data.DeltaBytes? { return false; }
      ghost var base := DataOf(readEngine.Model());
      var readState := MergedState(b.toVersion, b.data.delta);
      ReplayedKeys(typeFilter, base, b.data.delta);
      HoldsContents(readState.data, ReplayedData(typeFilter, base, b.data.delta));
      readEngine.SetCurrentState(readState);
      return true;
    }

    method ApplyBlobs(blobs: seq<Blob>) returns (ok: bool)
      requires readEngine.Valid()
      modifies readEngine, readEngine.currentState
      ensures readEngine.Valid()
      ensures (readEngine.Model(), ok) == ApplyChain(typeFilter, old(readEngine.Model()), blobs)
      ensures readEngine.currentState == old(readEngine.currentState) || fresh(readEngine.currentState)
    {
      for i := 0 to |blobs|
        invariant readEngine.Valid()
        invariant readEngine.currentState == old(readEngine.currentState) || fresh(readEngine.currentState)
        invariant ApplyChain(typeFilter, readEngine.Model(), blobs[i..]) ==
          ApplyChain(typeFilter, old(readEngine.Model()), blobs)
      {
        assert blobs[i..][1..] == blobs[i + 1..];
        ok := true;
        match blobs[i].kind {
          case SnapshotBlob => ok := LoadSnapshot(blobs[i]);
          case DeltaBlob => ok := ApplyDelta(blobs[i]);
          case _ =>
        }
        if !ok { return false; }
      }
      return true;
    }

    method TriggerRefreshTo(target: int) returns (ok: bool)
      requires readEngine.Valid() && retriever.Valid()
      modifies readEngine, readEngine.currentState
      ensures readEngine.Valid()
      ensures (readEngine.Model(), ok) == Refresh(typeFilter, retriever.Model(), old(readEngine.Model()), target)
      ensures readEngine.currentState == old(readEngine.currentState) || fresh(readEngine.currentState)
    {
      var currentVersion := readEngine.GetCurrentVersion();
      if target == currentVersion { return true; }
      var chain := PlanBlobs(currentVersion, target);
      if chain.None? { return false; }
      ok := ApplyBlobs(chain.value);
    }

    /** The body of the auto-refresh loop; the store may have changed since its last turn. */
    method FollowUpdate(version: int)
      requires readEngine.Valid() && retriever.Valid()
      modifies readEngine, readEngine.currentState
      ensures readEngine.Valid()
      ensures readEngine.Model() == Follow(typeFilter, retriever.Model(), old(readEngine.Model()), version)
      ensures readEngine.currentState == old(readEngine.currentState) || fresh(readEngine.currentState)
    {
      var currentVersion := readEngine.GetCurrentVersion();
      if version > currentVersion {
        var _ := TriggerRefreshTo(version);
      }
    }
  }
}
