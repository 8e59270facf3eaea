/**
 The write side: record identity, population of a cycle, and the delta of a cycle.
 Each method of `WriteStateEngine` is specified by a function on `Engine` values.
 */
module WriteEngine {
  import opened Basics
  import opened Deltas
  import opened Positional

  /** A stored record: bare, or wrapped with its identity when its type has a primary key. */
  datatype Record =
    | Plain(value: Payload)
    | Info(value: Payload, ordinal: nat, isUpdate: bool, shard: nat)

  type Data = map<string, seq<Record>>

  function Values(rs: seq<Record>): (r: seq<Payload>)
    ensures |r| == |rs|
    ensures forall i :: 0 <= i < |rs| ==> r[i] == rs[i].value
  {
    if rs == [] then [] else Values(rs[..|rs| - 1]) + [rs[|rs| - 1].value]
  }

  function ContentOf(d: Data): Content {
    map t | t in d :: Values(d[t])
  }

  /** The text of the primary key field, if the value has one. */
  function KeyOf(v: Payload, field: string): Option<string> {
    if field in v.fields then Some(v.fields[field]) else None
  }

  /** The values of one type, in the order they were added. */
  function OfType(rows: seq<Payload>, t: string): seq<Payload> {
    if rows == [] then []
    else OfType(rows[..|rows| - 1], t) + if rows[|rows| - 1].typeName == t then [rows[|rows| - 1]] else []
  }

  // ----- identities -----

  datatype Numbering = Numbering(ids: map<string, map<string, nat>>, next: map<string, nat>)

  function KeysOf(n: Numbering, t: string): map<string, nat> {
    if t in n.ids then n.ids[t] else map[]
  }

  function NextOf(n: Numbering, t: string): nat {
    if t in n.next then n.next[t] else 0
  }

  function OrdinalOf(n: Numbering, t: string, key: string): Option<nat> {
    if key in KeysOf(n, t) then Some(KeysOf(n, t)[key]) else None
  }

  /** The numbering after a lookup that creates missing ordinals. */
  function Assign(n: Numbering, t: string, key: string): Numbering {
    if OrdinalOf(n, t, key).Some? then n
    else Numbering(n.ids[t := KeysOf(n, t)[key := NextOf(n, t)]], n.next[t := NextOf(n, t) + 1])
  }

  function Below(n: nat): (s: set<nat>)
    ensures forall o: nat :: o in s <==> o < n
  {
    if n == 0 then {} else Below(n - 1) + {n - 1}
  }

  /** The ordinals in use number the keys injectively by exactly 0 .. next - 1. */
  ghost predicate NumberedType(keys: map<string, nat>, next: nat) {
    && keys.Values == Below(next)
    && (forall k, l :: k in keys && l in keys && keys[k] == keys[l] ==> k == l)
  }

  ghost predicate Numbered(n: Numbering) {
    forall t :: NumberedType(KeysOf(n, t), NextOf(n, t))
  }

  /** No ordinal ever changes or disappears. */
  ghost predicate Extends(n: Numbering, later: Numbering) {
    forall t, k :: k in KeysOf(n, t) ==> k in KeysOf(later, t) && KeysOf(later, t)[k] == KeysOf(n, t)[k]
  }

  lemma NumberNext(keys: map<string, nat>, next: nat, key: string)
    requires NumberedType(keys, next) && key !in keys
    ensures NumberedType(keys[key := next], next + 1)
  {
    var later := keys[key := next];
    forall o: nat ensures o in later.Values <==> o < next + 1 {
      if o == next {
        assert later[key] == next;
      } else if o in keys.Values {
        var k :| k in keys && keys[k] == o;
        assert later[k] == o;
      }
    }
    forall k | k in keys ensures keys[k] != next { assert keys[k] in keys.Values; }
  }

  lemma AssignKeepsNumbered(n: Numbering, t: string, key: string)
    requires Numbered(n)
    ensures Numbered(Assign(n, t, key)) && Extends(n, Assign(n, t, key))
    ensures OrdinalOf(Assign(n, t, key), t, key) ==
      Some(if OrdinalOf(n, t, key).Some? then OrdinalOf(n, t, key).value else NextOf(n, t))
  {
    var m := Assign(n, t, key);
    if OrdinalOf(n, t, key).None? {
      assert NumberedType(KeysOf(n, t), NextOf(n, t));
      NumberNext(KeysOf(n, t), NextOf(n, t), key);
      forall u ensures NumberedType(KeysOf(m, u), NextOf(m, u)) {
        if u != t { assert NumberedType(KeysOf(n, u), NextOf(n, u)); }
      }
      forall u, k | k in KeysOf(n, u) ensures k in KeysOf(m, u) && KeysOf(m, u)[k] == KeysOf(n, u)[k] {
      }
    }
  }

  class IdentityMap {
    var typeToKeyToOrdinal: map<string, map<string, nat>>
    var nextOrdinal: map<string, nat>

    constructor ()
      ensures Model() == Numbering(map[], map[])
    {
      typeToKeyToOrdinal, nextOrdinal := map[], map[];
    }

    ghost function Model(): Numbering
      reads this
    {
      Numbering(typeToKeyToOrdinal, nextOrdinal)
    }

    method GetOrCreateOrdinal(typeName: string, primaryKeyValue: string) returns (ordinal: nat, exists_: bool)
      modifies this
      ensures Model() == Assign(old(Model()), typeName, primaryKeyValue)
      ensures exists_ == OrdinalOf(old(Model()), typeName, primaryKeyValue).Some?
      ensures OrdinalOf(Model(), typeName, primaryKeyValue) == Some(ordinal)
    {
      if typeName in typeToKeyToOrdinal && primaryKeyValue in typeToKeyToOrdinal[typeName] {
        return typeToKeyToOrdinal[typeName][primaryKeyValue], true;
      }
      ordinal := if typeName in nextOrdinal then nextOrdinal[typeName] else 0;
      exists_ := false;
      var keys := if typeName in typeToKeyToOrdinal then typeToKeyToOrdinal[typeName] else map[];
      typeToKeyToOrdinal := typeToKeyToOrdinal[typeName := keys[primaryKeyValue := ordinal]];
      nextOrdinal := nextOrdinal[typeName := ordinal + 1];
    }

    method GetOrdinal(typeName: string, primaryKeyValue: string) returns (ordinal: Option<nat>)
      ensures ordinal == OrdinalOf(Model(), typeName, primaryKeyValue)
    {
      if typeName in typeToKeyToOrdinal && primaryKeyValue in typeToKeyToOrdinal[typeName] {
        return Some(typeToKeyToOrdinal[typeName][primaryKeyValue]);
      }
      return None;
    }
  }

  // ----- the engine as a value -----

  datatype Engine = Engine(
    hash: string -> nat,
    primaryKeys: map<string, string>,
    shards: map<string, int>,
    current: Data,
    previous: Option<Data>,
    numbering: Numbering,
    delta: DeltaMap)

  function NumShards(shards: map<string, int>, t: string): int {
    if t in shards then shards[t] else 1
  }

  function ShardOf(hash: string -> nat, shards: map<string, int>, t: string, key: string): nat {
    var count := NumShards(shards, t);
    if count <= 0 then 0 else hash(key) % count
  }

  function Prepare(e: Engine): Engine {
    e.(previous := Some(e.current), current := map[], delta := map[])
  }

  function WithRecord(d: Data, t: string, r: Record): Data {
    d[t := ListOf(d, t) + [r]]
  }

  /** Whether a value differs from what the previous state holds at its ordinal. */
  function ChangedIn(rs: seq<Record>, ordinal: nat, text: string): bool {
    if rs == [] || rs[0].Plain? then true
    else if rs[0].ordinal == ordinal then rs[0].value.text != text
    else ChangedIn(rs[1..], ordinal, text)
  }

  function Changed(previous: Option<Data>, t: string, ordinal: nat, text: string): bool {
    previous.None? || t !in previous.value || ChangedIn(previous.value[t], ordinal, text)
  }

  /** Adding a record with a key: identity first, then the record, then its delta. */
  function AddKeyed(e: Engine, v: Payload, key: string): Engine {
    var t := v.typeName;
    var isUpdate := OrdinalOf(e.numbering, t, key).Some?;
    var numbering := Assign(e.numbering, t, key);
    var ordinal := if isUpdate then OrdinalOf(e.numbering, t, key).value else NextOf(e.numbering, t);
    var record := Info(v, ordinal, isUpdate, ShardOf(e.hash, e.shards, t, key));
    var change :=
      if !isUpdate then [Add(ordinal, v)]
      else if Changed(e.previous, t, ordinal, v.text) then [Update(ordinal, v)]
      else [];
    e.(numbering := numbering, current := WithRecord(e.current, t, record), delta := Append(e.delta, t, change))
  }

  /** Adding a value during population; without a key (or with an unreadable one) it is stored bare. */
  function AddValue(e: Engine, v: Payload): Engine {
    if v.typeName in e.primaryKeys && KeyOf(v, e.primaryKeys[v.typeName]).Some? then
      AddKeyed(e, v, KeyOf(v, e.primaryKeys[v.typeName]).value)
    else
      e.(current := WithRecord(e.current, v.typeName, Plain(v)))
  }

  function AddAll(e: Engine, rows: seq<Payload>): Engine {
    if rows == [] then e else AddValue(AddAll(e, rows[..|rows| - 1]), rows[|rows| - 1])
  }

  /**
   The record a value leaves behind, after those before it: wrapped with the ordinal of
   its key if its type has a primary key and the value the field, bare otherwise.
   Records of other types stay as they are.
   */
  lemma AddedRecord(e: Engine, v: Payload)
    ensures var (f, t) := (AddValue(e, v), v.typeName);
      && t in f.current && |f.current[t]| == |ListOf(e.current, t)| + 1
      && (forall i :: 0 <= i < |f.current[t]| - 1 ==> f.current[t][i] == e.current[t][i])
      && (forall u :: u != t ==> ListOf(f.current, u) == ListOf(e.current, u))
      && f.current[t][|f.current[t]| - 1].value == v
    ensures var (f, t) := (AddValue(e, v), v.typeName);
      var r := f.current[t][|f.current[t]| - 1];
      if t in e.primaryKeys && e.primaryKeys[t] in v.fields then
        var key := v.fields[e.primaryKeys[t]];
        && r.Info? && OrdinalOf(f.numbering, t, key) == Some(r.ordinal)
        && (r.isUpdate <==> OrdinalOf(e.numbering, t, key) == Some(r.ordinal))
      else r.Plain? && f.numbering == e.numbering
  {
  }

  // ----- the delta of a cycle -----

  function CurrentKeys(rs: seq<Record>, field: string): set<string> {
    set r | r in rs && r.Info? && KeyOf(r.value, field).Some? :: KeyOf(r.value, field).value
  }

  function OmittedOne(n: Numbering, t: string, field: string, r: Record, keys: set<string>): seq<DeltaRecord> {
    match KeyOf(r.value, field)
    case None => []
    case Some(k) =>
      if k !in keys && OrdinalOf(n, t, k).Some? then [Delete(OrdinalOf(n, t, k).value)] else []
  }

  /** A delete for every previous record whose key is missing from the current ones. */
  function Omitted(n: Numbering, t: string, field: string, prev: seq<Record>, keys: set<string>): seq<DeltaRecord> {
    if prev == [] then []
    else Omitted(n, t, field, prev[..|prev| - 1], keys) + OmittedOne(n, t, field, prev[|prev| - 1], keys)
  }

  function PreviousOf(e: Engine, t: string): seq<Record> {
    if e.previous.Some? then ListOf(e.previous.value, t) else []
  }

  /** What the end of the cycle adds to the delta of one type. */
  function Extra(e: Engine, t: string): seq<DeltaRecord> {
    if t in e.primaryKeys then
      Omitted(e.numbering, t, e.primaryKeys[t], PreviousOf(e, t), CurrentKeys(ListOf(e.current, t), e.primaryKeys[t]))
    else if t in e.current then
      Diff(Values(PreviousOf(e, t)), Values(e.current[t]))
    else []
  }

  function Extended(e: Engine, done: set<string>): DeltaMap {
    map t | t in e.delta.Keys + (set u | u in done && Extra(e, u) != []) ::
      ListOf(e.delta, t) + if t in done then Extra(e, t) else []
  }

  lemma ExtendedAt(e: Engine, done: set<string>, t: string)
    ensures t in Extended(e, done) <==> t in e.delta || (t in done && Extra(e, t) != [])
    ensures ListOf(Extended(e, done), t) == ListOf(e.delta, t) + (if t in done then Extra(e, t) else [])
  {
  }

  lemma AppendOnce(base: seq<DeltaRecord>, x: seq<DeltaRecord>, inA: bool, inB: bool)
    requires !(inA && inB)
    ensures base + (if inA then x else []) + (if inB then x else []) == base + (if inA || inB then x else [])
  {
  }

  lemma ExtraSame(e: Engine, f: Engine, t: string)
    requires f == e.(delta := f.delta)
    ensures Extra(f, t) == Extra(e, t)
  {
  }

  lemma ExtendedTwiceAt(e: Engine, a: set<string>, b: set<string>, t: string)
    requires a !! b
    ensures var x, y := Extended(e.(delta := Extended(e, a)), b), Extended(e, a + b);
      (t in x <==> t in y) && ListOf(x, t) == ListOf(y, t)
  {
    var f := e.(delta := Extended(e, a));
    ExtraSame(e, f, t);
    ExtendedAt(e, a, t);
    ExtendedAt(f, b, t);
    ExtendedAt(e, a + b, t);
    AppendOnce(ListOf(e.delta, t), Extra(e, t), t in a, t in b);
  }

  lemma MapsByList(x: DeltaMap, y: DeltaMap)
    requires forall t :: (t in x <==> t in y) && ListOf(x, t) == ListOf(y, t)
    ensures x == y
  {
    assert x.Keys == y.Keys;
    forall t | t in x ensures x[t] == y[t] { assert ListOf(x, t) == ListOf(y, t); }
  }

  lemma ExtendedTwice(e: Engine, a: set<string>, b: set<string>)
    requires a !! b
    ensures Extended(e.(delta := Extended(e, a)), b) == Extended(e, a + b)
  {
    var x, y := Extended(e.(delta := Extended(e, a)), b), Extended(e, a + b);
    forall t ensures (t in x <==> t in y) && ListOf(x, t) == ListOf(y, t) {
      ExtendedTwiceAt(e, a, b, t);
    }
    MapsByList(x, y);
  }

  function CalculateDeltas(e: Engine): Engine {
    if e.previous.None? then e
    else e.(delta := Extended(e, e.primaryKeys.Keys + e.current.Keys))
  }

  lemma ExtendedNone(e: Engine)
    ensures Extended(e, {}) == e.delta
  {
    assert e.delta.Keys + (set u | u in {} && Extra(e, u) != []) == e.delta.Keys;
    assert Extended(e, {}).Keys == e.delta.Keys;
    forall t | t in e.delta ensures Extended(e, {})[t] == e.delta[t] {
    }
  }

  lemma ExtendedStep(e: Engine, done: set<string>, t: string)
    requires t !in done
    ensures Extended(e, done + {t}) == Append(Extended(e, done), t, Extra(e, t))
  {
    var a, b := Extended(e, done + {t}), Append(Extended(e, done), t, Extra(e, t));
    forall u ensures u in a <==> u in b {
    }
    forall u | u in a ensures a[u] == b[u] {
      if u == t && Extra(e, t) != [] {
        assert ListOf(Extended(e, done), t) == ListOf(e.delta, t);
      }
    }
  }

  lemma AppendTwice(d: DeltaMap, t: string, a: seq<DeltaRecord>, b: seq<DeltaRecord>)
    ensures Append(Append(d, t, a), t, b) == Append(d, t, a + b)
  {
    if b == [] {
      assert a + b == a;
    } else if a == [] {
      assert a + b == b;
    } else {
      assert ListOf(d, t) + a + b == ListOf(d, t) + (a + b);
    }
  }

  lemma AppendDiff(d: DeltaMap, t: string, prev: seq<Payload>, cur: seq<Payload>, i: nat)
    requires i < |prev| || i < |cur|
    ensures Append(Append(d, t, DiffUpTo(prev, cur, i)), t, DiffAt(prev, cur, i)) ==
      Append(d, t, DiffUpTo(prev, cur, i + 1))
  {
    AppendTwice(d, t, DiffUpTo(prev, cur, i), DiffAt(prev, cur, i));
  }

  /** The delta list of a type after the end of a cycle. */
  lemma CalculatedAt(e: Engine, t: string)
    requires e.previous.Some?
    ensures ListOf(CalculateDeltas(e).delta, t) == ListOf(e.delta, t) + Extra(e, t)
  {
    var done := e.primaryKeys.Keys + e.current.Keys;
    if t !in done {
      assert Extra(e, t) == [];
    }
  }

  // ----- shards -----

  /** The configured shard size; with 0 the division below would panic. */
  type ShardSize = n: int | n != 0 witness 1

  /** Go's integer division, which truncates towards zero. */
  function Quotient(a: int, b: ShardSize): int {
    if a >= 0 then a / b else -((-a) / b)
  }

  function NewShardCount(records: nat, target: ShardSize): nat {
    var count := Quotient(records + target - 1, target);
    if count < 2 then 2 else count
  }

  function Oversized(d: Data, target: int): set<string> {
    set t | t in d && |d[t]| > target
  }

  function RecomputeOne(e: Engine, t: string, r: Record): Record
    requires t in e.primaryKeys
  {
    if r.Info? && KeyOf(r.value, e.primaryKeys[t]).Some? then
      r.(shard := ShardOf(e.hash, e.shards, t, KeyOf(r.value, e.primaryKeys[t]).value))
    else r
  }

  function RecomputeList(e: Engine, t: string, rs: seq<Record>): (r: seq<Record>)
    requires t in e.primaryKeys
    ensures |r| == |rs|
    ensures forall i :: 0 <= i < |rs| ==> r[i] == RecomputeOne(e, t, rs[i])
  {
    if rs == [] then [] else RecomputeList(e, t, rs[..|rs| - 1]) + [RecomputeOne(e, t, rs[|rs| - 1])]
  }

  function Recomputed(e: Engine, done: set<string>): Data {
    map t | t in e.current :: if t in e.primaryKeys && t in done then RecomputeList(e, t, e.current[t])
      else e.current[t]
  }

  function Recompute(e: Engine): Engine {
    e.(current := Recomputed(e, e.primaryKeys.Keys))
  }

  lemma RecomputedNone(e: Engine)
    ensures Recomputed(e, {}) == e.current
  {
  }

  lemma RecomputedStep(e: Engine, done: set<string>, t: string)
    requires t in e.primaryKeys && t !in done
    ensures Recomputed(e, done + {t}) ==
      if t in e.current then Recomputed(e, done)[t := RecomputeList(e, t, e.current[t])] else Recomputed(e, done)
  {
  }

  lemma {:induction false} RecomputeSame(e: Engine, f: Engine, t: string, rs: seq<Record>)
    requires t in e.primaryKeys && f == e.(current := f.current)
    ensures RecomputeList(f, t, rs) == RecomputeList(e, t, rs)
  {
    if rs != [] {
      RecomputeSame(e, f, t, rs[..|rs| - 1]);
    }
  }

  /** The shard counts once every oversized type among `done` has been given a new one. */
  function Resized(e: Engine, target: ShardSize, done: set<string>): map<string, int> {
    map t | t in e.shards.Keys + Oversized(e.current, target) * done ::
      if t in Oversized(e.current, target) * done then NewShardCount(|e.current[t]|, target) else e.shards[t]
  }

  function Reshard(e: Engine, target: ShardSize): Engine {
    Recompute(e.(shards := Resized(e, target, e.current.Keys)))
  }

  // ----- the engine as an object -----

  lemma ResizedStep(e: Engine, target: ShardSize, done: set<string>, t: string)
    requires t in e.current && t !in done
    ensures Resized(e, target, done + {t}) ==
      if |e.current[t]| > target then Resized(e, target, done)[t := NewShardCount(|e.current[t]|, target)]
      else Resized(e, target, done)
  {
  }

  lemma ResizedNone(e: Engine, target: ShardSize)
    ensures Resized(e, target, {}) == e.shards
  {
  }

  class WriteStateEngine {
    const hash: string -> nat
    var currentState: Data
    var previousState: Option<Data>
    var primaryKeys: map<string, string>
    var shardCounts: map<string, int>
    const identityMap: IdentityMap
    var currentDelta: DeltaSet

    ghost function Model(): Engine
      reads this, identityMap, currentDelta
    {
      Engine(hash, primaryKeys, shardCounts, currentState, previousState, identityMap.Model(), currentDelta.Deltas)
    }

    constructor (hash: string -> nat)
      ensures fresh(identityMap) && fresh(currentDelta)
      ensures Model() == Engine(hash, map[], map[], map[], None, Numbering(map[], map[]), map[])
    {
      this.hash := hash;
      currentState, previousState := map[], None;
      primaryKeys, shardCounts := map[], map[];
      identityMap := new IdentityMap();
      currentDelta := new DeltaSet();
    }

    method SetPrimaryKeys(keys: map<string, string>)
      modifies this
      ensures Model() == old(Model()).(primaryKeys := keys) && currentDelta == old(currentDelta)
    {
      primaryKeys := keys;
    }

    method PrepareForCycle()
      modifies this
      ensures Model() == Prepare(old(Model())) && fresh(currentDelta)
    {
      previousState := Some(currentState);
      currentState := map[];
      currentDelta := new DeltaSet();
    }

    method HasValueChanged(typeName: string, ordinal: nat, newValue: Payload) returns (changed: bool)
      ensures changed == Changed(previousState, typeName, ordinal, newValue.text)
    {
      if previousState.None? || typeName !in previousState.value { return true; }
      var records := previousState.value[typeName];
      for i := 0 to |records|
        invariant ChangedIn(records, ordinal, newValue.text) == ChangedIn(records[i..], ordinal, newValue.text)
      {
        if records[i].Plain? { return true; }
        if records[i].ordinal == ordinal { return records[i].value.text != newValue.text; }
        assert records[i..][1..] == records[i + 1..];
      }
      return true;
    }

    method Append(typeName: string, record: Record)
      modifies this`currentState
      ensures currentState == WithRecord(old(currentState), typeName, record)
    {
      if typeName !in currentState {
        currentState := currentState[typeName := []];
      }
      currentState := currentState[typeName := currentState[typeName] + [record]];
    }

    /** The error outcome is a key that cannot be read; nothing has changed then. */
    method AddWithPrimaryKey(value: Payload) returns (ok: bool)
      modifies this`currentState, identityMap, currentDelta
      ensures ok == (value.typeName in primaryKeys ==> KeyOf(value, primaryKeys[value.typeName]).Some?)
      ensures Model() == if ok then AddValue(old(Model()), value) else old(Model())
    {
      var typeName := value.typeName;
      if typeName !in primaryKeys {
        Append(typeName, Plain(value));
        return true;
      }
      var key := KeyOf(value, primaryKeys[typeName]);
      if key.None? { return false; }
      ok := true;
      var ordinal, isUpdate := identityMap.GetOrCreateOrdinal(typeName, key.value);
      var shardCount := NumShards(shardCounts, typeName);
      if shardCount <= 0 { shardCount := 1; }
      var shard := hash(key.value) % shardCount;
      Append(typeName, Info(value, ordinal, isUpdate, shard));
      if isUpdate {
        var changed := HasValueChanged(typeName, ordinal, value);
        if changed {
          currentDelta.AddRecord(typeName, Update(ordinal, value));
        }
      } else {
        currentDelta.AddRecord(typeName, DeltaRecord.Add(ordinal, value));
      }
    }

    /** `WriteState.Add`: a value whose key cannot be read falls back to a bare record. */
    method Add(value: Payload)
      modifies this`currentState, identityMap, currentDelta
      ensures Model() == AddValue(old(Model()), value)
    {
      var ok := AddWithPrimaryKey(value);
      if !ok {
        Append(value.typeName, Plain(value));
      }
    }

    method Populate(rows: seq<Payload>)
      modifies this`currentState, identityMap, currentDelta
      ensures Model() == AddAll(old(Model()), rows)
    {
      for i := 0 to |rows|
        invariant Model() == AddAll(old(Model()), rows[..i])
      {
        assert rows[..i + 1][..i] == rows[..i];
        Add(rows[i]);
      }
      assert rows[..|rows|] == rows;
    }

    method IsEmpty() returns (empty: bool)
      ensures empty <==> forall t :: t in currentState ==> currentState[t] == []
    {
      var rest := currentState.Keys;
      while rest != {}
        invariant rest <= currentState.Keys
        invariant forall t :: t in currentState && t !in rest ==> currentState[t] == []
        decreases |rest|
      {
        var t :| t in rest;
        if |currentState[t]| > 0 { return false; }
        rest := rest - {t};
      }
      return true;
    }

    method CollectKeys(records: seq<Record>, field: string) returns (keys: set<string>)
      ensures keys == CurrentKeys(records, field)
    {
      keys := {};
      for i := 0 to |records|
        invariant keys == CurrentKeys(records[..i], field)
      {
        assert records[..i + 1] == records[..i] + [records[i]];
        if records[i].Info? && KeyOf(records[i].value, field).Some? {
          keys := keys + {KeyOf(records[i].value, field).value};
        }
      }
      assert records[..|records|] == records;
    }

    method OmitNext(typeName: string, field: string, r: Record, keys: set<string>)
      modifies currentDelta
      ensures currentDelta.Deltas ==
        Deltas.Append(old(currentDelta.Deltas), typeName, OmittedOne(identityMap.Model(), typeName, field, r, keys))
    {
      var key := KeyOf(r.value, field);
      if key.Some? && key.value !in keys {
        var ordinal := identityMap.GetOrdinal(typeName, key.value);
        if ordinal.Some? {
          currentDelta.AddRecord(typeName, Delete(ordinal.value));
        }
      }
    }

    method CalculateDeletesForType(typeName: string)
      requires previousState.Some? && typeName in primaryKeys
      modifies currentDelta
      ensures currentDelta.Deltas == Deltas.Append(old(currentDelta.Deltas), typeName, Extra(old(Model()), typeName))
    {
      var field := primaryKeys[typeName];
      var prev := ListOf(previousState.value, typeName);
      var keys := CollectKeys(ListOf(currentState, typeName), field);
      ghost var n := identityMap.Model();
      for i := 0 to |prev|
        invariant identityMap.Model() == n
        invariant currentDelta.Deltas ==
          Deltas.Append(old(currentDelta.Deltas), typeName, Omitted(n, typeName, field, prev[..i], keys))
      {
        assert prev[..i + 1][..i] == prev[..i];
        AppendTwice(old(currentDelta.Deltas), typeName, Omitted(n, typeName, field, prev[..i], keys),
                    OmittedOne(n, typeName, field, prev[i], keys));
        OmitNext(typeName, field, prev[i], keys);
      }
      assert prev[..|prev|] == prev;
    }

    method UnwrapAll(records: seq<Record>) returns (values: seq<Payload>)
      ensures values == Values(records)
    {
      values := [];
      for i := 0 to |records|
        invariant values == Values(records[..i])
      {
        assert records[..i + 1][..i] == records[..i];
        values := values + [records[i].value];
      }
      assert records[..|records|] == records;
    }

    method DiffNext(typeName: string, prev: seq<Payload>, cur: seq<Payload>, i: nat)
      requires i < |prev| || i < |cur|
      modifies currentDelta
      ensures currentDelta.Deltas == Deltas.Append(old(currentDelta.Deltas), typeName, DiffAt(prev, cur, i))
    {
      if i >= |prev| {
        currentDelta.AddRecord(typeName, DeltaRecord.Add(i, cur[i]));
      } else if i >= |cur| {
        currentDelta.AddRecord(typeName, Delete(i));
      } else if cur[i].text != prev[i].text {
        currentDelta.AddRecord(typeName, Update(i, cur[i]));
      }
    }

    method DiffLists(typeName: string, prev: seq<Payload>, cur: seq<Payload>)
      modifies currentDelta
      ensures currentDelta.Deltas == Deltas.Append(old(currentDelta.Deltas), typeName, Diff(prev, cur))
    {
      ghost var was := currentDelta.Deltas;
      var maxLen := |cur|;
      if |prev| > maxLen { maxLen := |prev|; }
      for i := 0 to maxLen
        invariant currentDelta.Deltas == Deltas.Append(was, typeName, DiffUpTo(prev, cur, i))
      {
        AppendDiff(was, typeName, prev, cur, i);
        DiffNext(typeName, prev, cur, i);
      }
    }

    /** Without a previous state every record is new. */
    method AddAllRecords(typeName: string, cur: seq<Payload>)
      modifies currentDelta
      ensures currentDelta.Deltas == Deltas.Append(old(currentDelta.Deltas), typeName, Diff([], cur))
    {
      ghost var was := currentDelta.Deltas;
      for i := 0 to |cur|
        invariant currentDelta.Deltas == Deltas.Append(was, typeName, DiffUpTo([], cur, i))
      {
        AppendDiff(was, typeName, [], cur, i);
        currentDelta.AddRecord(typeName, DeltaRecord.Add(i, cur[i]));
      }
    }

    method DiffType(typeName: string)
      requires typeName in currentState && typeName !in primaryKeys
      modifies currentDelta
      ensures currentDelta.Deltas == Deltas.Append(old(currentDelta.Deltas), typeName, Extra(old(Model()), typeName))
    {
      var cur := UnwrapAll(currentState[typeName]);
      if previousState.None? {
        AddAllRecords(typeName, cur);
        return;
      }
      var prev := UnwrapAll(ListOf(previousState.value, typeName));
      DiffLists(typeName, prev, cur);
    }

    method CalculateKeyedTypes()
      requires previousState.Some?
      modifies currentDelta
      ensures currentDelta.Deltas == Extended(old(Model()), primaryKeys.Keys)
    {
      ghost var e := Model();
      var rest := primaryKeys.Keys;
      ghost var done: set<string> := {};
      ExtendedNone(e);
      while rest != {}
        invariant done == primaryKeys.Keys - rest && rest <= primaryKeys.Keys
        invariant currentDelta.Deltas == Extended(e, done)
        decreases |rest|
      {
        var t :| t in rest;
        ExtendedStep(e, done, t);
        ExtraSame(e, Model(), t);
        CalculateDeletesForType(t);
        rest, done := rest - {t}, done + {t};
      }
      assert done == primaryKeys.Keys;
    }

    method DiffTypeStep(ghost e: Engine, ghost done: set<string>, t: string)
      requires t in currentState && t !in primaryKeys && t !in done
      requires Model() == e.(delta := Extended(e, done))
      modifies currentDelta
      ensures currentDelta.Deltas == Extended(e, done + {t})
    {
      ExtendedStep(e, done, t);
      ExtraSame(e, Model(), t);
      DiffType(t);
    }

    method DiffTypes(names: set<string>)
      requires names <= currentState.Keys && names !! primaryKeys.Keys
      modifies currentDelta
      ensures currentDelta.Deltas == Extended(old(Model()), names)
    {
      ghost var e := Model();
      var rest := names;
      ghost var done: set<string> := {};
      ExtendedNone(e);
      while rest != {}
        invariant done == names - rest && rest <= names
        invariant currentDelta.Deltas == Extended(e, done)
        decreases |rest|
      {
        var t :| t in rest;
        DiffTypeStep(e, done, t);
        rest, done := rest - {t}, done + {t};
      }
      assert done == names;
    }

    method GenerateDeltasForNonPKTypes()
      modifies currentDelta
      ensures currentDelta.Deltas == Extended(old(Model()), currentState.Keys - primaryKeys.Keys)
    {
      DiffTypes(currentState.Keys - primaryKeys.Keys);
    }

    method CalculateDeletes()
      modifies currentDelta
      ensures Model() == CalculateDeltas(old(Model()))
    {
      if previousState.None? { return; }
      CalculateKeyedTypes();
      ExtendedTwice(old(Model()), primaryKeys.Keys, currentState.Keys - primaryKeys.Keys);
      assert primaryKeys.Keys + (currentState.Keys - primaryKeys.Keys) == primaryKeys.Keys + currentState.Keys;
      GenerateDeltasForNonPKTypes();
    }

    method GetCurrentDelta() returns (delta: DeltaMap)
      modifies currentDelta
      ensures delta == currentDelta.Deltas == OptimizeMap(old(currentDelta.Deltas))
    {
      currentDelta.OptimizeDeltas();
      delta := currentDelta.Deltas;
    }

    method SetNumShards(typeName: string, count: int)
      modifies this`shardCounts
      ensures shardCounts == old(shardCounts)[typeName := count]
    {
      shardCounts := shardCounts[typeName := count];
    }

    method RecomputeType(typeName: string)
      requires typeName in primaryKeys && typeName in currentState
      modifies this`currentState
      ensures currentState ==
        old(currentState)[typeName := RecomputeList(old(Model()), typeName, old(currentState)[typeName])]
    {
      ghost var e := Model();
      var records := currentState[typeName];
      var field := primaryKeys[typeName];
      var shardCount := NumShards(shardCounts, typeName);
      if shardCount <= 0 { shardCount := 1; }
      var out := records;
      for i := 0 to |records|
        invariant |out| == |records| && out[i..] == records[i..]
        invariant out[..i] == RecomputeList(e, typeName, records[..i])
      {
        assert records[..i + 1][..i] == records[..i];
        ghost var before := out;
        if records[i].Info? && KeyOf(records[i].value, field).Some? {
          out := out[i := records[i].(shard := hash(KeyOf(records[i].value, field).value) % shardCount)];
        }
        assert before[i] == before[i..][0] == records[i];
        assert out[i] == RecomputeOne(e, typeName, records[i]);
        assert out[..i + 1] == before[..i] + [out[i]];
        assert out[i + 1..] == before[i..][1..];
      }
      assert records[..|records|] == records && out[..|records|] == out;
      currentState := currentState[typeName := out];
    }

    method RecomputeStep(ghost e: Engine, ghost done: set<string>, t: string)
      requires t in primaryKeys && t !in done && Model() == e.(current := Recomputed(e, done))
      modifies this`currentState
      ensures currentState == Recomputed(e, done + {t})
    {
      RecomputedStep(e, done, t);
      if t in currentState {
        RecomputeSame(e, Model(), t, e.current[t]);
        RecomputeType(t);
      }
    }

    method RecomputeShardAssignments()
      modifies this`currentState
      ensures Model() == Recompute(old(Model()))
    {
      ghost var e := Model();
      var rest := primaryKeys.Keys;
      ghost var done: set<string> := {};
      RecomputedNone(e);
      while rest != {}
        invariant done == primaryKeys.Keys - rest && rest <= primaryKeys.Keys
        invariant currentState == Recomputed(e, done)
        decreases |rest|
      {
        var t :| t in rest;
        RecomputeStep(e, done, t);
        rest, done := rest - {t}, done + {t};
      }
      assert done == primaryKeys.Keys;
    }

    method ResizeStep(ghost e: Engine, ghost done: set<string>, target: ShardSize, t: string)
      requires t in currentState && t !in done && Model() == e.(shards := Resized(e, target, done))
      modifies this`shardCounts
      ensures Model() == e.(shards := Resized(e, target, done + {t}))
    {
      ResizedStep(e, target, done, t);
      var records := |currentState[t]|;
      if records > target {
        var newShardCount := Quotient(records + target - 1, target);
        if newShardCount < 2 { newShardCount := 2; }
        SetNumShards(t, newShardCount);
      }
    }

    method ResizeTypes(target: ShardSize)
      modifies this`shardCounts
      ensures Model() == old(Model()).(shards := Resized(old(Model()), target, currentState.Keys))
    {
      ghost var e := Model();
      var types := InSomeOrder(currentState.Keys);
      ResizedNone(e, target);
      for i := 0 to |types|
        invariant Model() == e.(shards := Resized(e, target, Members(types[..i])))
      {
        assert Members(types[..i + 1]) == Members(types[..i]) + {types[i]};
        ResizeStep(e, Members(types[..i]), target, types[i]);
      }
      assert Members(types[..|types|]) == currentState.Keys;
    }

    /** The producer's resharding decision followed by the reassignment of shards. */
    method PerformResharding(target: ShardSize)
      modifies this`shardCounts, this`currentState
      ensures Model() == Reshard(old(Model()), target)
    {
      ResizeTypes(target);
      RecomputeShardAssignments();
    }
  }
}
