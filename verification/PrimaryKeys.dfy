/**
 Types with a primary key: the delta of a cycle, addressed by ordinal, is exact.
 */
module PrimaryKeys {
  import opened Basics
  import opened Deltas
  import opened Positional
  import opened WriteEngine

  /** Every value has a readable key, and no key comes twice. */
  predicate KeyedList(vs: seq<Payload>, field: string) {
    && (forall i :: 0 <= i < |vs| ==> KeyOf(vs[i], field).Some?)
    && (forall i, j :: 0 <= i < j < |vs| ==> KeyOf(vs[i], field) != KeyOf(vs[j], field))
  }

  /** Wrapped records whose ordinals are those of their keys. */
  predicate Tagged(n: Numbering, t: string, field: string, rs: seq<Record>) {
    && KeyedList(Values(rs), field)
    && (forall i :: 0 <= i < |rs| ==>
      rs[i].Info? && OrdinalOf(n, t, KeyOf(rs[i].value, field).GetOr("")) == Some(rs[i].ordinal))
  }

  predicate DistinctOrdinals(rs: seq<Record>) {
    && (forall i :: 0 <= i < |rs| ==> rs[i].Info?)
    && (forall i, j :: 0 <= i < j < |rs| ==> rs[i].ordinal != rs[j].ordinal)
  }

  lemma TaggedDistinct(n: Numbering, t: string, field: string, rs: seq<Record>)
    requires Numbered(n) && Tagged(n, t, field, rs)
    ensures DistinctOrdinals(rs)
  {
    forall i, j | 0 <= i < j < |rs| ensures rs[i].ordinal != rs[j].ordinal {
      var k, l := KeyOf(rs[i].value, field).value, KeyOf(rs[j].value, field).value;
      assert KeyOf(Values(rs)[i], field) != KeyOf(Values(rs)[j], field);
      assert NumberedType(KeysOf(n, t), NextOf(n, t));
    }
  }

  lemma TaggedLater(n: Numbering, later: Numbering, t: string, field: string, rs: seq<Record>)
    requires Tagged(n, t, field, rs) && Extends(n, later)
    ensures Tagged(later, t, field, rs)
  {
  }

  lemma TaggedBelow(n: Numbering, t: string, field: string, rs: seq<Record>, i: nat)
    requires Numbered(n) && Tagged(n, t, field, rs) && i < |rs|
    ensures rs[i].ordinal < NextOf(n, t)
  {
    assert NumberedType(KeysOf(n, t), NextOf(n, t));
    assert KeysOf(n, t)[KeyOf(rs[i].value, field).value] in KeysOf(n, t).Values;
  }

  // ----- the ordinal table of a record list -----

  /** What each ordinal holds; bare records have none. */
  function TableOf(rs: seq<Record>): map<nat, Payload> {
    if rs == [] then map[]
    else if rs[|rs| - 1].Plain? then TableOf(rs[..|rs| - 1])
    else TableOf(rs[..|rs| - 1])[rs[|rs| - 1].ordinal := rs[|rs| - 1].value]
  }

  lemma {:induction false} TableAt(rs: seq<Record>, i: nat)
    requires DistinctOrdinals(rs) && i < |rs|
    ensures At(TableOf(rs), rs[i].ordinal) == Some(rs[i].value)
  {
    if i < |rs| - 1 { TableAt(rs[..|rs| - 1], i); }
  }

  lemma {:induction false} TableMisses(rs: seq<Record>, o: nat)
    requires forall i :: 0 <= i < |rs| ==> rs[i].Info? && rs[i].ordinal != o
    ensures At(TableOf(rs), o) == None
  {
    if rs != [] { TableMisses(rs[..|rs| - 1], o); }
  }

  // ----- what the population of a cycle records -----

  predicate Unchanged(prev: map<nat, Payload>, o: nat, text: string) {
    o in prev && prev[o].text == text
  }

  function ChangeOne(prev: map<nat, Payload>, r: Record): seq<DeltaRecord>
    requires r.Info?
  {
    if !r.isUpdate then [Add(r.ordinal, r.value)]
    else if Unchanged(prev, r.ordinal, r.value.text) then []
    else [Update(r.ordinal, r.value)]
  }

  function Changes(prev: map<nat, Payload>, rs: seq<Record>): seq<DeltaRecord>
    requires forall i :: 0 <= i < |rs| ==> rs[i].Info?
  {
    if rs == [] then [] else Changes(prev, rs[..|rs| - 1]) + ChangeOne(prev, rs[|rs| - 1])
  }

  lemma {:induction false} ChangesMiss(prev: map<nat, Payload>, rs: seq<Record>, o: nat)
    requires forall i :: 0 <= i < |rs| ==> rs[i].Info? && rs[i].ordinal != o
    ensures LastFor(Changes(prev, rs), o) == None
  {
    if rs != [] {
      ChangesMiss(prev, rs[..|rs| - 1], o);
      LastForConcat(Changes(prev, rs[..|rs| - 1]), ChangeOne(prev, rs[|rs| - 1]), o);
    }
  }

  lemma {:induction false} ChangesAt(prev: map<nat, Payload>, rs: seq<Record>, i: nat)
    requires DistinctOrdinals(rs) && i < |rs|
    ensures LastFor(Changes(prev, rs), rs[i].ordinal) == LastFor(ChangeOne(prev, rs[i]), rs[i].ordinal)
  {
    var front, r := rs[..|rs| - 1], rs[|rs| - 1];
    LastForConcat(Changes(prev, front), ChangeOne(prev, r), rs[i].ordinal);
    if i < |rs| - 1 {
      ChangesAt(prev, front, i);
    } else {
      ChangesMiss(prev, front, r.ordinal);
    }
  }

  lemma TableRest(rs: seq<Record>, o: nat)
    requires DistinctOrdinals(rs) && rs != [] && rs[0].ordinal != o
    ensures At(TableOf(rs), o) == At(TableOf(rs[1..]), o)
  {
    if i: nat :| 1 <= i < |rs| && rs[i].ordinal == o {
      TableAt(rs, i);
      TableAt(rs[1..], i - 1);
    } else {
      TableMisses(rs, o);
      TableMisses(rs[1..], o);
    }
  }

  /** The search through the previous state is a lookup in its table. */
  lemma {:induction false} ChangedInTable(rs: seq<Record>, o: nat, text: string)
    requires DistinctOrdinals(rs)
    ensures ChangedIn(rs, o, text) <==> !Unchanged(TableOf(rs), o, text)
  {
    if rs == [] {
    } else if rs[0].ordinal == o {
      TableAt(rs, 0);
    } else {
      assert rs == [rs[0]] + rs[1..];
      ChangedInTable(rs[1..], o, text);
      TableRest(rs, o);
    }
  }

  // ----- the invariant of population -----

  /** The records and delta records collected from the values `vs` of one type. */
  ghost predicate Collected(n: Numbering, first: nat, prev: map<nat, Payload>, t: string, field: string,
                            vs: seq<Payload>, cur: seq<Record>, delta: seq<DeltaRecord>) {
    && Values(cur) == vs && Tagged(n, t, field, cur)
    && (forall i :: 0 <= i < |cur| && !cur[i].isUpdate ==> cur[i].ordinal >= first)
    && delta == Changes(prev, cur)
  }

  lemma TaggedSnoc(n: Numbering, t: string, field: string, rs: seq<Record>, r: Record)
    requires Tagged(n, t, field, rs) && r.Info? && KeyedList(Values(rs) + [r.value], field)
    requires OrdinalOf(n, t, KeyOf(r.value, field).GetOr("")) == Some(r.ordinal)
    ensures Tagged(n, t, field, rs + [r])
  {
    assert (rs + [r])[..|rs|] == rs;
    assert Values(rs + [r]) == Values(rs) + [r.value];
  }

  lemma CollectedSnoc(n: Numbering, first: nat, prev: map<nat, Payload>, t: string, field: string,
                      vs: seq<Payload>, cur: seq<Record>, delta: seq<DeltaRecord>, r: Record)
    requires Collected(n, first, prev, t, field, vs, cur, delta)
    requires r.Info? && KeyedList(vs + [r.value], field)
    requires OrdinalOf(n, t, KeyOf(r.value, field).GetOr("")) == Some(r.ordinal)
    requires !r.isUpdate ==> r.ordinal >= first
    ensures Collected(n, first, prev, t, field, vs + [r.value], cur + [r], delta + ChangeOne(prev, r))
  {
    TaggedSnoc(n, t, field, cur, r);
    assert (cur + [r])[..|cur|] == cur;
  }

  lemma CollectedLater(n: Numbering, later: Numbering, first: nat, prev: map<nat, Payload>, t: string, field: string,
                       vs: seq<Payload>, cur: seq<Record>, delta: seq<DeltaRecord>)
    requires Collected(n, first, prev, t, field, vs, cur, delta) && Extends(n, later)
    ensures Collected(later, first, prev, t, field, vs, cur, delta)
  {
    TaggedLater(n, later, t, field, cur);
  }

  /** Population of `rows` since `start`, seen at type `t`. */
  ghost predicate PopulatedSoFar(start: Engine, e: Engine, rows: seq<Payload>, t: string, field: string) {
    && e.primaryKeys == start.primaryKeys && e.previous == start.previous
    && Numbered(e.numbering) && Extends(start.numbering, e.numbering) &&
      NextOf(start.numbering, t) <= NextOf(e.numbering, t)
    && DistinctOrdinals(PreviousOf(start, t))
    && Collected(e.numbering, NextOf(start.numbering, t), TableOf(PreviousOf(start, t)), t, field,
                 OfType(rows, t), ListOf(e.current, t), ListOf(e.delta, t))
  }

  /** Where a cycle for type `t` starts: an empty state over a well-tagged previous one. */
  ghost predicate Ready(start: Engine, t: string, field: string) {
    && t in start.primaryKeys && start.primaryKeys[t] == field
    && start.previous.Some? && start.current == map[] && start.delta == map[]
    && Numbered(start.numbering) && Tagged(start.numbering, t, field, PreviousOf(start, t))
  }

  lemma KeyedSnoc(vs: seq<Payload>, v: Payload, field: string)
    requires KeyedList(vs + [v], field)
    ensures KeyedList(vs, field) && KeyOf(v, field).Some?
    ensures forall i :: 0 <= i < |vs| ==> KeyOf(vs[i], field) != KeyOf(v, field)
  {
    var ws := vs + [v];
    assert ws[|vs|] == v;
    forall i | 0 <= i < |vs|
      ensures KeyOf(vs[i], field).Some? && KeyOf(vs[i], field) != KeyOf(v, field)
    {
      assert ws[i] == vs[i];
    }
    forall i, j | 0 <= i < j < |vs|
      ensures KeyOf(vs[i], field) != KeyOf(vs[j], field)
    {
      assert ws[i] == vs[i] && ws[j] == vs[j];
    }
  }

  lemma ExtendsTrans(a: Numbering, b: Numbering, c: Numbering)
    requires Extends(a, b) && Extends(b, c)
    ensures Extends(a, c)
  {
  }

  lemma OtherType(e: Engine, v: Payload, t: string)
    requires v.typeName != t
    ensures var f := AddValue(e, v);
      && ListOf(f.current, t) == ListOf(e.current, t) && ListOf(f.delta, t) == ListOf(e.delta, t)
      && f.primaryKeys == e.primaryKeys && f.previous == e.previous
      && KeysOf(f.numbering, t) == KeysOf(e.numbering, t) && NextOf(f.numbering, t) == NextOf(e.numbering, t)
  {
  }

  lemma NumberingStep(e: Engine, v: Payload)
    requires Numbered(e.numbering)
    ensures var f := AddValue(e, v); Numbered(f.numbering) && Extends(e.numbering, f.numbering)
  {
    if v.typeName in e.primaryKeys && KeyOf(v, e.primaryKeys[v.typeName]).Some? {
      AssignKeepsNumbered(e.numbering, v.typeName, KeyOf(v, e.primaryKeys[v.typeName]).value);
    }
  }

  /** The record one keyed value adds. */
  function RecordOf(e: Engine, v: Payload, key: string): Record {
    var known := OrdinalOf(e.numbering, v.typeName, key);
    var ordinal := if known.Some? then known.value else NextOf(e.numbering, v.typeName);
    Info(v, ordinal, known.Some?, ShardOf(e.hash, e.shards, v.typeName, key))
  }

  function ChangeRecorded(e: Engine, r: Record): seq<DeltaRecord>
    requires r.Info?
  {
    if !r.isUpdate then [Add(r.ordinal, r.value)]
    else if Changed(e.previous, r.value.typeName, r.ordinal, r.value.text) then [Update(r.ordinal, r.value)]
    else []
  }

  lemma AddKeyedAt(e: Engine, v: Payload, field: string)
    requires v.typeName in e.primaryKeys && e.primaryKeys[v.typeName] == field && KeyOf(v, field).Some?
    ensures var (f, t, r) := (AddValue(e, v), v.typeName, RecordOf(e, v, KeyOf(v, field).value));
      && ListOf(f.current, t) == ListOf(e.current, t) + [r]
      && ListOf(f.delta, t) == ListOf(e.delta, t) + ChangeRecorded(e, r)
      && f.numbering == Assign(e.numbering, t, KeyOf(v, field).value)
      && f.primaryKeys == e.primaryKeys && f.previous == e.previous
  {
  }

  lemma ChangeRecordedIs(start: Engine, e: Engine, r: Record, t: string, field: string)
    requires Ready(start, t, field) && e.previous == start.previous && DistinctOrdinals(PreviousOf(start, t))
    requires r.Info? && r.value.typeName == t
    ensures ChangeRecorded(e, r) == ChangeOne(TableOf(PreviousOf(start, t)), r)
  {
    ChangedInTable(PreviousOf(start, t), r.ordinal, r.value.text);
  }

  /** One more tagged record keeps the invariant. */
  lemma PopulatingSnoc(start: Engine, e: Engine, f: Engine, rows: seq<Payload>, r: Record, t: string, field: string)
    requires Ready(start, t, field) && PopulatedSoFar(start, e, rows, t, field)
    requires r.Info? && r.value.typeName == t && KeyedList(OfType(rows, t) + [r.value], field)
    requires f.primaryKeys == e.primaryKeys && f.previous == e.previous
    requires Numbered(f.numbering) && Extends(e.numbering, f.numbering)
    requires NextOf(e.numbering, t) <= NextOf(f.numbering, t)
    requires ListOf(f.current, t) == ListOf(e.current, t) + [r]
    requires OrdinalOf(f.numbering, t, KeyOf(r.value, field).GetOr("")) == Some(r.ordinal)
    requires !r.isUpdate ==> r.ordinal >= NextOf(start.numbering, t)
    requires ListOf(f.delta, t) == ListOf(e.delta, t) + ChangeOne(TableOf(PreviousOf(start, t)), r)
    ensures PopulatedSoFar(start, f, rows + [r.value], t, field)
  {
    ExtendsTrans(start.numbering, e.numbering, f.numbering);
    var first, prev := NextOf(start.numbering, t), TableOf(PreviousOf(start, t));
    CollectedLater(e.numbering, f.numbering, first, prev, t, field, OfType(rows, t), ListOf(e.current, t),
                   ListOf(e.delta, t));
    CollectedSnoc(f.numbering, first, prev, t, field, OfType(rows, t), ListOf(e.current, t), ListOf(e.delta, t), r);
    assert (rows + [r.value])[..|rows|] == rows;
  }

  lemma PopulatingOther(start: Engine, e: Engine, rows: seq<Payload>, v: Payload, t: string, field: string)
    requires PopulatedSoFar(start, e, rows, t, field) && v.typeName != t
    ensures PopulatedSoFar(start, AddValue(e, v), rows + [v], t, field)
  {
    var f := AddValue(e, v);
    NumberingStep(e, v);
    OtherType(e, v, t);
    ExtendsTrans(start.numbering, e.numbering, f.numbering);
    CollectedLater(e.numbering, f.numbering, NextOf(start.numbering, t), TableOf(PreviousOf(start, t)), t, field,
                   OfType(rows, t), ListOf(e.current, t), ListOf(e.delta, t));
    assert (rows + [v])[..|rows|] == rows;
    assert OfType(rows, t) + [] == OfType(rows, t);
  }

  lemma PopulatingSame(start: Engine, e: Engine, rows: seq<Payload>, v: Payload, t: string, field: string)
    requires Ready(start, t, field) && PopulatedSoFar(start, e, rows, t, field)
    requires v.typeName == t && KeyedList(OfType(rows, t) + [v], field)
    ensures PopulatedSoFar(start, AddValue(e, v), rows + [v], t, field)
  {
    KeyedSnoc(OfType(rows, t), v, field);
    var key := KeyOf(v, field).value;
    var r := RecordOf(e, v, key);
    AddKeyedAt(e, v, field);
    NumberingStep(e, v);
    AssignKeepsNumbered(e.numbering, t, key);
    ChangeRecordedIs(start, e, r, t, field);
    PopulatingSnoc(start, e, AddValue(e, v), rows, r, t, field);
  }

  lemma PopulatingNone(start: Engine, t: string, field: string)
    requires Ready(start, t, field)
    ensures PopulatedSoFar(start, start, [], t, field)
  {
    TaggedDistinct(start.numbering, t, field, PreviousOf(start, t));
    assert ListOf(start.current, t) == [] && ListOf(start.delta, t) == [];
  }

  lemma OfTypeFront(rows: seq<Payload>, t: string, field: string)
    requires rows != [] && KeyedList(OfType(rows, t), field)
    ensures KeyedList(OfType(rows[..|rows| - 1], t), field)
  {
    var v, front := rows[|rows| - 1], OfType(rows[..|rows| - 1], t);
    if v.typeName == t { KeyedSnoc(front, v, field); } else { assert front + [] == front; }
  }

  lemma PopulatingFold(start: Engine, front: seq<Payload>, v: Payload, rows: seq<Payload>, t: string, field: string)
    requires rows == front + [v] && PopulatedSoFar(start, AddValue(AddAll(start, front), v), front + [v], t, field)
    ensures PopulatedSoFar(start, AddAll(start, rows), rows, t, field)
  {
    assert rows[..|rows| - 1] == front;
  }

  lemma KeyedFront(rows: seq<Payload>, t: string, field: string)
    requires rows != [] && rows[|rows| - 1].typeName == t && KeyedList(OfType(rows, t), field)
    ensures KeyedList(OfType(rows[..|rows| - 1], t) + [rows[|rows| - 1]], field)
  {
  }

  /** Population keeps the numbering and records, per key, exactly the change against the previous state. */
  lemma {:induction false} PopulateKeyed(start: Engine, rows: seq<Payload>, t: string, field: string)
    requires Ready(start, t, field) && KeyedList(OfType(rows, t), field)
    ensures PopulatedSoFar(start, AddAll(start, rows), rows, t, field)
  {
    if rows == [] {
      PopulatingNone(start, t, field);
    } else {
      var front, v := rows[..|rows| - 1], rows[|rows| - 1];
      assert rows == front + [v];
      OfTypeFront(rows, t, field);
      PopulateKeyed(start, front, t, field);
      if v.typeName == t {
        KeyedFront(rows, t, field);
        PopulatingSame(start, AddAll(start, front), front, v, t, field);
      } else {
        PopulatingOther(start, AddAll(start, front), front, v, t, field);
      }
      PopulatingFold(start, front, v, rows, t, field);
    }
  }

  // ----- deletes by omission -----

  lemma TaggedFront(n: Numbering, t: string, field: string, rs: seq<Record>)
    requires Tagged(n, t, field, rs) && rs != []
    ensures Tagged(n, t, field, rs[..|rs| - 1])
  {
    KeyedSnoc(Values(rs[..|rs| - 1]), rs[|rs| - 1].value, field);
  }

  lemma {:induction false} OmittedOnly(n: Numbering, t: string, field: string, prev: seq<Record>, keys: set<string>,
                                       r: DeltaRecord)
    requires Tagged(n, t, field, prev) && r in Omitted(n, t, field, prev, keys)
    ensures r.Delete?
    ensures exists i ::
      0 <= i < |prev| && prev[i].ordinal == r.ordinal && KeyOf(prev[i].value, field).GetOr("") !in keys
  {
    var front, last := prev[..|prev| - 1], prev[|prev| - 1];
    if r in Omitted(n, t, field, front, keys) {
      TaggedFront(n, t, field, prev);
      OmittedOnly(n, t, field, front, keys, r);
      var i :| 0 <= i < |front| && front[i].ordinal == r.ordinal && KeyOf(front[i].value, field).GetOr("") !in keys;
      assert prev[i] == front[i];
    } else {
      assert prev[|prev| - 1].ordinal == r.ordinal;
    }
  }

  lemma {:induction false} OmittedHas(n: Numbering, t: string, field: string, prev: seq<Record>, keys: set<string>,
                                      i: nat)
    requires Tagged(n, t, field, prev) && i < |prev| && KeyOf(prev[i].value, field).GetOr("") !in keys
    ensures Delete(prev[i].ordinal) in Omitted(n, t, field, prev, keys)
  {
    if i < |prev| - 1 {
      TaggedFront(n, t, field, prev);
      OmittedHas(n, t, field, prev[..|prev| - 1], keys, i);
    }
  }

  lemma KeysOfTagged(n: Numbering, t: string, field: string, rs: seq<Record>)
    requires Tagged(n, t, field, rs)
    ensures forall i :: 0 <= i < |rs| ==>
      KeyOf(rs[i].value, field).Some? && KeyOf(rs[i].value, field).value in CurrentKeys(rs, field)
    ensures forall k :: k in CurrentKeys(rs, field) ==>
      exists i :: 0 <= i < |rs| && KeyOf(rs[i].value, field) == Some(k)
  {
    forall i | 0 <= i < |rs|
      ensures KeyOf(rs[i].value, field).Some? && KeyOf(rs[i].value, field).value in CurrentKeys(rs, field)
    {
      assert KeyOf(Values(rs)[i], field).Some?;
      assert rs[i] in rs;
    }
  }

  /** Equal ordinals belong to equal keys. */
  lemma SameOrdinalSameKey(n: Numbering, t: string, field: string, a: seq<Record>, i: nat, b: seq<Record>, j: nat)
    requires Numbered(n) && Tagged(n, t, field, a) && Tagged(n, t, field, b) && i < |a| && j < |b|
    ensures a[i].ordinal == b[j].ordinal <==> KeyOf(a[i].value, field) == KeyOf(b[j].value, field)
  {
    assert NumberedType(KeysOf(n, t), NextOf(n, t));
    assert KeyOf(Values(a)[i], field).Some? && KeyOf(Values(b)[j], field).Some?;
  }

  // ----- the delta of a keyed type is exact -----

  predicate SameAt(x: Option<Payload>, y: Option<Payload>) {
    (x.None? && y.None?) || (x.Some? && y.Some? && x.value.text == y.value.text)
  }

  /** The two tables have the same ordinals and read the same at each. */
  ghost predicate ReadsAs(a: map<nat, Payload>, b: map<nat, Payload>) {
    forall o: nat :: SameAt(At(a, o), At(b, o))
  }

  /** A state's table, the previous one, and the two halves of the delta between them. */
  ghost predicate Delta(n: Numbering, t: string, field: string, prev: seq<Record>, cur: seq<Record>,
                        changes: seq<DeltaRecord>, omitted: seq<DeltaRecord>) {
    && Numbered(n) && Tagged(n, t, field, prev) && Tagged(n, t, field, cur)
    && DistinctOrdinals(prev) && DistinctOrdinals(cur)
    && changes == Changes(TableOf(prev), cur)
    && omitted == Omitted(n, t, field, prev, CurrentKeys(cur, field))
  }

  lemma OmittedMisses(n: Numbering, t: string, field: string, prev: seq<Record>, cur: seq<Record>,
                      changes: seq<DeltaRecord>, omitted: seq<DeltaRecord>, i: nat)
    requires Delta(n, t, field, prev, cur, changes, omitted) && i < |cur|
    ensures LastFor(omitted, cur[i].ordinal) == None
  {
    LastForOrdinal(omitted, cur[i].ordinal);
    if LastFor(omitted, cur[i].ordinal).Some? {
      var r := LastFor(omitted, cur[i].ordinal).value;
      OmittedOnly(n, t, field, prev, CurrentKeys(cur, field), r);
      var j :| 0 <= j < |prev| && prev[j].ordinal == r.ordinal &&
        KeyOf(prev[j].value, field).GetOr("") !in CurrentKeys(cur, field);
      KeysOfTagged(n, t, field, cur);
      SameOrdinalSameKey(n, t, field, cur, i, prev, j);
    }
  }

  lemma ExactPresent(n: Numbering, t: string, field: string, prev: seq<Record>, cur: seq<Record>,
                     changes: seq<DeltaRecord>, omitted: seq<DeltaRecord>, i: nat)
    requires Delta(n, t, field, prev, cur, changes, omitted) && i < |cur|
    ensures SameAt(At(ApplyAll(TableOf(prev), changes + omitted), cur[i].ordinal), At(TableOf(cur), cur[i].ordinal))
  {
    var o := cur[i].ordinal;
    ApplyAllAt(TableOf(prev), changes + omitted, o);
    LastForConcat(changes, omitted, o);
    OmittedMisses(n, t, field, prev, cur, changes, omitted, i);
    ChangesAt(TableOf(prev), cur, i);
    TableAt(cur, i);
  }

  lemma KeyGone(n: Numbering, t: string, field: string, prev: seq<Record>, j: nat, cur: seq<Record>)
    requires Numbered(n) && Tagged(n, t, field, prev) && Tagged(n, t, field, cur) && j < |prev|
    requires forall i :: 0 <= i < |cur| ==> cur[i].ordinal != prev[j].ordinal
    ensures KeyOf(prev[j].value, field).GetOr("") !in CurrentKeys(cur, field)
  {
    KeysOfTagged(n, t, field, prev);
    KeysOfTagged(n, t, field, cur);
    forall i: nat | i < |cur| ensures KeyOf(cur[i].value, field) != KeyOf(prev[j].value, field) {
      SameOrdinalSameKey(n, t, field, cur, i, prev, j);
    }
  }

  lemma ExactAbsent(n: Numbering, t: string, field: string, prev: seq<Record>, cur: seq<Record>,
                    changes: seq<DeltaRecord>, omitted: seq<DeltaRecord>, o: nat)
    requires Delta(n, t, field, prev, cur, changes, omitted) && forall i :: 0 <= i < |cur| ==> cur[i].ordinal != o
    ensures At(ApplyAll(TableOf(prev), changes + omitted), o) == None == At(TableOf(cur), o)
  {
    ApplyAllAt(TableOf(prev), changes + omitted, o);
    LastForConcat(changes, omitted, o);
    ChangesMiss(TableOf(prev), cur, o);
    TableMisses(cur, o);
    LastForOrdinal(omitted, o);
    if LastFor(omitted, o).Some? {
      OmittedOnly(n, t, field, prev, CurrentKeys(cur, field), LastFor(omitted, o).value);
    } else if j: nat :| j < |prev| && prev[j].ordinal == o {
      KeyGone(n, t, field, prev, j, cur);
      OmittedHas(n, t, field, prev, CurrentKeys(cur, field), j);
    } else {
      TableMisses(prev, o);
    }
  }

  lemma DeltaExact(n: Numbering, t: string, field: string, prev: seq<Record>, cur: seq<Record>,
                   changes: seq<DeltaRecord>, omitted: seq<DeltaRecord>)
    requires Delta(n, t, field, prev, cur, changes, omitted)
    ensures ReadsAs(ApplyAll(TableOf(prev), changes + omitted), TableOf(cur))
  {
    forall o: nat ensures SameAt(At(ApplyAll(TableOf(prev), changes + omitted), o), At(TableOf(cur), o)) {
      if i: nat :| i < |cur| && cur[i].ordinal == o {
        ExactPresent(n, t, field, prev, cur, changes, omitted, i);
      } else {
        ExactAbsent(n, t, field, prev, cur, changes, omitted, o);
      }
    }
  }

  /** No ordinal carries a delete next to an add or update. */
  ghost predicate NoClash(rs: seq<DeltaRecord>) {
    forall r, s :: r in rs && s in rs && r.ordinal == s.ordinal ==> r.Delete? == s.Delete?
  }

  lemma {:induction false} ChangesFrom(prev: map<nat, Payload>, rs: seq<Record>, r: DeltaRecord)
    requires (forall i :: 0 <= i < |rs| ==> rs[i].Info?) && r in Changes(prev, rs)
    ensures !r.Delete? && exists i :: 0 <= i < |rs| && rs[i].ordinal == r.ordinal
  {
    var front, last := rs[..|rs| - 1], rs[|rs| - 1];
    if r in Changes(prev, front) {
      ChangesFrom(prev, front, r);
      var i :| 0 <= i < |front| && front[i].ordinal == r.ordinal;
      assert rs[i] == front[i];
    } else {
      assert rs[|rs| - 1].ordinal == r.ordinal;
    }
  }

  lemma DeltaNoClash(n: Numbering, t: string, field: string, prev: seq<Record>, cur: seq<Record>,
                     changes: seq<DeltaRecord>, omitted: seq<DeltaRecord>)
    requires Delta(n, t, field, prev, cur, changes, omitted)
    ensures NoClash(changes + omitted)
  {
    forall r, s | r in changes && s in omitted ensures r.ordinal != s.ordinal {
      ChangesFrom(TableOf(prev), cur, r);
      var i :| 0 <= i < |cur| && cur[i].ordinal == r.ordinal;
      OmittedMisses(n, t, field, prev, cur, changes, omitted, i);
      LastForOrdinal(omitted, r.ordinal);
    }
    forall r | r in changes ensures !r.Delete? { ChangesFrom(TableOf(prev), cur, r); }
    forall s | s in omitted ensures s.Delete? { OmittedOnly(n, t, field, prev, CurrentKeys(cur, field), s); }
  }

  /** Without clashes merging keeps the meaning. */
  lemma NoClashMerges(rs: seq<DeltaRecord>, m: map<nat, Payload>)
    requires NoClash(rs)
    ensures ApplyAll(m, Optimize(rs)) == ApplyAll(m, rs)
  {
    forall o: nat | Delete(o) in rs ensures LastFor(rs, o) == Some(Delete(o)) {
      LastForOrdinal(rs, o);
      assert Delete(o).ordinal == o;
    }
    OptimizeKeepsMeaning(rs);
  }

  /**
   The exact delta of a keyed type.  With readable, distinct keys in a cycle, the
   cycle's delta, merged or not, applied by ordinal to the previous table gives the
   current one, as `fmt` reads it: for keys kept, changed, added, omitted, and
   omitted earlier and now back.  No ordinal is both deleted and written.
   */
  lemma KeyedDeltaExact(start: Engine, rows: seq<Payload>, t: string, field: string)
    requires Ready(start, t, field) && KeyedList(OfType(rows, t), field)
    ensures var (e, prev) := (AddAll(start, rows), PreviousOf(start, t));
      var (cur, d) := (ListOf(e.current, t), ListOf(CalculateDeltas(e).delta, t));
      && DistinctOrdinals(prev) && DistinctOrdinals(cur) && Values(cur) == OfType(rows, t)
      && ReadsAs(ApplyAll(TableOf(prev), d), TableOf(cur))
      && ReadsAs(ApplyAll(TableOf(prev), Optimize(d)), TableOf(cur))
      && NoClash(d)
      && Numbered(e.numbering) && Extends(start.numbering, e.numbering) && Tagged(e.numbering, t, field, cur)
  {
    PopulateKeyed(start, rows, t, field);
    var e, prev := AddAll(start, rows), PreviousOf(start, t);
    var cur, d := ListOf(e.current, t), ListOf(CalculateDeltas(e).delta, t);
    CalculatedAt(e, t);
    TaggedLater(start.numbering, e.numbering, t, field, prev);
    TaggedDistinct(e.numbering, t, field, cur);
    var changes, omitted := ListOf(e.delta, t), Extra(e, t);
    DeltaExact(e.numbering, t, field, prev, cur, changes, omitted);
    DeltaNoClash(e.numbering, t, field, prev, cur, changes, omitted);
    NoClashMerges(d, TableOf(prev));
  }
}
