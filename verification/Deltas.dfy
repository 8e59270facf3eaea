/** Delta sets: recording changes, merging them per ordinal, and what they mean. */
module Deltas {
  import opened Basics
  import opened Sorting

  datatype DeltaRecord =
    | Add(ordinal: nat, value: Payload)
    | Update(ordinal: nat, value: Payload)
    | Delete(ordinal: nat)

  type DeltaMap = map<string, seq<DeltaRecord>>

  // ----- the ordinal-addressed meaning of a delta -----

  /** One record against a table from ordinals to payloads: add and update put, delete removes. */
  function ApplyOne(m: map<nat, Payload>, r: DeltaRecord): map<nat, Payload> {
    if r.Delete? then m - {r.ordinal} else m[r.ordinal := r.value]
  }

  function ApplyAll(m: map<nat, Payload>, rs: seq<DeltaRecord>): map<nat, Payload> {
    if rs == [] then m else ApplyOne(ApplyAll(m, rs[..|rs| - 1]), rs[|rs| - 1])
  }

  /** The last record of an ordinal, which alone decides what `ApplyAll` leaves there. */
  function LastFor(rs: seq<DeltaRecord>, o: nat): Option<DeltaRecord> {
    if rs == [] then None
    else if rs[|rs| - 1].ordinal == o then Some(rs[|rs| - 1])
    else LastFor(rs[..|rs| - 1], o)
  }

  function Effect(last: Option<DeltaRecord>, before: Option<Payload>): Option<Payload> {
    match last
    case None => before
    case Some(Delete(_)) => None
    case Some(r) => Some(r.value)
  }

  function At(m: map<nat, Payload>, o: nat): Option<Payload> {
    if o in m then Some(m[o]) else None
  }

  lemma {:induction false} ApplyAllAt(m: map<nat, Payload>, rs: seq<DeltaRecord>, o: nat)
    ensures At(ApplyAll(m, rs), o) == Effect(LastFor(rs, o), At(m, o))
  {
    if rs != [] {
      ApplyAllAt(m, rs[..|rs| - 1], o);
    }
  }

  lemma TablesEqual(a: map<nat, Payload>, b: map<nat, Payload>)
    requires forall o: nat :: At(a, o) == At(b, o)
    ensures a == b
  {
    assert forall o: nat :: At(a, o) == At(b, o) ==> (o in a <==> o in b);
    assert a.Keys == b.Keys;
    forall o: nat | o in a ensures a[o] == b[o] {
      assert At(a, o) == At(b, o);
    }
  }

  lemma {:induction false} LastForOrdinal(rs: seq<DeltaRecord>, o: nat)
    ensures LastFor(rs, o).Some? <==> exists i :: 0 <= i < |rs| && rs[i].ordinal == o
    ensures LastFor(rs, o).Some? ==> LastFor(rs, o).value.ordinal == o && LastFor(rs, o).value in rs
  {
    if rs != [] {
      LastForOrdinal(rs[..|rs| - 1], o);
    }
  }

  lemma {:induction false} LastForConcat(a: seq<DeltaRecord>, b: seq<DeltaRecord>, o: nat)
    ensures LastFor(a + b, o) == if LastFor(b, o).Some? then LastFor(b, o) else LastFor(a, o)
  {
    if b == [] {
      assert a + b == a;
    } else {
      assert (a + b)[..|a + b| - 1] == a + b[..|b| - 1];
      LastForConcat(a, b[..|b| - 1], o);
    }
  }

  // ----- merging the records of one ordinal -----

  /** What survives merging: the last record of the ordinal, except that a delete always wins. */
  function Final(rs: seq<DeltaRecord>, o: nat): Option<DeltaRecord> {
    if Delete(o) in rs then Some(Delete(o)) else LastFor(rs, o)
  }

  ghost predicate Increasing(rs: seq<DeltaRecord>) {
    forall i, j :: 0 <= i < j < |rs| ==> rs[i].ordinal < rs[j].ordinal
  }

  /** `out` lists, by increasing ordinal, exactly the surviving record of every ordinal of `rs`. */
  ghost predicate Optimized(rs: seq<DeltaRecord>, out: seq<DeltaRecord>) {
    Increasing(out) && forall o: nat :: LastFor(out, o) == Final(rs, o)
  }

  function Merge(acc: seq<DeltaRecord>, r: DeltaRecord): seq<DeltaRecord> {
    if acc == [] || acc[|acc| - 1].ordinal < r.ordinal then acc + [r]
    else if acc[|acc| - 1].ordinal == r.ordinal then
      if acc[|acc| - 1].Delete? then acc else acc[..|acc| - 1] + [r]
    else Merge(acc[..|acc| - 1], r) + [acc[|acc| - 1]]
  }

  function Optimize(rs: seq<DeltaRecord>): seq<DeltaRecord> {
    if rs == [] then [] else Merge(Optimize(rs[..|rs| - 1]), rs[|rs| - 1])
  }

  lemma {:induction false} MergeAt(acc: seq<DeltaRecord>, r: DeltaRecord, o: nat)
    requires Increasing(acc)
    ensures LastFor(Merge(acc, r), o) ==
      (if o == r.ordinal && LastFor(acc, o) != Some(Delete(o)) then Some(r) else LastFor(acc, o))
  {
    if acc == [] || acc[|acc| - 1].ordinal < r.ordinal {
      LastForConcat(acc, [r], o);
      LastForOrdinal(acc, o);
    } else if acc[|acc| - 1].ordinal == r.ordinal {
      LastForConcat(acc[..|acc| - 1], [r], o);
    } else {
      MergeAt(acc[..|acc| - 1], r, o);
      LastForConcat(Merge(acc[..|acc| - 1], r), [acc[|acc| - 1]], o);
    }
  }

  lemma {:induction false} MergeIncreasing(acc: seq<DeltaRecord>, r: DeltaRecord)
    requires Increasing(acc)
    ensures Increasing(Merge(acc, r))
    ensures forall x :: x in Merge(acc, r) ==> x in acc || x == r
  {
    if acc != [] && acc[|acc| - 1].ordinal > r.ordinal {
      var m := Merge(acc[..|acc| - 1], r);
      MergeIncreasing(acc[..|acc| - 1], r);
      forall i | 0 <= i < |m| ensures m[i].ordinal < acc[|acc| - 1].ordinal {
        assert m[i] in acc[..|acc| - 1] || m[i] == r;
      }
    }
  }

  lemma {:induction false} OptimizeIsOptimized(rs: seq<DeltaRecord>)
    ensures Optimized(rs, Optimize(rs))
  {
    if rs != [] {
      var front, r := rs[..|rs| - 1], rs[|rs| - 1];
      OptimizeIsOptimized(front);
      MergeIncreasing(Optimize(front), r);
      assert rs == front + [r];
      forall o: nat ensures LastFor(Optimize(rs), o) == Final(rs, o) {
        MergeAt(Optimize(front), r, o);
        assert LastFor(Optimize(front), o) == Final(front, o);
        assert Delete(o) in rs <==> Delete(o) in front || r == Delete(o);
        LastForOrdinal(front, o);
      }
    }
  }

  /** Two increasing lists with the same record at every ordinal are the same list. */
  lemma {:induction false} OptimizedUnique(a: seq<DeltaRecord>, b: seq<DeltaRecord>)
    requires Increasing(a) && Increasing(b) && |a| >= |b|
    requires forall o: nat :: LastFor(a, o) == LastFor(b, o)
    ensures a == b
  {
    if a != [] {
      var x := a[|a| - 1];
      assert LastFor(a, x.ordinal) == Some(x);
      LastForOrdinal(b, x.ordinal);
      var y := b[|b| - 1];
      assert LastFor(b, y.ordinal) == Some(y);
      LastForOrdinal(a, y.ordinal);
      assert x.ordinal == y.ordinal;
      var a0, b0 := a[..|a| - 1], b[..|b| - 1];
      forall o: nat ensures LastFor(a0, o) == LastFor(b0, o) {
        LastForOrdinal(a0, o);
        LastForOrdinal(b0, o);
        assert LastFor(a, o) == LastFor(b, o);
      }
      OptimizedUnique(a0, b0);
      assert a == a0 + [x] && b == b0 + [y];
    }
  }

  /** Order of merging does not matter: only one list is an optimized form of `rs`. */
  lemma OptimizedIsOptimize(rs: seq<DeltaRecord>, out: seq<DeltaRecord>)
    requires Optimized(rs, out)
    ensures out == Optimize(rs)
  {
    OptimizeIsOptimized(rs);
    if |out| >= |Optimize(rs)| {
      OptimizedUnique(out, Optimize(rs));
    } else {
      OptimizedUnique(Optimize(rs), out);
    }
  }

  /** A list already in increasing order is its own optimized form. */
  lemma IncreasingIsOptimized(rs: seq<DeltaRecord>)
    requires Increasing(rs)
    ensures Optimize(rs) == rs
  {
    forall o: nat ensures LastFor(rs, o) == Final(rs, o) {
      LastForOrdinal(rs, o);
    }
    OptimizedIsOptimize(rs, rs);
  }

  function Ordinals(rs: seq<DeltaRecord>): set<nat> {
    set r | r in rs :: r.ordinal
  }

  lemma InOrdinals(rs: seq<DeltaRecord>, o: nat)
    ensures o in Ordinals(rs) <==> LastFor(rs, o).Some?
  {
    LastForOrdinal(rs, o);
  }

  /** Increasing ordinals, exactly the ordinals of the input, and a second pass changes nothing. */
  lemma OptimizeShape(rs: seq<DeltaRecord>)
    ensures Increasing(Optimize(rs))
    ensures Ordinals(Optimize(rs)) == Ordinals(rs)
    ensures Optimize(Optimize(rs)) == Optimize(rs)
  {
    OptimizeIsOptimized(rs);
    forall o: nat ensures o in Ordinals(Optimize(rs)) <==> o in Ordinals(rs) {
      InOrdinals(rs, o);
      InOrdinals(Optimize(rs), o);
      assert LastFor(Optimize(rs), o) == Final(rs, o);
      LastForOrdinal(rs, o);
    }
    IncreasingIsOptimized(Optimize(rs));
  }

  lemma OptimizeEmpty(rs: seq<DeltaRecord>)
    ensures Optimize(rs) == [] <==> rs == []
  {
    OptimizeShape(rs);
    if rs != [] {
      assert rs[0].ordinal in Ordinals(Optimize(rs));
    }
  }

  /** No ordinal ends in an add or update that an earlier delete of it would swallow. */
  ghost predicate DeletesAreFinal(rs: seq<DeltaRecord>) {
    forall o: nat :: Delete(o) in rs ==> LastFor(rs, o) == Some(Delete(o))
  }

  /** Merging keeps the meaning of a list on every table exactly when deletes are final in it. */
  lemma OptimizeKeepsMeaning(rs: seq<DeltaRecord>)
    ensures (forall m: map<nat, Payload> :: ApplyAll(m, Optimize(rs)) == ApplyAll(m, rs)) <==> DeletesAreFinal(rs)
  {
    OptimizeIsOptimized(rs);
    if DeletesAreFinal(rs) {
      forall m: map<nat, Payload> ensures ApplyAll(m, Optimize(rs)) == ApplyAll(m, rs) {
        forall o: nat ensures At(ApplyAll(m, Optimize(rs)), o) == At(ApplyAll(m, rs), o) {
          ApplyAllAt(m, rs, o);
          ApplyAllAt(m, Optimize(rs), o);
        }
        TablesEqual(ApplyAll(m, Optimize(rs)), ApplyAll(m, rs));
      }
    } else {
      var o: nat :| Delete(o) in rs && LastFor(rs, o) != Some(Delete(o));
      LastForOrdinal(rs, o);
      var m: map<nat, Payload> := map[];
      ApplyAllAt(m, rs, o);
      ApplyAllAt(m, Optimize(rs), o);
      assert ApplyAll(m, Optimize(rs)) != ApplyAll(m, rs);
    }
  }

  // ----- whole delta sets -----

  function OptimizeMap(d: DeltaMap): DeltaMap {
    map t | t in d :: Optimize(d[t])
  }

  function Append(d: DeltaMap, t: string, rs: seq<DeltaRecord>): DeltaMap {
    if rs == [] then d else d[t := ListOf(d, t) + rs]
  }

  predicate EmptyMap(d: DeltaMap) {
    forall t :: t in d ==> d[t] == []
  }

  lemma OptimizeMapIdempotent(d: DeltaMap)
    ensures OptimizeMap(OptimizeMap(d)) == OptimizeMap(d)
    ensures EmptyMap(OptimizeMap(d)) <==> EmptyMap(d)
  {
    forall t | t in d ensures Optimize(Optimize(d[t])) == Optimize(d[t]) && (Optimize(d[t]) == [] <==> d[t] == []) {
      OptimizeShape(d[t]);
      OptimizeEmpty(d[t]);
    }
    if EmptyMap(OptimizeMap(d)) {
      forall t | t in d ensures d[t] == [] {
        assert OptimizeMap(d)[t] == [];
      }
    }
  }

  lemma InsertKeepsOrder(s: seq<DeltaRecord>, k: nat, r: DeltaRecord)
    requires Increasing(s) && k <= |s|
    requires k > 0 ==> s[k - 1].ordinal < r.ordinal
    requires k < |s| ==> r.ordinal < s[k].ordinal
    ensures Increasing(s[..k] + [r] + s[k..])
  {
  }

  lemma InsertAt(s: seq<DeltaRecord>, k: nat, r: DeltaRecord, o: nat)
    requires k <= |s| && r.ordinal !in Ordinals(s)
    ensures LastFor(s[..k] + [r] + s[k..], o) == if o == r.ordinal then Some(r) else LastFor(s, o)
  {
    assert s == s[..k] + s[k..];
    LastForConcat(s[..k] + [r], s[k..], o);
    LastForConcat(s[..k], [r], o);
    LastForConcat(s[..k], s[k..], o);
    InOrdinals(s[k..], o);
  }

  method InsertByOrdinal(s: seq<DeltaRecord>, r: DeltaRecord) returns (out: seq<DeltaRecord>)
    requires Increasing(s) && r.ordinal !in Ordinals(s)
    ensures Increasing(out)
    ensures forall x :: x in out <==> x in s || x == r
    ensures forall o: nat :: LastFor(out, o) == if o == r.ordinal then Some(r) else LastFor(s, o)
  {
    var k := |s|;
    while k > 0 && r.ordinal < s[k - 1].ordinal
      invariant 0 <= k <= |s|
      invariant k < |s| ==> r.ordinal < s[k].ordinal
    {
      k := k - 1;
    }
    assert k > 0 ==> s[k - 1].ordinal in Ordinals(s);
    InsertKeepsOrder(s, k, r);
    forall o: nat ensures LastFor(s[..k] + [r] + s[k..], o) == if o == r.ordinal then Some(r) else LastFor(s, o) {
      InsertAt(s, k, r, o);
    }
    out := s[..k] + [r] + s[k..];
  }

  ghost predicate OnePerOrdinal(rs: seq<DeltaRecord>) {
    forall i, j :: 0 <= i < j < |rs| ==> rs[i].ordinal != rs[j].ordinal
  }

  /** Sorting by ordinal, for records with distinct ordinals: their order is then fully decided. */
  method SortByOrdinal(rs: seq<DeltaRecord>) returns (out: seq<DeltaRecord>)
    requires OnePerOrdinal(rs)
    ensures Increasing(out)
    ensures forall x :: x in out <==> x in rs
    ensures forall o: nat :: LastFor(out, o) == LastFor(rs, o)
  {
    out := [];
    for i := 0 to |rs|
      invariant Increasing(out)
      invariant forall x :: x in out <==> x in rs[..i]
      invariant forall o: nat :: LastFor(out, o) == LastFor(rs[..i], o)
    {
      assert rs[..i + 1] == rs[..i] + [rs[i]];
      forall x | x in out ensures x.ordinal != rs[i].ordinal {
        assert x in rs[..i];
      }
      out := InsertByOrdinal(out, rs[i]);
      forall o: nat ensures LastFor(rs[..i + 1], o) == if o == rs[i].ordinal then Some(rs[i]) else LastFor(rs[..i], o) {
        LastForConcat(rs[..i], [rs[i]], o);
      }
    }
    assert rs[..|rs|] == rs;
  }

  ghost function ListAt(m: map<nat, seq<DeltaRecord>>, o: nat): seq<DeltaRecord> {
    if o in m then m[o] else []
  }

  /** The records of ordinal `o`, in order. */
  ghost function Group(rs: seq<DeltaRecord>, o: nat): seq<DeltaRecord> {
    if rs == [] then []
    else Group(rs[..|rs| - 1], o) + if rs[|rs| - 1].ordinal == o then [rs[|rs| - 1]] else []
  }

  method GroupByOrdinal(records: seq<DeltaRecord>) returns (ordinalMap: map<nat, seq<DeltaRecord>>)
    ensures forall o: nat :: ListAt(ordinalMap, o) == Group(records, o)
    ensures forall o: nat :: o in ordinalMap ==> ordinalMap[o] != []
  {
    ordinalMap := map[];
    for i := 0 to |records|
      invariant forall o: nat :: ListAt(ordinalMap, o) == Group(records[..i], o)
      invariant forall o: nat :: o in ordinalMap ==> ordinalMap[o] != []
    {
      assert records[..i + 1][..i] == records[..i];
      var o := records[i].ordinal;
      assert ListAt(ordinalMap, o) == Group(records[..i], o);
      ordinalMap := ordinalMap[o := (if o in ordinalMap then ordinalMap[o] else []) + [records[i]]];
    }
    assert records[..|records|] == records;
  }

  lemma {:induction false} GroupFinal(rs: seq<DeltaRecord>, o: nat)
    ensures forall r :: r in Group(rs, o) <==> r in rs && r.ordinal == o
    ensures LastFor(Group(rs, o), o) == LastFor(rs, o)
    ensures Final(Group(rs, o), o) == Final(rs, o)
  {
    if rs != [] {
      var front := rs[..|rs| - 1];
      GroupFinal(front, o);
      assert rs == front + [rs[|rs| - 1]];
      if rs[|rs| - 1].ordinal == o {
        assert LastFor(Group(rs, o), o) == Some(rs[|rs| - 1]);
      } else {
        assert Group(rs, o) == Group(front, o);
      }
    }
  }

  /** The final record of one ordinal's group, chosen as the merge loop does. */
  method FinalRecord(records: seq<DeltaRecord>, ghost o: nat) returns (final: DeltaRecord)
    requires records != [] && forall r :: r in records ==> r.ordinal == o
    ensures Some(final) == Final(records, o)
  {
    final := records[|records| - 1];
    for i := 0 to |records|
      invariant Delete(o) !in records[..i]
      invariant final == records[|records| - 1]
    {
      if records[i].Delete? {
        assert records[i] == Delete(o);
        return records[i];
      }
    }
    assert records[..|records|] == records;
  }

  lemma DistinctSnoc(rs: seq<DeltaRecord>, r: DeltaRecord)
    requires OnePerOrdinal(rs) && r.ordinal !in Ordinals(rs)
    ensures OnePerOrdinal(rs + [r]) && Ordinals(rs + [r]) == Ordinals(rs) + {r.ordinal}
  {
    forall o | o in Ordinals(rs) + {r.ordinal} ensures o in Ordinals(rs + [r]) {
      if o == r.ordinal { assert r in rs + [r]; }
      else { var x :| x in rs && x.ordinal == o; assert x in rs + [r]; }
    }
    forall i | 0 <= i < |rs| ensures rs[i].ordinal != r.ordinal { assert rs[i] in rs; }
  }

  lemma ReducedIsFinal(records: seq<DeltaRecord>, out: seq<DeltaRecord>)
    requires OnePerOrdinal(out) && Ordinals(out) == Ordinals(records)
    requires forall r :: r in out ==> Final(records, r.ordinal) == Some(r)
    ensures forall o: nat :: LastFor(out, o) == Final(records, o)
  {
    forall o: nat ensures LastFor(out, o) == Final(records, o) {
      InOrdinals(out, o);
      InOrdinals(records, o);
      LastForOrdinal(out, o);
      LastForOrdinal(records, o);
      assert Delete(o) in records ==> o in Ordinals(records);
    }
  }

  /** One record per group, the groups taken in any order. */
  method ReduceGroups(records: seq<DeltaRecord>, ordinalMap: map<nat, seq<DeltaRecord>>)
    returns (optimized: seq<DeltaRecord>)
    requires forall o: nat :: ListAt(ordinalMap, o) == Group(records, o)
    requires forall o: nat :: o in ordinalMap ==> ordinalMap[o] != []
    ensures OnePerOrdinal(optimized)
    ensures forall o: nat :: LastFor(optimized, o) == Final(records, o)
  {
    optimized := [];
    var rest := ordinalMap.Keys;
    while rest != {}
      invariant rest <= ordinalMap.Keys
      invariant Ordinals(optimized) == ordinalMap.Keys - rest
      invariant forall r :: r in optimized ==> Final(records, r.ordinal) == Some(r)
      invariant OnePerOrdinal(optimized)
      decreases |rest|
    {
      var o: nat :| o in rest;
      assert ListAt(ordinalMap, o) == Group(records, o);
      GroupFinal(records, o);
      var final := FinalRecord(ordinalMap[o], o);
      LastForOrdinal(ordinalMap[o], o);
      DistinctSnoc(optimized, final);
      optimized := optimized + [final];
      rest := rest - {o};
    }
    forall o: nat ensures o in ordinalMap <==> o in Ordinals(records) {
      assert ListAt(ordinalMap, o) == Group(records, o);
      GroupFinal(records, o);
      InOrdinals(records, o);
      LastForOrdinal(records, o);
    }
    ReducedIsFinal(records, optimized);
  }

  /** The merge loops: group by ordinal, reduce each group, then sort. */
  method OptimizeTypeDelta(records: seq<DeltaRecord>) returns (out: seq<DeltaRecord>)
    ensures out == Optimize(records)
  {
    if |records| <= 1 {
      IncreasingIsOptimized(records);
      return records;
    }
    var ordinalMap := GroupByOrdinal(records);
    var optimized := ReduceGroups(records, ordinalMap);
    out := SortByOrdinal(optimized);
    OptimizedIsOptimize(records, out);
  }

  /** The delta set of one cycle, as the write engine fills it. */
  class DeltaSet {
    var Deltas: DeltaMap

    constructor ()
      ensures Deltas == map[]
    {
      Deltas := map[];
    }

    method AddRecord(typeName: string, record: DeltaRecord)
      modifies this
      ensures Deltas == Append(old(Deltas), typeName, [record])
    {
      if typeName !in Deltas {
        Deltas := Deltas[typeName := []];
      }
      Deltas := Deltas[typeName := Deltas[typeName] + [record]];
    }

    method IsEmpty() returns (empty: bool)
      ensures empty <==> EmptyMap(Deltas)
    {
      var rest := Deltas.Keys;
      while rest != {}
        invariant rest <= Deltas.Keys
        invariant forall t :: t in Deltas && t !in rest ==> Deltas[t] == []
        decreases |rest|
      {
        var t :| t in rest;
        if |Deltas[t]| > 0 { return false; }
        rest := rest - {t};
      }
      return true;
    }

    method GetChangeCount() returns (count: nat)
      ensures count == SumLengths(Deltas)
    {
      count := 0;
      var rest := Deltas;
      while rest != map[]
        invariant rest.Keys <= Deltas.Keys
        invariant forall t :: t in rest ==> rest[t] == Deltas[t]
        invariant count + SumLengths(rest) == SumLengths(Deltas)
        decreases |rest|
      {
        var t :| t in rest;
        SumLengthsPick(rest, t);
        count := count + |rest[t]|;
        rest := rest - {t};
      }
    }

    method OptimizeDeltas()
      modifies this
      ensures Deltas == OptimizeMap(old(Deltas))
    {
      var rest := Deltas.Keys;
      while rest != {}
        invariant rest <= Deltas.Keys == old(Deltas).Keys
        invariant forall t :: t in Deltas ==>
          Deltas[t] == if t in rest then old(Deltas)[t] else Optimize(old(Deltas)[t])
        decreases |rest|
      {
        var t :| t in rest;
        var records := OptimizeTypeDelta(Deltas[t]);
        Deltas := Deltas[t := records];
        rest := rest - {t};
      }
    }
  }
}
