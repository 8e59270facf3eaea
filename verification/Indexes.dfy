/** Indexes over (key, offset) rows, against a linear scan of the rows. */
module Indexes {
  import opened Basics

  /** Rows as the extraction hands them over: two lists, of which the shorter one counts. */
  function RowCount<K>(keys: seq<K>, offsets: seq<int>): (n: nat)
    ensures n <= |keys| && n <= |offsets| && (n == |keys| || n == |offsets|)
  {
    if |keys| < |offsets| then |keys| else |offsets|
  }

  // ----- hash index -----

  function Grown(s: seq<int>, hit: bool, offset: int): seq<int> {
    if hit then s + [offset] else s
  }

  /** The scan: the offsets of the first `n` rows whose value is `key`, in row order. */
  function Scan(values: seq<string>, offsets: seq<int>, n: nat, key: string): seq<int>
    requires n <= RowCount(values, offsets)
  {
    if n == 0 then [] else Grown(Scan(values, offsets, n - 1, key), values[n - 1] == key, offsets[n - 1])
  }

  function WithRow(buckets: map<string, seq<int>>, value: string, offset: int): map<string, seq<int>> {
    buckets[value := ListOf(buckets, value) + [offset]]
  }

  function Buckets(values: seq<string>, offsets: seq<int>, n: nat): map<string, seq<int>>
    requires n <= RowCount(values, offsets)
  {
    if n == 0 then map[] else WithRow(Buckets(values, offsets, n - 1), values[n - 1], offsets[n - 1])
  }

  datatype HashIndex = HashIndex(data: map<string, seq<int>>)

  method BuildHashIndex(values: seq<string>, offsets: seq<int>) returns (index: HashIndex)
    ensures index.data == Buckets(values, offsets, RowCount(values, offsets))
  {
    var data: map<string, seq<int>> := map[];
    for i := 0 to |values|
      invariant data == Buckets(values, offsets, if i < |offsets| then i else RowCount(values, offsets))
    {
      if i < |offsets| {
        var bucket := if values[i] in data then data[values[i]] else [];
        data := data[values[i] := bucket + [offsets[i]]];
      }
    }
    index := HashIndex(data);
  }

  lemma BucketGrows(before: map<string, seq<int>>, value: string, offset: int, key: string)
    ensures ListOf(WithRow(before, value, offset), key) == Grown(ListOf(before, key), value == key, offset)
  {
  }

  /** A bucket is what a scan for its key finds, in order. */
  lemma {:induction false} BucketIsScan(values: seq<string>, offsets: seq<int>, n: nat, key: string)
    requires n <= RowCount(values, offsets)
    ensures ListOf(Buckets(values, offsets, n), key) == Scan(values, offsets, n, key)
  {
    if n > 0 {
      BucketIsScan(values, offsets, n - 1, key);
      BucketGrows(Buckets(values, offsets, n - 1), values[n - 1], offsets[n - 1], key);
    }
  }

  /** The buckets share out the rows: together they hold each row once. */
  lemma {:induction false} BucketsPartition(values: seq<string>, offsets: seq<int>, n: nat)
    requires n <= RowCount(values, offsets)
    ensures SumLengths(Buckets(values, offsets, n)) == n
  {
    if n == 0 {
      SumLengthsNone(Buckets(values, offsets, n));
    } else {
      var before, after, key := Buckets(values, offsets, n - 1), Buckets(values, offsets, n), values[n - 1];
      BucketsPartition(values, offsets, n - 1);
      SumLengthsPick(after, key);
      assert after - {key} == before - {key};
      if key in before {
        SumLengthsPick(before, key);
      } else {
        assert before - {key} == before;
      }
    }
  }

  // ----- joined keys -----

  function Join(parts: seq<string>): string {
    if parts == [] then "" else if |parts| == 1 then parts[0]
    else Join(parts[..|parts| - 1]) + "|" + parts[|parts| - 1]
  }

  predicate BarFree(s: string) {
    '|' !in s
  }

  predicate BarFreeParts(parts: seq<string>) {
    forall i :: 0 <= i < |parts| ==> BarFree(parts[i])
  }

  /** The text behind the last bar, and whether there is one. */
  function Tail(s: string): string {
    if s == "" || s[|s| - 1] == '|' then "" else Tail(s[..|s| - 1]) + [s[|s| - 1]]
  }

  lemma {:induction false} TailLength(s: string)
    ensures |Tail(s)| <= |s|
    decreases |s|
  {
    if s != "" && s[|s| - 1] != '|' { TailLength(s[..|s| - 1]); }
  }

  /** The parts a joined key falls into. */
  function Split(s: string): seq<string>
    decreases |s|
  {
    TailLength(s);
    var tail := Tail(s);
    if |tail| == |s| then [s] else Split(s[..|s| - |tail| - 1]) + [tail]
  }

  lemma {:induction false} TailOf(front: string, part: string)
    requires BarFree(part)
    ensures Tail(part) == part && Tail(front + "|" + part) == part
    decreases |part|
  {
    var s := front + "|" + part;
    if part == "" {
      assert s[|s| - 1] == '|';
    } else {
      TailOf(front, part[..|part| - 1]);
      assert s[..|s| - 1] == front + "|" + part[..|part| - 1];
      assert part[|part| - 1] in part;
    }
  }

  lemma SplitLast(front: string, part: string)
    requires BarFree(part)
    ensures Split(front + "|" + part) == Split(front) + [part]
  {
    TailOf(front, part);
    var s := front + "|" + part;
    assert s[..|s| - |part| - 1] == front;
  }

  /** Joining bar-free parts loses nothing. */
  lemma {:induction false} SplitJoin(parts: seq<string>)
    requires parts != [] && BarFreeParts(parts)
    ensures Split(Join(parts)) == parts
  {
    var front, last := parts[..|parts| - 1], parts[|parts| - 1];
    assert parts == front + [last];
    if front == [] {
      TailOf("", last);
    } else {
      SplitJoin(front);
      SplitLast(Join(front), last);
    }
  }

  lemma {:induction false} TailBarFree(s: string)
    ensures BarFree(Tail(s))
    decreases |s|
  {
    if s != "" && s[|s| - 1] != '|' { TailBarFree(s[..|s| - 1]); }
  }

  lemma {:induction false} TailIsSuffix(s: string)
    ensures |Tail(s)| <= |s| && s == s[..|s| - |Tail(s)|] + Tail(s)
    decreases |s|
  {
    if s != "" && s[|s| - 1] != '|' {
      var front := s[..|s| - 1];
      TailIsSuffix(front);
      assert s == front + [s[|s| - 1]];
      assert s[..|s| - |Tail(s)|] == front[..|front| - |Tail(front)|];
    }
  }

  lemma {:induction false} BarBeforeTail(s: string)
    requires |Tail(s)| < |s|
    ensures s[|s| - |Tail(s)| - 1] == '|'
    decreases |s|
  {
    if s != "" && s[|s| - 1] != '|' { BarBeforeTail(s[..|s| - 1]); }
  }

  lemma TailSplits(s: string)
    ensures |Tail(s)| <= |s| && BarFree(Tail(s))
    ensures |Tail(s)| < |s| ==> s == s[..|s| - |Tail(s)| - 1] + "|" + Tail(s)
    ensures |Tail(s)| == |s| ==> s == Tail(s)
  {
    TailBarFree(s);
    TailIsSuffix(s);
    if |Tail(s)| < |s| {
      BarBeforeTail(s);
      assert s[..|s| - |Tail(s)|] == s[..|s| - |Tail(s)| - 1] + "|";
    }
  }

  lemma TailIsAll(s: string)
    ensures |Tail(s)| <= |s|
    ensures |Tail(s)| == |s| <==> BarFree(s)
    ensures BarFree(s) ==> Tail(s) == s
  {
    TailSplits(s);
    if BarFree(s) { TailOf("", s); }
  }

  lemma SplitUnfolds(s: string)
    requires !BarFree(s)
    ensures |Tail(s)| < |s| && Split(s) == Split(s[..|s| - |Tail(s)| - 1]) + [Tail(s)]
  {
    TailIsAll(s);
  }

  /** Splitting at the last bar, if there is one. */
  lemma SplitBack(s: string)
    ensures BarFree(s) ==> Split(s) == [s]
    ensures !BarFree(s) ==> |Tail(s)| < |s|
    ensures !BarFree(s) ==>
      (var front := s[..|s| - |Tail(s)| - 1];
       s == front + "|" + Tail(s) && BarFree(Tail(s)) && Split(s) == Split(front) + [Tail(s)])
  {
    TailIsAll(s);
    if !BarFree(s) {
      TailSplits(s);
      SplitUnfolds(s);
    }
  }

  /** Splitting a text joined from two splits each of them. */
  lemma {:induction false} SplitTwo(a: string, b: string)
    ensures Split(a + "|" + b) == Split(a) + Split(b)
    decreases |b|
  {
    SplitBack(b);
    if BarFree(b) {
      SplitLast(a, b);
    } else {
      var tail := Tail(b);
      var front := b[..|b| - |tail| - 1];
      SplitTwo(a, front);
      SplitLast(a + "|" + front, tail);
      assert a + "|" + b == (a + "|" + front) + "|" + tail;
      assert Split(a) + Split(front) + [tail] == Split(a) + (Split(front) + [tail]);
    }
  }

  lemma JoinSnoc(parts: seq<string>, last: string)
    requires parts != []
    ensures Join(parts + [last]) == Join(parts) + "|" + last
  {
    assert (parts + [last])[..|parts|] == parts;
  }

  lemma {:induction false} SplitSome(s: string)
    ensures Split(s) != []
  {
    SplitBack(s);
  }

  /** Joining what a text was split into gives the text back. */
  lemma {:induction false} JoinSplit(s: string)
    ensures Join(Split(s)) == s
    decreases |s|
  {
    SplitBack(s);
    if !BarFree(s) {
      var tail := Tail(s);
      var front := s[..|s| - |tail| - 1];
      JoinSplit(front);
      SplitSome(front);
      JoinSnoc(Split(front), tail);
    }
  }

  /** The pieces between bars, over all parts; no parts at all read like one empty part. */
  function Flat(parts: seq<string>): seq<string> {
    if parts == [] then [""]
    else if |parts| == 1 then Split(parts[0])
    else Flat(parts[..|parts| - 1]) + Split(parts[|parts| - 1])
  }

  lemma {:induction false} SplitIsFlat(parts: seq<string>)
    ensures Split(Join(parts)) == Flat(parts)
  {
    if parts == [] {
      SplitBack("");
    } else if |parts| > 1 {
      SplitIsFlat(parts[..|parts| - 1]);
      SplitTwo(Join(parts[..|parts| - 1]), parts[|parts| - 1]);
    }
  }

  /** Two lists of parts share a key exactly when they have the same pieces. */
  lemma JoinEqual(a: seq<string>, b: seq<string>)
    ensures Join(a) == Join(b) <==> Flat(a) == Flat(b)
  {
    SplitIsFlat(a);
    SplitIsFlat(b);
    JoinSplit(Join(a));
    JoinSplit(Join(b));
  }

  /** So non-empty lists of bar-free parts have equal keys only when they are equal. */
  lemma JoinInjective(a: seq<string>, b: seq<string>)
    requires a != [] && b != [] && BarFreeParts(a) && BarFreeParts(b)
    ensures Join(a) == Join(b) <==> a == b
  {
    SplitJoin(a);
    SplitJoin(b);
  }

  /** A bar inside a part, or a missing part, makes different keys collide. */
  lemma JoinCollides()
    ensures Join(["a|b", "c"]) == Join(["a", "b|c"])
    ensures Join([]) == Join([""])
  {
    assert ["a|b", "c"][..1] == ["a|b"] && ["a", "b|c"][..1] == ["a"];
  }

  method JoinValues(values: seq<string>) returns (key: string)
    requires values != []
    ensures key == Join(values)
  {
    key := values[0];
    assert values[..1] == [values[0]];
    for i := 1 to |values|
      invariant key == Join(values[..i])
    {
      assert values[..i + 1][..i] == values[..i];
      key := key + "|" + values[i];
    }
    assert values[..|values|] == values;
  }

  /** The lookup takes at least one value; without any the code panics. */
  method FindMatches(index: HashIndex, values: seq<string>) returns (matches: seq<int>)
    requires values != []
    ensures matches == ListOf(index.data, Join(values))
  {
    var key := JoinValues(values);
    matches := if key in index.data then index.data[key] else [];
  }

  /** The offsets of the first `n` rows whose value has the given pieces, in row order. */
  function ScanPieces(values: seq<string>, offsets: seq<int>, n: nat, pieces: seq<string>): seq<int>
    requires n <= RowCount(values, offsets)
  {
    if n == 0 then []
    else ScanPieces(values, offsets, n - 1, pieces) + if Split(values[n - 1]) == pieces then [offsets[n - 1]] else []
  }

  lemma {:induction false} ScanIsPieces(values: seq<string>, offsets: seq<int>, n: nat, query: seq<string>)
    requires n <= RowCount(values, offsets)
    ensures Scan(values, offsets, n, Join(query)) == ScanPieces(values, offsets, n, Flat(query))
  {
    if n > 0 {
      ScanIsPieces(values, offsets, n - 1, query);
      JoinEqual([values[n - 1]], query);
    }
  }

  /** A lookup by any values finds exactly the rows whose value has the same pieces between bars, in order. */
  lemma HashLookup(values: seq<string>, offsets: seq<int>, query: seq<string>)
    ensures var n := RowCount(values, offsets);
      ListOf(Buckets(values, offsets, n), Join(query)) == ScanPieces(values, offsets, n, Flat(query))
  {
    var n := RowCount(values, offsets);
    BucketIsScan(values, offsets, n, Join(query));
    ScanIsPieces(values, offsets, n, query);
  }

  lemma {:induction false} ScanMisses(values: seq<string>, offsets: seq<int>, n: nat, query: seq<string>)
    requires n <= RowCount(values, offsets) && BarFreeParts(values) && BarFreeParts(query) && |query| > 1
    ensures Scan(values, offsets, n, Join(query)) == []
  {
    if n > 0 {
      ScanMisses(values, offsets, n - 1, query);
      JoinInjective([values[n - 1]], query);
    }
  }

  /** Over bar-free values one value finds its scan, and several find nothing. */
  lemma HashLookupBarFree(values: seq<string>, offsets: seq<int>, query: seq<string>)
    requires BarFreeParts(values) && BarFreeParts(query) && query != []
    ensures var n := RowCount(values, offsets);
      ListOf(Buckets(values, offsets, n), Join(query)) ==
        if |query| == 1 then Scan(values, offsets, n, query[0]) else []
  {
    var n := RowCount(values, offsets);
    BucketIsScan(values, offsets, n, Join(query));
    if |query| > 1 { ScanMisses(values, offsets, n, query); }
  }

  // ----- unique and primary key indexes -----

  /** No two rows carry the same key. */
  predicate NoRepeat(keys: seq<string>, n: nat)
    requires n <= |keys|
  {
    forall i, j :: 0 <= i < j < n ==> keys[i] != keys[j]
  }

  /** The index maps each row's key to the row's offset, and knows no other key. */
  ghost predicate Indexed(data: map<string, int>, keys: seq<string>, offsets: seq<int>, n: nat)
    requires n <= RowCount(keys, offsets)
  {
    && (forall i :: 0 <= i < n ==> keys[i] in data && data[keys[i]] == offsets[i])
    && (forall k :: k in data ==> exists i :: 0 <= i < n && keys[i] == k)
  }

  /** One more row: its key is in the index exactly when it repeats one. */
  lemma IndexedNext(data: map<string, int>, keys: seq<string>, offsets: seq<int>, n: nat)
    requires n < RowCount(keys, offsets) && NoRepeat(keys, n) && Indexed(data, keys, offsets, n)
    ensures keys[n] in data ==> !NoRepeat(keys, RowCount(keys, offsets))
    ensures keys[n] !in data ==> NoRepeat(keys, n + 1) && Indexed(data[keys[n] := offsets[n]], keys, offsets, n + 1)
  {
    if keys[n] !in data {
      assert forall i :: 0 <= i < n ==> keys[i] != keys[n];
    }
  }

  method BuildUniqueIndex(values: seq<string>, offsets: seq<int>) returns (r: Result<map<string, int>>)
    ensures r.Ok? <==> NoRepeat(values, RowCount(values, offsets))
    ensures r.Ok? ==> Indexed(r.value, values, offsets, RowCount(values, offsets))
  {
    var data: map<string, int> := map[];
    for i := 0 to |values|
      invariant var n := if i < |offsets| then i else RowCount(values, offsets);
        NoRepeat(values, n) && Indexed(data, values, offsets, n)
    {
      if i < |offsets| {
        IndexedNext(data, values, offsets, i);
        if values[i] in data { return Err("duplicate value found for unique index"); }
        data := data[values[i] := offsets[i]];
      }
    }
    return Ok(data);
  }

  function JoinAll(keys: seq<seq<string>>): (r: seq<string>)
    ensures |r| == |keys| && forall i :: 0 <= i < |keys| ==> r[i] == Join(keys[i])
  {
    seq(|keys|, i requires 0 <= i < |keys| => Join(keys[i]))
  }

  method JoinKey(parts: seq<string>) returns (keyStr: string)
    ensures keyStr == Join(parts)
  {
    keyStr := "";
    for j := 0 to |parts|
      invariant keyStr == Join(parts[..j])
    {
      assert parts[..j + 1][..j] == parts[..j];
      if j > 0 { keyStr := keyStr + "|"; }
      keyStr := keyStr + parts[j];
    }
    assert parts[..|parts|] == parts;
  }

  method BuildPrimaryKeyIndex(keys: seq<seq<string>>, offsets: seq<int>) returns (r: Result<map<string, int>>)
    ensures r.Ok? <==> NoRepeat(JoinAll(keys), RowCount(JoinAll(keys), offsets))
    ensures r.Ok? ==> Indexed(r.value, JoinAll(keys), offsets, RowCount(JoinAll(keys), offsets))
  {
    var data: map<string, int> := map[];
    ghost var joined := JoinAll(keys);
    for i := 0 to |keys|
      invariant var n := if i < |offsets| then i else RowCount(joined, offsets);
        NoRepeat(joined, n) && Indexed(data, joined, offsets, n)
    {
      if i < |offsets| {
        IndexedNext(data, joined, offsets, i);
        var keyStr := JoinKey(keys[i]);
        if keyStr in data { return Err("duplicate primary key found"); }
        data := data[keyStr := offsets[i]];
      }
    }
    return Ok(data);
  }

  method GetMatch(data: map<string, int>, key: string) returns (offset: Option<int>)
    ensures offset == if key in data then Some(data[key]) else None
  {
    return if key in data then Some(data[key]) else None;
  }

  method GetPrimaryMatch(data: map<string, int>, parts: seq<string>) returns (offset: Option<int>)
    ensures offset == if Join(parts) in data then Some(data[Join(parts)]) else None
  {
    var keyStr := JoinKey(parts);
    return if keyStr in data then Some(data[keyStr]) else None;
  }

  /** Linear search: the offset of the first row from `i` on with the given key. */
  function Search<K(==)>(keys: seq<K>, offsets: seq<int>, i: nat, key: K): Option<int>
    decreases |keys| - i
  {
    if i >= |keys| || i >= |offsets| then None
    else if keys[i] == key then Some(offsets[i])
    else Search(keys, offsets, i + 1, key)
  }

  lemma {:induction false} SearchFinds<K>(keys: seq<K>, offsets: seq<int>, i: nat, key: K)
    ensures Search(keys, offsets, i, key).None? ==> forall j :: i <= j < RowCount(keys, offsets) ==> keys[j] != key
    ensures Search(keys, offsets, i, key).Some? ==>
      exists j :: i <= j < RowCount(keys, offsets) && keys[j] == key &&
        Search(keys, offsets, i, key) == Some(offsets[j])
    decreases |keys| - i
  {
    if i < |keys| && i < |offsets| && keys[i] != key { SearchFinds(keys, offsets, i + 1, key); }
  }

  /** A lookup in a built unique index is a linear search of the rows. */
  lemma UniqueLookup(data: map<string, int>, values: seq<string>, offsets: seq<int>, key: string)
    requires Indexed(data, values, offsets, RowCount(values, offsets))
    ensures Search(values, offsets, 0, key) == if key in data then Some(data[key]) else None
  {
    SearchFinds(values, offsets, 0, key);
  }

  function FlatAll(keys: seq<seq<string>>): (r: seq<seq<string>>)
    ensures |r| == |keys| && forall i :: 0 <= i < |keys| ==> r[i] == Flat(keys[i])
  {
    seq(|keys|, i requires 0 <= i < |keys| => Flat(keys[i]))
  }

  lemma {:induction false} SearchPieces(keys: seq<seq<string>>, offsets: seq<int>, i: nat, parts: seq<string>)
    ensures Search(JoinAll(keys), offsets, i, Join(parts)) == Search(FlatAll(keys), offsets, i, Flat(parts))
    decreases |keys| - i
  {
    if i < |keys| && i < |offsets| {
      JoinEqual(keys[i], parts);
      SearchPieces(keys, offsets, i + 1, parts);
    }
  }

  /** A primary key lookup by any parts is a linear search for a row with the same pieces. */
  lemma PrimaryLookup(data: map<string, int>, keys: seq<seq<string>>, offsets: seq<int>, parts: seq<string>)
    requires Indexed(data, JoinAll(keys), offsets, RowCount(JoinAll(keys), offsets))
    ensures Search(FlatAll(keys), offsets, 0, Flat(parts)) ==
      if Join(parts) in data then Some(data[Join(parts)]) else None
  {
    UniqueLookup(data, JoinAll(keys), offsets, Join(parts));
    SearchPieces(keys, offsets, 0, parts);
  }

  /** Building a primary key index fails exactly when two rows have the same pieces. */
  lemma PrimaryUnique(keys: seq<seq<string>>, n: nat)
    requires n <= |keys|
    ensures NoRepeat(JoinAll(keys), n) <==> forall i, j :: 0 <= i < j < n ==> FlatAll(keys)[i] != FlatAll(keys)[j]
  {
    forall i, j | 0 <= i < j < n
      ensures JoinAll(keys)[i] == JoinAll(keys)[j] <==> FlatAll(keys)[i] == FlatAll(keys)[j]
    {
      JoinEqual(keys[i], keys[j]);
    }
  }

  predicate BarFreeRows(keys: seq<seq<string>>) {
    forall i :: 0 <= i < |keys| ==> keys[i] != [] && BarFreeParts(keys[i])
  }

  lemma {:induction false} FlatBarFree(parts: seq<string>)
    requires parts != [] && BarFreeParts(parts)
    ensures Flat(parts) == parts
  {
    SplitIsFlat(parts);
    SplitJoin(parts);
  }

  lemma {:induction false} SearchBarFree(keys: seq<seq<string>>, offsets: seq<int>, i: nat, parts: seq<string>)
    requires BarFreeRows(keys) && parts != [] && BarFreeParts(parts)
    ensures Search(FlatAll(keys), offsets, i, Flat(parts)) == Search(keys, offsets, i, parts)
    decreases |keys| - i
  {
    if i < |keys| && i < |offsets| {
      FlatBarFree(keys[i]);
      FlatBarFree(parts);
      SearchBarFree(keys, offsets, i + 1, parts);
    }
  }

  /** Over bar-free parts it is a linear search by the parts themselves. */
  lemma PrimaryLookupBarFree(data: map<string, int>, keys: seq<seq<string>>, offsets: seq<int>, parts: seq<string>)
    requires BarFreeRows(keys) && parts != [] && BarFreeParts(parts)
    requires Indexed(data, JoinAll(keys), offsets, RowCount(JoinAll(keys), offsets))
    ensures Search(keys, offsets, 0, parts) == if Join(parts) in data then Some(data[Join(parts)]) else None
  {
    PrimaryLookup(data, keys, offsets, parts);
    SearchBarFree(keys, offsets, 0, parts);
  }

  /** And building it fails exactly when two rows agree in all their parts. */
  lemma PrimaryUniqueBarFree(keys: seq<seq<string>>, n: nat)
    requires BarFreeRows(keys) && n <= |keys|
    ensures NoRepeat(JoinAll(keys), n) <==> forall i, j :: 0 <= i < j < n ==> keys[i] != keys[j]
  {
    PrimaryUnique(keys, n);
    forall i | 0 <= i < n ensures FlatAll(keys)[i] == keys[i] { FlatBarFree(keys[i]); }
  }
}
