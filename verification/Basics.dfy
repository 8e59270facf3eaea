/** Shared vocabulary: options, results, payloads and finite-map arithmetic. */
module Basics {
  type pos = n: nat | n > 0 witness 1

  const TWO_64: nat := 0x1_0000_0000_0000_0000

  function Power(base: nat, exponent: nat): nat {
    if exponent == 0 then 1 else base * Power(base, exponent - 1)
  }

  datatype Option<+T> = None | Some(value: T) {
    function GetOr(default: T): T {
      if Some? then value else default
    }
  }

  datatype Result<+T> = Ok(value: T) | Err(message: string)

  /**
   What the replication code can observe of a Go value: its type name, its "%v"
   text, and the text of each field a primary key can be read from.  `raw` tells
   apart values whose observations agree.
   */
  datatype Payload = Payload(typeName: string, text: string, fields: map<string, string>, raw: int)

  /** Record lists per type, with the identity wrappers removed. */
  type Content = map<string, seq<Payload>>

  function ListOf<T>(m: map<string, seq<T>>, t: string): seq<T> {
    if t in m then m[t] else []
  }

  /** Equality as the code decides it: the same "%v" texts at the same positions. */
  predicate SameText(a: seq<Payload>, b: seq<Payload>) {
    |a| == |b| && forall i :: 0 <= i < |a| ==> a[i].text == b[i].text
  }

  predicate SameContent(a: Content, b: Content) {
    a.Keys == b.Keys && forall t :: t in a ==> SameText(a[t], b[t])
  }

  /** The total number of elements over all lists of a map. */
  ghost function SumLengths<T>(m: map<string, seq<T>>): nat
    decreases |m|
  {
    if m == map[] then 0 else
      var t :| t in m;
      |m[t]| + SumLengths(m - {t})
  }

  lemma SumLengthsNone<T>(m: map<string, seq<T>>)
    requires m.Keys == {}
    ensures SumLengths(m) == 0
  {
    assert m == map[];
  }

  lemma {:induction false} SumLengthsPick<T>(m: map<string, seq<T>>, t: string)
    requires t in m
    ensures SumLengths(m) == |m[t]| + SumLengths(m - {t})
    decreases |m|
  {
    var u :| u in m && SumLengths(m) == |m[u]| + SumLengths(m - {u});
    if u != t {
      SumLengthsPick(m - {u}, t);
      SumLengthsPick(m - {t}, u);
      assert m - {u} - {t} == m - {t} - {u};
    }
  }

  ghost predicate Listing<K(!new)>(keys: set<K>, s: seq<K>) {
    && (forall k :: k in s <==> k in keys)
    && (forall i, j :: 0 <= i < j < |s| ==> s[i] != s[j])
  }

  /** Go's map iteration: every key once, in an order nothing may rely on. */
  method InSomeOrder<K(==,!new)>(keys: set<K>) returns (s: seq<K>)
    ensures Listing(keys, s)
  {
    s := [];
    var rest := keys;
    while rest != {}
      invariant rest <= keys && Listing(keys - rest, s)
      decreases |rest|
    {
      var k :| k in rest;
      s, rest := s + [k], rest - {k};
    }
    assert keys - rest == keys;
  }

  predicate Distinct<T(==)>(s: seq<T>) {
    forall i, j :: 0 <= i < j < |s| ==> s[i] != s[j]
  }

  lemma DistinctAt<T>(s: seq<T>, i: nat, j: nat)
    requires Distinct(s) && i < |s| && j < |s| && s[i] == s[j]
    ensures i == j
  {
  }

  lemma {:induction false} DistinctCount<T>(s: seq<T>, x: T)
    requires Distinct(s)
    ensures multiset(s)[x] == if x in s then 1 else 0
  {
    if s != [] {
      var front, last := s[..|s| - 1], s[|s| - 1];
      assert s == front + [last];
      DistinctCount(front, x);
    }
  }

  /** Without repetitions, the members decide the multiset. */
  lemma SameMembers<T(!new)>(a: seq<T>, b: seq<T>)
    requires Distinct(a) && Distinct(b) && forall x :: x in a <==> x in b
    ensures multiset(a) == multiset(b)
  {
    forall x ensures multiset(a)[x] == multiset(b)[x] {
      DistinctCount(a, x);
      DistinctCount(b, x);
    }
  }

  function Members<T>(s: seq<T>): set<T> {
    set x | x in s
  }

  lemma {:induction false} MemberCount<T>(s: seq<T>)
    ensures |Members(s)| <= |s|
    ensures |Members(s)| == |s| <==> Distinct(s)
  {
    if s != [] {
      var front, last := s[..|s| - 1], s[|s| - 1];
      MemberCount(front);
      assert Members(s) == Members(front) + {last};
      assert forall i :: 0 <= i < |front| ==> front[i] == s[i];
      if last in front {
        var i :| 0 <= i < |front| && front[i] == last;
        assert s[i] == s[|s| - 1] && Members(s) == Members(front);
      }
    }
  }

  lemma DistinctByMembers<T>(a: seq<T>, b: seq<T>)
    requires Distinct(a) && |a| == |b| && Members(a) == Members(b)
    ensures Distinct(b)
  {
    MemberCount(a);
    MemberCount(b);
  }

  /** Rearranging a sequence without repetitions keeps it so. */
  lemma DistinctPermuted<T(!new)>(a: seq<T>, b: seq<T>)
    requires Distinct(a) && multiset(a) == multiset(b)
    ensures Distinct(b) && forall x :: x in a <==> x in b
  {
    assert |a| == |multiset(a)| == |multiset(b)| == |b|;
    forall x ensures x in a <==> x in b {
      assert x in a <==> x in multiset(a);
      assert x in b <==> x in multiset(b);
    }
    assert Members(a) == Members(b);
    DistinctByMembers(a, b);
  }

  /** A part of a finite set that is as large as the whole is the whole. */
  lemma {:induction false} FullPart<T>(a: set<T>, b: set<T>)
    requires a <= b
    ensures |a| <= |b| && (|a| == |b| ==> a == b)
  {
    assert b == a + (b - a) && a !! (b - a);
    assert |b| == |a| + |b - a|;
  }
}
