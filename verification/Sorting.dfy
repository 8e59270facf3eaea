/**
 The exchange sort that the repository writes out three times, over an arbitrary
 strict total order, and the uniqueness of what it produces.
 */
module Sorting {
  ghost predicate StrictTotal<T(!new)>(less: (T, T) -> bool) {
    && (forall x :: !less(x, x))
    && (forall x, y, z :: less(x, y) && less(y, z) ==> less(x, z))
    && (forall x, y :: x == y || less(x, y) || less(y, x))
  }

  ghost predicate Sorted<T>(less: (T, T) -> bool, s: seq<T>) {
    forall i, j :: 0 <= i < j < |s| ==> !less(s[j], s[i])
  }

  /** Insertion into a sorted sequence. */
  function Insert<T>(less: (T, T) -> bool, x: T, s: seq<T>): seq<T> {
    if s == [] then [x]
    else if less(s[0], x) then [s[0]] + Insert(less, x, s[1..])
    else [x] + s
  }

  /** The sorted arrangement of `s`: the reference the exchange sort is compared with. */
  function Arrange<T>(less: (T, T) -> bool, s: seq<T>): seq<T> {
    if s == [] then [] else Insert(less, s[0], Arrange(less, s[1..]))
  }

  lemma {:induction false} InsertSorts<T(!new)>(less: (T, T) -> bool, x: T, s: seq<T>)
    requires StrictTotal(less) && Sorted(less, s)
    ensures Sorted(less, Insert(less, x, s))
    ensures multiset(Insert(less, x, s)) == multiset{x} + multiset(s)
  {
    if s == [] {
    } else if less(s[0], x) {
      InsertSorts(less, x, s[1..]);
      var r := Insert(less, x, s[1..]);
      assert s == [s[0]] + s[1..];
      forall j | 0 <= j < |r| ensures !less(r[j], s[0]) {
        assert r[j] in multiset(r);
        if r[j] != x {
          assert r[j] in multiset(s[1..]);
          var k :| 0 <= k < |s[1..]| && s[1..][k] == r[j];
          assert s[k + 1] == r[j];
        }
      }
    } else {
      assert s == [s[0]] + s[1..];
      forall j | 0 <= j < |s| ensures !less(s[j], x) {
        if j > 0 { assert !less(s[j], s[0]); }
      }
    }
  }

  lemma {:induction false} ArrangeSorts<T(!new)>(less: (T, T) -> bool, s: seq<T>)
    requires StrictTotal(less)
    ensures Sorted(less, Arrange(less, s))
    ensures multiset(Arrange(less, s)) == multiset(s)
  {
    if s != [] {
      ArrangeSorts(less, s[1..]);
      InsertSorts(less, s[0], Arrange(less, s[1..]));
      assert s == [s[0]] + s[1..];
    }
  }

  /** A multiset has one sorted arrangement only. */
  lemma {:induction false} SortedUnique<T(!new)>(less: (T, T) -> bool, a: seq<T>, b: seq<T>)
    requires StrictTotal(less)
    requires Sorted(less, a) && Sorted(less, b) && multiset(a) == multiset(b)
    ensures a == b
  {
    if a == [] {
      assert |multiset(b)| == |multiset(a)|;
    } else {
      assert a[0] in multiset(a);
      assert a[0] in b;
      assert b[0] in multiset(b);
      assert b[0] in a;
      assert a[0] == b[0];
      assert a == [a[0]] + a[1..] && b == [b[0]] + b[1..];
      assert multiset(a[1..]) == multiset(a) - multiset{a[0]};
      assert multiset(b[1..]) == multiset(b) - multiset{b[0]};
      SortedUnique(less, a[1..], b[1..]);
    }
  }

  /** Two sequences with the same elements have the same arrangement. */
  lemma ArrangeCanonical<T(!new)>(less: (T, T) -> bool, a: seq<T>, b: seq<T>)
    requires StrictTotal(less) && multiset(a) == multiset(b)
    ensures Arrange(less, a) == Arrange(less, b)
  {
    ArrangeSorts(less, a);
    ArrangeSorts(less, b);
    SortedUnique(less, Arrange(less, a), Arrange(less, b));
  }

  /** No element from position `i` on is below any element before it. */
  ghost predicate Settled<T>(less: (T, T) -> bool, s: seq<T>, i: nat) {
    forall k, l :: 0 <= k < i && k < l < |s| ==> !less(s[l], s[k])
  }

  method Swap<T>(a: array<T>, i: nat, j: nat)
    requires i < j < a.Length
    modifies a
    ensures a[..] == old(a[..])[i := old(a[j])][j := old(a[i])]
    ensures multiset(a[..]) == old(multiset(a[..]))
  {
    a[i], a[j] := a[j], a[i];
  }

  /** One turn of the outer loop: nothing behind position `i` stays below it. */
  method SettleAt<T(!new)>(a: array<T>, less: (T, T) -> bool, i: nat)
    requires StrictTotal(less) && i < a.Length && Settled(less, a[..], i)
    modifies a
    ensures multiset(a[..]) == multiset(old(a[..])) && Settled(less, a[..], i + 1)
  {
    for j := i + 1 to a.Length
      invariant multiset(a[..]) == multiset(old(a[..]))
      invariant Settled(less, a[..], i)
      invariant forall l :: i < l < j ==> !less(a[l], a[i])
    {
      if less(a[j], a[i]) {
        Swap(a, i, j);
      }
    }
  }

  method ExchangeSort<T(!new)>(a: array<T>, less: (T, T) -> bool)
    requires StrictTotal(less)
    modifies a
    ensures a[..] == Arrange(less, old(a[..]))
  {
    ghost var was := a[..];
    for i := 0 to a.Length
      invariant multiset(a[..]) == multiset(was)
      invariant Settled(less, a[..], i)
    {
      SettleAt(a, less, i);
    }
    assert Sorted(less, a[..]);
    ArrangeSorts(less, was);
    SortedUnique(less, a[..], Arrange(less, was));
  }

  /** Go's `<` on strings: lexicographic, code point by code point. */
  predicate StringLess(a: string, b: string) {
    b != [] && (a == [] || a[0] < b[0] || (a[0] == b[0] && StringLess(a[1..], b[1..])))
  }

  /** The texts agree up to `k`, where the first one ends or has the lower code point. */
  predicate PrecedesAt(a: string, b: string, k: nat) {
    k <= |a| && k < |b| && a[..k] == b[..k] && (k < |a| ==> a[k] < b[k])
  }

  /** A text is below another if it is a proper prefix, or has the lower code point where they first differ. */
  lemma {:induction false} StringLessMeans(a: string, b: string)
    ensures StringLess(a, b) <==> exists k: nat :: PrecedesAt(a, b, k)
  {
    if a != [] && b != [] && a[0] == b[0] {
      StringLessMeans(a[1..], b[1..]);
      if k: nat :| PrecedesAt(a[1..], b[1..], k) {
        assert a[..k + 1] == [a[0]] + a[1..][..k] && b[..k + 1] == [b[0]] + b[1..][..k];
        assert PrecedesAt(a, b, k + 1);
      }
      if k: nat :| PrecedesAt(a, b, k) {
        assert a[..k] == b[..k];
        assert k > 0;
        assert a[1..][..k - 1] == a[..k][1..] && b[1..][..k - 1] == b[..k][1..];
        assert PrecedesAt(a[1..], b[1..], k - 1);
      }
    } else {
      if StringLess(a, b) { assert PrecedesAt(a, b, 0); }
      if k: nat :| PrecedesAt(a, b, k) {
        if k > 0 { assert a[..k][0] == b[..k][0]; }
      }
    }
  }

  lemma {:induction false} StringLessIrreflexive(a: string)
    ensures !StringLess(a, a)
  {
    if a != [] { StringLessIrreflexive(a[1..]); }
  }

  lemma {:induction false} StringLessTransitive(a: string, b: string, c: string)
    requires StringLess(a, b) && StringLess(b, c)
    ensures StringLess(a, c)
  {
    if a != [] && a[0] == b[0] == c[0] {
      StringLessTransitive(a[1..], b[1..], c[1..]);
    }
  }

  lemma {:induction false} StringLessTotal(a: string, b: string)
    ensures a == b || StringLess(a, b) || StringLess(b, a)
  {
    if a != [] && b != [] && a[0] == b[0] {
      StringLessTotal(a[1..], b[1..]);
      assert a == [a[0]] + a[1..] && b == [b[0]] + b[1..];
    }
  }

  lemma StringOrder()
    ensures StrictTotal(StringLess)
  {
    forall x { StringLessIrreflexive(x); }
    forall x, y, z | StringLess(x, y) && StringLess(y, z) ensures StringLess(x, z) {
      StringLessTransitive(x, y, z);
    }
    forall x, y ensures x == y || StringLess(x, y) || StringLess(y, x) { StringLessTotal(x, y); }
  }

  predicate IntLess(a: int, b: int) { a < b }
}
