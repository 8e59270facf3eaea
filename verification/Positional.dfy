/**
 The positional diff of types without a primary key, the positional replay the
 consumer performs, and where that replay agrees with the ordinal-addressed meaning.
 */
module Positional {
  import opened Basics
  import opened Deltas

  // ----- the producer's diff -----

  function DiffAt(prev: seq<Payload>, cur: seq<Payload>, i: nat): seq<DeltaRecord>
    requires i < |prev| || i < |cur|
  {
    if i >= |prev| then [Add(i, cur[i])]
    else if i >= |cur| then [Delete(i)]
    else if cur[i].text != prev[i].text then [Update(i, cur[i])]
    else []
  }

  function Max(a: nat, b: nat): nat { if a < b then b else a }

  function DiffUpTo(prev: seq<Payload>, cur: seq<Payload>, k: nat): seq<DeltaRecord>
    requires k <= Max(|prev|, |cur|)
  {
    if k == 0 then [] else DiffUpTo(prev, cur, k - 1) + DiffAt(prev, cur, k - 1)
  }

  function Diff(prev: seq<Payload>, cur: seq<Payload>): seq<DeltaRecord> {
    DiffUpTo(prev, cur, Max(|prev|, |cur|))
  }

  /** The diff reads the previous list through its texts only. */
  lemma {:induction false} DiffUpToByText(a: seq<Payload>, b: seq<Payload>, cur: seq<Payload>, k: nat)
    requires SameText(a, b) && k <= Max(|a|, |cur|)
    ensures DiffUpTo(a, cur, k) == DiffUpTo(b, cur, k)
  {
    if k > 0 {
      DiffUpToByText(a, b, cur, k - 1);
    }
  }

  lemma DiffByText(a: seq<Payload>, b: seq<Payload>, cur: seq<Payload>)
    requires SameText(a, b)
    ensures Diff(a, cur) == Diff(b, cur)
  {
    DiffUpToByText(a, b, cur, Max(|a|, |cur|));
  }

  lemma {:induction false} DiffUpToIncreasing(prev: seq<Payload>, cur: seq<Payload>, k: nat)
    requires k <= Max(|prev|, |cur|)
    ensures Increasing(DiffUpTo(prev, cur, k))
    ensures forall r :: r in DiffUpTo(prev, cur, k) ==> r.ordinal < k
  {
    if k > 0 {
      DiffUpToIncreasing(prev, cur, k - 1);
      var d := DiffUpTo(prev, cur, k - 1);
      assert forall i :: 0 <= i < |d| ==> d[i] in d;
    }
  }

  /** Merging leaves a positional diff as it is. */
  lemma DiffOptimized(prev: seq<Payload>, cur: seq<Payload>)
    ensures Optimize(Diff(prev, cur)) == Diff(prev, cur)
  {
    DiffUpToIncreasing(prev, cur, Max(|prev|, |cur|));
    IncreasingIsOptimized(Diff(prev, cur));
  }

  /** The first `k` positions are there in both lists and read the same. */
  predicate SameUpTo(prev: seq<Payload>, cur: seq<Payload>, k: nat) {
    k <= |prev| && k <= |cur| && forall i :: 0 <= i < k ==> prev[i].text == cur[i].text
  }

  lemma DiffAtEmpty(prev: seq<Payload>, cur: seq<Payload>, k: nat)
    requires k < Max(|prev|, |cur|) && SameUpTo(prev, cur, k)
    ensures DiffAt(prev, cur, k) == [] <==> SameUpTo(prev, cur, k + 1)
  {
  }

  lemma {:induction false} DiffUpToEmpty(prev: seq<Payload>, cur: seq<Payload>, k: nat)
    requires k <= Max(|prev|, |cur|)
    ensures DiffUpTo(prev, cur, k) == [] <==> SameUpTo(prev, cur, k)
  {
    if k > 0 {
      DiffUpToEmpty(prev, cur, k - 1);
      if SameUpTo(prev, cur, k - 1) { DiffAtEmpty(prev, cur, k - 1); }
    }
  }

  /** The diff is empty exactly when nothing changed, as far as `fmt` can tell. */
  lemma DiffEmpty(prev: seq<Payload>, cur: seq<Payload>)
    ensures Diff(prev, cur) == [] <==> SameText(prev, cur)
  {
    DiffUpToEmpty(prev, cur, Max(|prev|, |cur|));
  }

  // ----- the ordinal-addressed meaning of the diff is exact -----

  function Table(s: seq<Payload>): map<nat, Payload> {
    map i: nat | i < |s| :: s[i]
  }

  lemma {:induction false} DiffUpToLast(prev: seq<Payload>, cur: seq<Payload>, k: nat, o: nat)
    requires k <= Max(|prev|, |cur|)
    ensures LastFor(DiffUpTo(prev, cur, k), o) ==
      (if o < k && DiffAt(prev, cur, o) != [] then Some(DiffAt(prev, cur, o)[0]) else None)
  {
    if k > 0 {
      DiffUpToLast(prev, cur, k - 1, o);
      LastForConcat(DiffUpTo(prev, cur, k - 1), DiffAt(prev, cur, k - 1), o);
    }
  }

  /** Addressed by ordinal, the diff turns the previous list into the current one, always. */
  lemma DiffExactByOrdinal(prev: seq<Payload>, cur: seq<Payload>)
    ensures var m := ApplyAll(Table(prev), Diff(prev, cur));
      m.Keys == Table(cur).Keys && forall o: nat :: o < |cur| ==> m[o].text == cur[o].text
  {
    var m := ApplyAll(Table(prev), Diff(prev, cur));
    forall o: nat
      ensures At(m, o).Some? <==> o < |cur|
      ensures o < |cur| ==> At(m, o).value.text == cur[o].text
    {
      ApplyAllAt(Table(prev), Diff(prev, cur), o);
      DiffUpToLast(prev, cur, Max(|prev|, |cur|), o);
    }
    forall o: nat ensures o in m <==> o < |cur| {
      assert At(m, o).Some? <==> o < |cur|;
    }
    forall o: nat | o < |cur| ensures m[o].text == cur[o].text {
      assert At(m, o).value == m[o];
    }
  }

  // ----- the consumer's replay -----

  function ReplayOne(s: seq<Payload>, r: DeltaRecord): seq<Payload> {
    match r
    case Add(_, v) => s + [v]
    case Update(o, v) => if o < |s| then s[o := v] else s
    case Delete(o) => if o < |s| then s[..o] + s[o + 1..] else s
  }

  function Replay(s: seq<Payload>, rs: seq<DeltaRecord>): seq<Payload> {
    if rs == [] then s else ReplayOne(Replay(s, rs[..|rs| - 1]), rs[|rs| - 1])
  }

  lemma ReplayOneByText(x: seq<Payload>, y: seq<Payload>, r: DeltaRecord)
    requires SameText(x, y)
    ensures SameText(ReplayOne(x, r), ReplayOne(y, r))
  {
  }

  /** Replay reads the replica it starts from through positions only, so fmt-equal starts end fmt-equal. */
  lemma {:induction false} ReplayByText(a: seq<Payload>, b: seq<Payload>, rs: seq<DeltaRecord>)
    requires SameText(a, b)
    ensures SameText(Replay(a, rs), Replay(b, rs))
  {
    if rs != [] {
      ReplayByText(a, b, rs[..|rs| - 1]);
      var x, y := Replay(a, rs[..|rs| - 1]), Replay(b, rs[..|rs| - 1]);
      ReplayOneByText(x, y, rs[|rs| - 1]);
    }
  }

  // ----- where positions and ordinals agree -----

  /** The records a list of length `n` absorbs the same way by position and by ordinal. */
  predicate AlignedOne(n: nat, r: DeltaRecord) {
    match r
    case Add(o, _) => o == n
    case Update(o, _) => o < n
    case Delete(o) => o + 1 >= n
  }

  /** One record: replay by position equals application by ordinal exactly when it is aligned. */
  lemma AlignedOneExact(s: seq<Payload>, r: DeltaRecord)
    ensures Table(ReplayOne(s, r)) == ApplyOne(Table(s), r) <==> AlignedOne(|s|, r)
  {
    var t, m := Table(ReplayOne(s, r)), ApplyOne(Table(s), r);
    if !AlignedOne(|s|, r) {
      match r
      case Add(o, v) => assert |s| in t; assert |s| !in m;
      case Update(o, v) => assert o in m; assert o !in t;
      case Delete(o) => assert o in t; assert o !in m;
    }
  }

  function LengthAfter(n: nat, r: DeltaRecord): nat {
    match r
    case Add(_, _) => n + 1
    case Update(_, _) => n
    case Delete(o) => if o < n then n - 1 else n
  }

  function LengthAfterAll(n: nat, rs: seq<DeltaRecord>): nat {
    if rs == [] then n else LengthAfter(LengthAfterAll(n, rs[..|rs| - 1]), rs[|rs| - 1])
  }

  ghost predicate Aligned(n: nat, rs: seq<DeltaRecord>) {
    rs == [] || (Aligned(n, rs[..|rs| - 1]) && AlignedOne(LengthAfterAll(n, rs[..|rs| - 1]), rs[|rs| - 1]))
  }

  lemma {:induction false} ReplayLength(s: seq<Payload>, rs: seq<DeltaRecord>)
    ensures |Replay(s, rs)| == LengthAfterAll(|s|, rs)
  {
    if rs != [] { ReplayLength(s, rs[..|rs| - 1]); }
  }

  /** On aligned deltas the consumer's replay refines the ordinal-addressed meaning. */
  lemma {:induction false} AlignedRefines(s: seq<Payload>, rs: seq<DeltaRecord>)
    requires Aligned(|s|, rs)
    ensures Table(Replay(s, rs)) == ApplyAll(Table(s), rs)
  {
    if rs != [] {
      var front := rs[..|rs| - 1];
      AlignedRefines(s, front);
      ReplayLength(s, front);
      AlignedOneExact(Replay(s, front), rs[|rs| - 1]);
    }
  }

  // ----- the replay of a positional diff, fully characterised -----

  /** Positions 1, 3, 5, ... */
  function EveryOther(s: seq<Payload>): (r: seq<Payload>)
    ensures |r| == |s| / 2
    ensures forall k :: 0 <= k < |r| ==> r[k] == s[2 * k + 1]
  {
    seq(|s| / 2, k requires 0 <= k < |s| / 2 => s[2 * k + 1])
  }

  function Min(a: nat, b: nat): nat { if a < b then a else b }

  function ReplayAt(s: seq<Payload>, rs: seq<DeltaRecord>): seq<Payload>
    requires |rs| <= 1
  {
    if rs == [] then s else ReplayOne(s, rs[0])
  }

  /** The replay of the diff, one position at a time. */
  function Stage(prev: seq<Payload>, cur: seq<Payload>, k: nat): seq<Payload>
    requires k <= Max(|prev|, |cur|)
  {
    if k == 0 then prev else ReplayAt(Stage(prev, cur, k - 1), DiffAt(prev, cur, k - 1))
  }

  lemma {:induction false} ReplayIsStage(prev: seq<Payload>, cur: seq<Payload>, k: nat)
    requires k <= Max(|prev|, |cur|)
    ensures Replay(prev, DiffUpTo(prev, cur, k)) == Stage(prev, cur, k)
  {
    if k > 0 {
      ReplayIsStage(prev, cur, k - 1);
      var d, r := DiffUpTo(prev, cur, k - 1), DiffAt(prev, cur, k - 1);
      if r == [] {
        assert d + r == d;
      } else {
        assert (d + r)[..|d + r| - 1] == d;
      }
    }
  }

  /** The first `k` positions read as in `cur`, the others are untouched. */
  ghost predicate SharedDone(prev: seq<Payload>, cur: seq<Payload>, k: nat, s: seq<Payload>) {
    && k <= |cur| && |s| == Max(|prev|, k)
    && (forall i :: 0 <= i < k ==> s[i].text == cur[i].text)
    && (forall i :: k <= i < |prev| ==> s[i] == prev[i])
  }

  /** The shared positions and the additions. */
  lemma {:induction false} SharedStages(prev: seq<Payload>, cur: seq<Payload>, k: nat)
    requires k <= |cur|
    ensures SharedDone(prev, cur, k, Stage(prev, cur, k))
  {
    if k > 0 {
      SharedStages(prev, cur, k - 1);
    }
  }

  lemma {:induction false} EveryOtherPair(s: seq<Payload>, x: Payload, y: Payload)
    requires |s| % 2 == 0
    ensures EveryOther(s + [x, y]) == EveryOther(s) + [y]
    ensures EveryOther(s + [x]) == EveryOther(s)
  {
    var a, b := EveryOther(s + [x, y]), EveryOther(s) + [y];
    assert |a| == |b|;
    forall k | 0 <= k < |a| ensures a[k] == b[k] {
      assert a[k] == (s + [x, y])[2 * k + 1];
    }
    var c := EveryOther(s + [x]);
    forall k | 0 <= k < |c| ensures c[k] == EveryOther(s)[k] {
      assert c[k] == (s + [x])[2 * k + 1];
    }
  }

  /** After `j` deletes from position |head| on: each one skips the element it moved into its place. */
  function AfterDeletes(head: seq<Payload>, tail: seq<Payload>, j: nat): seq<Payload> {
    head + EveryOther(tail[..Min(2 * j, |tail|)]) + tail[Min(2 * j, |tail|)..]
  }

  lemma DeleteAfter(front: seq<Payload>, rest: seq<Payload>)
    ensures ReplayOne(front + rest, Delete(|front|)) == front + (if rest == [] then [] else rest[1..])
  {
  }

  lemma DeletePair(head: seq<Payload>, done: seq<Payload>, x: Payload, y: Payload, rest: seq<Payload>)
    requires |done| % 2 == 0
    ensures ReplayOne(head + EveryOther(done) + ([x, y] + rest), Delete(|head| + |done| / 2)) ==
      head + EveryOther(done + [x, y]) + rest
  {
    EveryOtherPair(done, x, y);
    DeleteAfter(head + EveryOther(done), [x, y] + rest);
  }

  lemma DeleteLast(head: seq<Payload>, done: seq<Payload>, x: Payload)
    requires |done| % 2 == 0
    ensures ReplayOne(head + EveryOther(done) + [x], Delete(|head| + |done| / 2)) == head + EveryOther(done + [x])
  {
    EveryOtherPair(done, x, x);
    DeleteAfter(head + EveryOther(done), [x]);
  }

  lemma AfterEarly(head: seq<Payload>, tail: seq<Payload>, j: nat)
    requires 2 * j <= |tail|
    ensures AfterDeletes(head, tail, j) == head + EveryOther(tail[..2 * j]) + tail[2 * j..]
  {
  }

  lemma SlicePair(tail: seq<Payload>, k: nat)
    requires k + 2 <= |tail|
    ensures tail[k..] == [tail[k], tail[k + 1]] + tail[k + 2..]
    ensures tail[..k + 2] == tail[..k] + [tail[k], tail[k + 1]]
  {
  }

  lemma SkipsPair(head: seq<Payload>, tail: seq<Payload>, j: nat)
    requires 2 * j + 2 <= |tail|
    ensures ReplayOne(AfterDeletes(head, tail, j), Delete(|head| + j)) == AfterDeletes(head, tail, j + 1)
  {
    var k := 2 * j;
    AfterEarly(head, tail, j);
    AfterEarly(head, tail, j + 1);
    SlicePair(tail, k);
    DeletePair(head, tail[..k], tail[k], tail[k + 1], tail[k + 2..]);
  }

  lemma SkipsLast(head: seq<Payload>, tail: seq<Payload>, j: nat)
    requires 2 * j + 1 == |tail|
    ensures ReplayOne(AfterDeletes(head, tail, j), Delete(|head| + j)) == AfterDeletes(head, tail, j + 1)
  {
    DeleteLast(head, tail[..2 * j], tail[2 * j]);
    assert tail[2 * j..] == [tail[2 * j]];
    assert tail[..2 * j + 1] == tail[..2 * j] + [tail[2 * j]] == tail;
  }

  lemma SkipsNone(head: seq<Payload>, tail: seq<Payload>, j: nat)
    requires 2 * j >= |tail|
    ensures ReplayOne(AfterDeletes(head, tail, j), Delete(|head| + j)) == AfterDeletes(head, tail, j + 1)
  {
    assert tail[..|tail|] == tail && |EveryOther(tail)| <= j;
  }

  lemma DeleteSkips(head: seq<Payload>, tail: seq<Payload>, j: nat)
    ensures ReplayOne(AfterDeletes(head, tail, j), Delete(|head| + j)) == AfterDeletes(head, tail, j + 1)
  {
    if 2 * j + 2 <= |tail| {
      SkipsPair(head, tail, j);
    } else if 2 * j + 1 == |tail| {
      SkipsLast(head, tail, j);
    } else {
      SkipsNone(head, tail, j);
    }
  }

  lemma NothingDeleted(head: seq<Payload>, tail: seq<Payload>)
    ensures AfterDeletes(head, tail, 0) == head + tail
  {
  }

  lemma {:induction false} DeleteStages(prev: seq<Payload>, cur: seq<Payload>, head: seq<Payload>, tail: seq<Payload>,
                                        k: nat)
    requires |head| == |cur| <= k <= |prev|
    requires Stage(prev, cur, |cur|) == head + tail
    ensures Stage(prev, cur, k) == AfterDeletes(head, tail, k - |cur|)
    decreases k
  {
    if k == |cur| {
      NothingDeleted(head, tail);
    } else {
      var j := k - 1 - |cur|;
      DeleteStages(prev, cur, head, tail, k - 1);
      DeleteSkips(head, tail, j);
      assert DiffAt(prev, cur, k - 1) == [Delete(|head| + j)];
    }
  }

  lemma AllDeleted(head: seq<Payload>, tail: seq<Payload>, j: nat)
    requires |tail| <= j
    ensures AfterDeletes(head, tail, j) == head + EveryOther(tail)
  {
    assert tail[..|tail|] == tail;
  }

  /** What a shrink by more than one record leaves behind: previous[c+1], previous[c+3], ... */
  function Survivors(prev: seq<Payload>, cur: seq<Payload>): seq<Payload> {
    if |prev| <= |cur| then [] else EveryOther(prev[|cur|..])
  }

  lemma GrownStage(prev: seq<Payload>, cur: seq<Payload>)
    requires |prev| <= |cur|
    ensures SameText(Stage(prev, cur, |cur|), cur)
  {
    SharedStages(prev, cur, |cur|);
  }

  lemma SharedSplits(prev: seq<Payload>, cur: seq<Payload>, s: seq<Payload>)
    requires |prev| > |cur| && SharedDone(prev, cur, |cur|, s)
    ensures SameText(s[..|cur|], cur) && s == s[..|cur|] + prev[|cur|..]
  {
  }

  lemma SameTextAppend(a: seq<Payload>, b: seq<Payload>, c: seq<Payload>)
    requires SameText(a, b)
    ensures SameText(a + c, b + c)
  {
  }

  lemma ShrunkStage(prev: seq<Payload>, cur: seq<Payload>)
    requires |prev| > |cur|
    ensures SameText(Stage(prev, cur, |prev|), cur + EveryOther(prev[|cur|..]))
  {
    SharedStages(prev, cur, |cur|);
    SharedSplits(prev, cur, Stage(prev, cur, |cur|));
    var head, tail := Stage(prev, cur, |cur|)[..|cur|], prev[|cur|..];
    DeleteStages(prev, cur, head, tail, |prev|);
    AllDeleted(head, tail, |prev| - |cur|);
    SameTextAppend(head, cur, EveryOther(tail));
  }

  /** Replaying the diff yields the current list followed by the survivors, as far as `fmt` can tell. */
  lemma ReplayDiff(prev: seq<Payload>, cur: seq<Payload>)
    ensures SameText(Replay(prev, Diff(prev, cur)), cur + Survivors(prev, cur))
  {
    ReplayIsStage(prev, cur, Max(|prev|, |cur|));
    if |prev| <= |cur| {
      GrownStage(prev, cur);
    } else {
      ShrunkStage(prev, cur);
    }
  }

  lemma SurvivorsAt(prev: seq<Payload>, cur: seq<Payload>)
    ensures |Survivors(prev, cur)| == if |prev| <= |cur| then 0 else (|prev| - |cur|) / 2
    ensures forall k :: 0 <= k < |Survivors(prev, cur)| ==>
      |cur| + 1 + 2 * k < |prev| && Survivors(prev, cur)[k] == prev[|cur| + 1 + 2 * k]
  {
  }

  /** Replaying a positional diff is exact exactly when the list shrinks by at most one record. */
  lemma ReplayDiffExact(prev: seq<Payload>, cur: seq<Payload>)
    ensures SameText(Replay(prev, Diff(prev, cur)), cur) <==> |prev| <= |cur| + 1
  {
    ReplayDiff(prev, cur);
    SurvivorsAt(prev, cur);
    assert |cur + Survivors(prev, cur)| == |cur| + |Survivors(prev, cur)|;
  }
}
