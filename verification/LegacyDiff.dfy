/** The map diff of the legacy API: computing it, applying it, validating it and reading it back from storage. */
module LegacyDiff {
  import opened Basics

  datatype DataDiff = DataDiff(added: seq<string>, removed: seq<string>, changed: seq<string>)

  /** A map that callers share and `Apply` edits in place. */
  class Target<V> {
    var entries: map<string, V>

    constructor (entries: map<string, V>)
      ensures this.entries == entries
    {
      this.entries := entries;
    }
  }

  // ----- computing a diff -----

  /** The three key lists, each without repetitions, in some order; `same` is the deep comparison. */
  ghost predicate IsDiff<V>(same: (V, V) -> bool, old_: map<string, V>, new_: map<string, V>, d: DataDiff) {
    && Distinct(d.added) && Distinct(d.removed) && Distinct(d.changed)
    && (forall k :: k in d.added <==> k in new_ && k !in old_)
    && (forall k :: k in d.removed <==> k in old_ && k !in new_)
    && (forall k :: k in d.changed <==> k in old_ && k in new_ && !same(old_[k], new_[k]))
  }

  method AddedAndChanged<V>(same: (V, V) -> bool, old_: map<string, V>, new_: map<string, V>)
    returns (added: seq<string>, changed: seq<string>)
    ensures Distinct(added) && Distinct(changed)
    ensures forall k :: k in added <==> k in new_ && k !in old_
    ensures forall k :: k in changed <==> k in old_ && k in new_ && !same(old_[k], new_[k])
  {
    added, changed := [], [];
    var keys := InSomeOrder(new_.Keys);
    for i := 0 to |keys|
      invariant Distinct(added) && Distinct(changed)
      invariant forall k :: k in added <==> k in keys[..i] && k !in old_
      invariant forall k :: k in changed <==> k in keys[..i] && k in old_ && !same(old_[k], new_[k])
    {
      var k := keys[i];
      if k !in old_ {
        added := added + [k];
      } else if !same(old_[k], new_[k]) {
        changed := changed + [k];
      }
    }
  }

  method Removed<V>(old_: map<string, V>, new_: map<string, V>) returns (removed: seq<string>)
    ensures Distinct(removed)
    ensures forall k :: k in removed <==> k in old_ && k !in new_
  {
    removed := [];
    var keys := InSomeOrder(old_.Keys);
    for i := 0 to |keys|
      invariant Distinct(removed)
      invariant forall k :: k in removed <==> k in keys[..i] && k !in new_
    {
      if keys[i] !in new_ { removed := removed + [keys[i]]; }
    }
  }

  method DiffData<V>(same: (V, V) -> bool, old_: map<string, V>, new_: map<string, V>) returns (d: DataDiff)
    ensures IsDiff(same, old_, new_, d)
  {
    var added, changed := AddedAndChanged(same, old_, new_);
    var removed := Removed(old_, new_);
    d := DataDiff(added, removed, changed);
  }

  // ----- applying a diff -----

  function Put<V>(m: map<string, V>, keys: set<string>, source: map<string, V>): map<string, V> {
    map k | k in m.Keys + keys * source.Keys :: if k in keys && k in source then source[k] else m[k]
  }

  function Applied<V>(d: DataDiff, target: map<string, V>, source: map<string, V>): map<string, V> {
    Put(Put(target, Members(d.added), source), Members(d.changed), source) - Members(d.removed)
  }

  /** Key by key: a removed key is gone, an added or changed one has the source's value if there is one, others stay. */
  lemma AppliedAt<V>(d: DataDiff, target: map<string, V>, source: map<string, V>, k: string)
    ensures var result := Applied(d, target, source);
      if k in d.removed then k !in result
      else if k in d.added + d.changed && k in source then k in result && result[k] == source[k]
      else (k in result <==> k in target) && (k in result ==> result[k] == target[k])
  {
    assert k in Members(d.added) <==> k in d.added;
    assert k in Members(d.changed) <==> k in d.changed;
    assert k in Members(d.removed) <==> k in d.removed;
  }

  method PutAll<V>(target: Target<V>, keys: seq<string>, source: map<string, V>)
    modifies target
    ensures target.entries == Put(old(target.entries), Members(keys), source)
  {
    for i := 0 to |keys|
      invariant target.entries == Put(old(target.entries), Members(keys[..i]), source)
    {
      assert Members(keys[..i + 1]) == Members(keys[..i]) + {keys[i]};
      if keys[i] in source {
        target.entries := target.entries[keys[i] := source[keys[i]]];
      }
    }
    assert keys[..|keys|] == keys;
  }

  method Apply<V>(d: DataDiff, target: Target<V>, source: map<string, V>)
    modifies target
    ensures target.entries == Applied(d, old(target.entries), source)
  {
    PutAll(target, d.added, source);
    PutAll(target, d.changed, source);
    ghost var put := target.entries;
    for i := 0 to |d.removed|
      invariant target.entries == put - Members(d.removed[..i])
    {
      assert Members(d.removed[..i + 1]) == Members(d.removed[..i]) + {d.removed[i]};
      target.entries := target.entries - {d.removed[i]};
    }
    assert d.removed[..|d.removed|] == d.removed;
  }

  /** Each key ends as in `new_`, or keeps the old value the comparison took for the same. */
  ghost predicate Updated<V(!new)>(same: (V, V) -> bool, old_: map<string, V>, new_: map<string, V>,
                            result: map<string, V>) {
    && result.Keys == new_.Keys
    && forall k :: k in new_ ==> result[k] == if k in old_ && same(old_[k], new_[k]) then old_[k] else new_[k]
  }

  /** Applying the diff of two maps to the first gives the second, up to what the comparison equates. */
  lemma RoundTrip<V(!new)>(same: (V, V) -> bool, old_: map<string, V>, new_: map<string, V>, d: DataDiff)
    requires IsDiff(same, old_, new_, d)
    ensures Updated(same, old_, new_, Applied(d, old_, new_))
  {
    var result := Applied(d, old_, new_);
    forall k ensures k in result <==> k in new_ {
      assert k in Members(d.added) <==> k in new_ && k !in old_;
    }
  }

  /** So with a comparison that is equality the round trip is exact. */
  lemma RoundTripExact<V(!new)>(same: (V, V) -> bool, old_: map<string, V>, new_: map<string, V>, d: DataDiff)
    requires IsDiff(same, old_, new_, d) && forall x, y :: same(x, y) ==> x == y
    ensures Applied(d, old_, new_) == new_
  {
    RoundTrip(same, old_, new_, d);
  }

  // ----- validation -----

  function AllKeys(d: DataDiff): seq<string> {
    d.added + d.removed + d.changed
  }

  method NoneSeen(keys: seq<string>, before: set<string>) returns (ok: bool, seen: set<string>)
    ensures ok <==> Distinct(keys) && forall k :: k in keys ==> k !in before
    ensures ok ==> seen == before + Members(keys)
  {
    seen := before;
    for i := 0 to |keys|
      invariant seen == before + Members(keys[..i])
      invariant Distinct(keys[..i]) && forall k :: k in keys[..i] ==> k !in before
    {
      if keys[i] in seen { return false, seen; }
      assert Members(keys[..i + 1]) == Members(keys[..i]) + {keys[i]};
      seen := seen + {keys[i]};
    }
    assert keys[..|keys|] == keys;
    ok := true;
  }

  lemma DistinctParts(a: seq<string>, b: seq<string>)
    ensures Distinct(a + b) <==> Distinct(a) && Distinct(b) && forall k :: k in b ==> k !in a
  {
    var c := a + b;
    if Distinct(c) {
      assert forall i :: 0 <= i < |a| ==> c[i] == a[i];
      assert forall j :: 0 <= j < |b| ==> c[|a| + j] == b[j];
    } else {
      var i, j :| 0 <= i < j < |c| && c[i] == c[j];
      if i < |a| <= j { assert c[j] in b && c[i] in a; }
    }
  }

  /** Accepts a diff exactly when no key occurs twice, within a list or across lists. */
  method ValidateDelta(d: DataDiff) returns (ok: bool)
    ensures ok <==> Distinct(AllKeys(d))
  {
    DistinctParts(d.added, d.removed);
    DistinctParts(d.added + d.removed, d.changed);
    var seen := {};
    ok, seen := NoneSeen(d.added, seen);
    if !ok { return; }
    ok, seen := NoneSeen(d.removed, seen);
    if !ok { return; }
    ok, seen := NoneSeen(d.changed, seen);
  }

  /** Every computed diff passes validation. */
  lemma DiffValidates<V>(same: (V, V) -> bool, old_: map<string, V>, new_: map<string, V>, d: DataDiff)
    requires IsDiff(same, old_, new_, d)
    ensures Distinct(AllKeys(d))
  {
    DistinctParts(d.added, d.removed);
    DistinctParts(d.added + d.removed, d.changed);
  }

  // ----- reading a stored diff back -----

  function WithKeys(m: map<string, string>, keys: seq<string>, prefix: string): map<string, string> {
    map k | k in m.Keys + Members(keys) :: if k in keys then prefix + k else m[k]
  }

  /** A map that has the removed and the changed keys. */
  function OldWitness(d: DataDiff): map<string, string> {
    WithKeys(WithKeys(map[], d.removed, ""), d.changed, "old_")
  }

  /** One that has the added and the changed keys, the latter with other values. */
  function NewWitness(d: DataDiff): map<string, string> {
    WithKeys(WithKeys(map[], d.added, ""), d.changed, "new_")
  }

  predicate SameString(a: string, b: string) { a == b }

  /** What decoding makes of the three stored key lists. */
  ghost predicate Rebuilt(d: DataDiff, e: DataDiff) {
    IsDiff(SameString, OldWitness(d), NewWitness(d), e)
  }

  lemma WithKeysSnoc(m: map<string, string>, keys: seq<string>, prefix: string, k: string)
    ensures WithKeys(m, keys + [k], prefix) == WithKeys(m, keys, prefix)[k := prefix + k]
  {
    assert Members(keys + [k]) == Members(keys) + {k};
  }

  method PutKeys(m: map<string, string>, keys: seq<string>, prefix: string) returns (r: map<string, string>)
    ensures r == WithKeys(m, keys, prefix)
  {
    r := m;
    assert WithKeys(m, [], prefix) == m;
    for i := 0 to |keys|
      invariant r == WithKeys(m, keys[..i], prefix)
    {
      WithKeysSnoc(m, keys[..i], prefix, keys[i]);
      assert keys[..i + 1] == keys[..i] + [keys[i]];
      r := r[keys[i] := prefix + keys[i]];
    }
    assert keys[..|keys|] == keys;
  }

  method RebuildDiff(d: DataDiff) returns (e: DataDiff)
    ensures Rebuilt(d, e)
  {
    var oldData := PutKeys(map[], d.removed, "");
    var newData := PutKeys(map[], d.added, "");
    oldData := PutKeys(oldData, d.changed, "old_");
    newData := PutKeys(newData, d.changed, "new_");
    e := DiffData(SameString, oldData, newData);
  }

  predicate SameKeySets(d: DataDiff, e: DataDiff) {
    Members(d.added) == Members(e.added) && Members(d.removed) == Members(e.removed) &&
      Members(d.changed) == Members(e.changed)
  }

  predicate DisjointLists(d: DataDiff) {
    Members(d.added) !! Members(d.removed) !! Members(d.changed)
  }

  lemma WitnessesDiffer(k: string)
    ensures "old_" + k != "new_" + k
  {
    assert ("old_" + k)[0] == 'o' && ("new_" + k)[0] == 'n';
  }

  lemma RebuiltAt(d: DataDiff, e: DataDiff, k: string)
    requires Rebuilt(d, e)
    ensures k in e.changed <==> k in d.changed
    ensures k in e.added <==> k in d.added && k !in d.removed && k !in d.changed
    ensures k in e.removed <==> k in d.removed && k !in d.added && k !in d.changed
  {
    WitnessesDiffer(k);
    assert k in Members(d.added) <==> k in d.added;
    assert k in Members(d.removed) <==> k in d.removed;
    assert k in Members(d.changed) <==> k in d.changed;
  }

  /**
   The three key sets come back exactly when they do not overlap; otherwise a change
   wins and an add cancels a removal.
   */
  lemma RebuildExact(d: DataDiff, e: DataDiff)
    requires Rebuilt(d, e)
    ensures SameKeySets(d, e) <==> DisjointLists(d)
  {
    forall k
      ensures k in Members(e.changed) <==> k in Members(d.changed)
      ensures k in Members(e.added) <==> k in Members(d.added) && k !in Members(d.removed) && k !in Members(d.changed)
      ensures k in Members(e.removed) <==> k in Members(d.removed) && k !in Members(d.added) && k !in Members(d.changed)
    {
      RebuiltAt(d, e, k);
    }
    if SameKeySets(d, e) {
      forall k | k in Members(d.added) ensures k !in Members(d.removed) && k !in Members(d.changed) {
        assert k in Members(e.added);
      }
      forall k | k in Members(d.removed) ensures k !in Members(d.changed) { assert k in Members(e.removed); }
    }
  }

  lemma ValidDisjoint(d: DataDiff)
    requires Distinct(AllKeys(d))
    ensures DisjointLists(d)
  {
    DistinctParts(d.added, d.removed);
    DistinctParts(d.added + d.removed, d.changed);
  }

  /** A computed diff that has been through storage still turns the old map into the new one. */
  lemma StoredRoundTrip<V(!new)>(same: (V, V) -> bool, old_: map<string, V>, new_: map<string, V>, d: DataDiff,
                          e: DataDiff)
    requires IsDiff(same, old_, new_, d) && Rebuilt(d, e)
    ensures Distinct(AllKeys(e)) && Updated(same, old_, new_, Applied(e, old_, new_))
  {
    DiffValidates(same, old_, new_, d);
    ValidDisjoint(d);
    RebuildExact(d, e);
    DiffValidates(SameString, OldWitness(d), NewWitness(d), e);
    assert Applied(e, old_, new_) == Applied(d, old_, new_);
    RoundTrip(same, old_, new_, d);
  }
}
