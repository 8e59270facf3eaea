/** What a cycle's resharding guarantees about shard counts and shard numbers. */
module Resharding {
  import opened Basics
  import opened Deltas
  import opened WriteEngine
  import opened BlobStore
  import opened Production
  import opened Digests
  import opened History

  lemma Ceiling(records: nat, target: pos)
    ensures records <= (records + target - 1) / target * target < records + target
  {
    var q, r := (records + target - 1) / target, (records + target - 1) % target;
    assert q * target + r == records + target - 1 && r < target;
  }

  lemma AtLeastOne(q: nat, target: pos)
    requires q >= 1
    ensures q * target >= target
  {
    assert q * target == target + (q - 1) * target;
  }

  lemma AtMostOne(q: nat, target: pos)
    requires q <= 1
    ensures q * target <= target
  {
    if q == 0 { assert q * target == 0; } else { assert q * target == target; }
  }

  /** A new count is as small as it can be: one shard fewer could not hold the records. */
  lemma NewCountFits(records: nat, target: pos)
    requires records > target
    ensures records <= NewShardCount(records, target) * target
    ensures (NewShardCount(records, target) - 1) * target < records
  {
    var count := (records + target - 1) / target;
    Ceiling(records, target);
    if count < 2 { AtMostOne(count, target); }
    assert (count - 1) * target == count * target - target;
  }

  lemma CountAfter(e: Engine, target: ShardSize, t: string)
    ensures NumShards(Resized(e, target, e.current.Keys), t) ==
      if t in Oversized(e.current, target) then NewShardCount(|e.current[t]|, target) else NumShards(e.shards, t)
  {
  }

  lemma ReshardedLength(e: Engine, target: ShardSize, t: string)
    requires t in e.current
    ensures t in Reshard(e, target).current && |Reshard(e, target).current[t]| == |e.current[t]|
    ensures NumShards(Reshard(e, target).shards, t) == NumShards(Resized(e, target, e.current.Keys), t)
  {
  }

  /** After resharding every type's records fit its shards; a type just resharded has no shard to spare. */
  lemma ReshardFits(e: Engine, target: pos, t: string)
    requires t in e.current && NumShards(e.shards, t) >= 1
    ensures var (f, n) := (Reshard(e, target), |e.current[t]|);
      && NumShards(f.shards, t) >= 1
      && n <= NumShards(f.shards, t) * target
      && (n > target ==> (NumShards(f.shards, t) - 1) * target < n)
  {
    var n := |e.current[t]|;
    CountAfter(e, target, t);
    ReshardedLength(e, target, t);
    if n > target {
      NewCountFits(n, target);
    } else {
      AtLeastOne(NumShards(e.shards, t), target);
    }
  }

  /** The rest of the truncated division is below two for a negative size. */
  lemma NegativeQuotient(a: int, target: int)
    requires target < 0 && a >= target - 1
    ensures Quotient(a, target) <= 2
  {
    if a >= 0 {
      var q, r := a / target, a % target;
      assert q * target + r == a && 0 <= r < -target;
    } else {
      var q, r := -a / target, -a % target;
      assert q * target + r == -a && 0 <= r < -target;
    }
  }

  /** Who gets a new shard count: the types with more records than the target; a negative target means two shards. */
  lemma ReshardCounts(e: Engine, target: ShardSize, t: string)
    ensures var f := Reshard(e, target);
      && (t in e.current && |e.current[t]| > target ==>
            t in f.shards && f.shards[t] >= 2 && (target < 0 ==> f.shards[t] == 2))
      && (t !in e.current || |e.current[t]| <= target ==>
            (t in f.shards <==> t in e.shards) && (t in f.shards ==> f.shards[t] == e.shards[t]))
  {
    if t in e.current && |e.current[t]| > target && target < 0 {
      NegativeQuotient(|e.current[t]| + target - 1, target);
    }
  }

  /** The shard is in range and differs from the hash by a multiple of the count; with one shard it is 0. */
  ghost predicate InShard(shards: map<string, int>, t: string, h: nat, shard: int) {
    if t in shards && shards[t] > 1 then 0 <= shard < shards[t] && exists q: nat :: h == q * shards[t] + shard
    else shard == 0
  }

  lemma DivMod(h: nat, count: pos)
    ensures 0 <= h % count < count && exists q: nat :: h == q * count + h % count
  {
    assert h == h / count * count + h % count;
  }

  lemma ShardPlaced(hash: string -> nat, shards: map<string, int>, t: string, key: string)
    ensures InShard(shards, t, hash(key), ShardOf(hash, shards, t, key))
  {
    if t in shards && shards[t] > 1 { DivMod(hash(key), shards[t]); }
  }

  /** Every wrapped record of a keyed type with a readable key is moved to the shard of its key's hash. */
  lemma ReshardPlaces(e: Engine, target: ShardSize, t: string, i: nat)
    requires t in e.current && t in e.primaryKeys
    requires i < |e.current[t]| && e.current[t][i].Info? && KeyOf(e.current[t][i].value, e.primaryKeys[t]).Some?
    ensures var f := Reshard(e, target);
      var (r, key) := (f.current[t][i], KeyOf(e.current[t][i].value, e.primaryKeys[t]).value);
      r.Info? && r == e.current[t][i].(shard := r.shard) && InShard(f.shards, t, e.hash(key), r.shard)
  {
    var f := Reshard(e, target);
    CountAfter(e, target, t);
    ReshardedLength(e, target, t);
    ShardPlaced(f.hash, f.shards, t, KeyOf(e.current[t][i].value, e.primaryKeys[t]).value);
  }

  // ----- over cycles -----

  ghost predicate RecordPlaced(e: Engine, t: string, r: Record)
    requires t in e.primaryKeys
  {
    r.Info? && e.primaryKeys[t] in r.value.fields ==>
      InShard(e.shards, t, e.hash(r.value.fields[e.primaryKeys[t]]), r.shard)
  }

  /** Every wrapped record of the type with a readable key is in the shard of its key's hash. */
  ghost predicate AllPlaced(e: Engine, t: string) {
    t in e.primaryKeys ==>
      forall i :: 0 <= i < |ListOf(e.current, t)| ==> RecordPlaced(e, t, ListOf(e.current, t)[i])
  }

  lemma AddedPlaced(e: Engine, v: Payload, t: string)
    requires AllPlaced(e, t)
    ensures AllPlaced(AddValue(e, v), t)
  {
    var f := AddValue(e, v);
    assert f.shards == e.shards && f.hash == e.hash && f.primaryKeys == e.primaryKeys;
    if t in e.primaryKeys {
      var rs, more := ListOf(e.current, t), ListOf(f.current, t);
      forall i | 0 <= i < |more| ensures RecordPlaced(f, t, more[i]) {
        if i < |rs| {
          assert RecordPlaced(e, t, rs[i]) && more[i] == rs[i];
        } else if e.primaryKeys[t] in v.fields {
          ShardPlaced(e.hash, e.shards, t, v.fields[e.primaryKeys[t]]);
        }
      }
    }
  }

  lemma {:induction false} PopulatedPlaced(e: Engine, rows: seq<Payload>, t: string)
    requires AllPlaced(e, t)
    ensures AllPlaced(AddAll(e, rows), t)
  {
    if rows != [] {
      PopulatedPlaced(e, rows[..|rows| - 1], t);
      AddedPlaced(AddAll(e, rows[..|rows| - 1]), rows[|rows| - 1], t);
    }
  }

  lemma ReshardedPlaced(e: Engine, target: ShardSize, t: string)
    ensures AllPlaced(Reshard(e, target), t)
  {
    var f := Reshard(e, target);
    if t in e.primaryKeys && t in e.current {
      ReshardedLength(e, target, t);
      forall i | 0 <= i < |f.current[t]| ensures RecordPlaced(f, t, f.current[t][i]) {
        if e.current[t][i].Info? && KeyOf(e.current[t][i].value, e.primaryKeys[t]).Some? {
          ReshardPlaces(e, target, t, i);
        }
      }
    }
  }

  lemma MeasuredPlaced(p: ProducerState, e: Engine, t: string)
    requires AllPlaced(e, t)
    ensures AllPlaced(Measured(p, e), t)
  {
    if p.typeResharding { ReshardedPlaced(e, p.targetMaxTypeShardSize, t); }
  }

  /** The engine a cycle leaves behind, up to its delta. */
  lemma EngineLeft(p: ProducerState, input: CycleInput)
    ensures var (q, o) := Cycle(p, input);
      var e := Populated(p, input.rows);
      q.engine == match o
        case NotPrimary => p.engine
        case EmptyCycle => e
        case Identical => e
        case Rejected => Prepare(Measured(p, e))
        case StoreFailed => Measured(p, e).(delta := q.engine.delta)
        case Published => Measured(p, e).(delta := q.engine.delta)
  {
    var r := Populating(p, input);
    StoreBlobFacts(r.(engine := Measured(r, r.engine)), p.currentVersion + 1, input.encodes);
  }

  /** Whatever a cycle is given and however it ends, all records of its state are in their shards afterwards. */
  lemma CyclePlaced(p: ProducerState, input: CycleInput, t: string)
    requires AllPlaced(p.engine, t)
    ensures AllPlaced(Cycle(p, input).0.engine, t)
  {
    var e := Populated(p, input.rows);
    EngineLeft(p, input);
    PopulatedPlaced(Prepare(p.engine), input.rows, t);
    MeasuredPlaced(p, e, t);
  }

  function Cycles(p: ProducerState, inputs: seq<CycleInput>): ProducerState {
    if inputs == [] then p else Cycle(Cycles(p, inputs[..|inputs| - 1]), inputs[|inputs| - 1]).0
  }

  lemma {:induction false} RunPlaced(p: ProducerState, inputs: seq<CycleInput>, t: string)
    requires AllPlaced(p.engine, t)
    ensures AllPlaced(Cycles(p, inputs).engine, t)
  {
    if inputs != [] {
      RunPlaced(p, inputs[..|inputs| - 1], t);
      CyclePlaced(Cycles(p, inputs[..|inputs| - 1]), inputs[|inputs| - 1], t);
    }
  }

  /** The shards hold the records, and a type that needs more than one could not do with one fewer. */
  predicate Fits(records: nat, shards: map<string, int>, t: string, target: pos) {
    var count := if t in shards then shards[t] else 1;
    count >= 1 && records <= count * target && (records > target ==> (count - 1) * target < records)
  }

  /** Stored shard counts are positive, as long as nobody sets others. */
  predicate Positive(shards: map<string, int>) {
    forall t :: t in shards ==> shards[t] >= 1
  }

  lemma PopulatedCounts(p: ProducerState, rows: seq<Payload>, t: string)
    ensures Populated(p, rows).shards == p.engine.shards
    ensures |ListOf(Populated(p, rows).current, t)| == |OfType(rows, t)|
  {
    PopulateFrame(Prepare(p.engine), rows);
    PopulatedValues(Prepare(p.engine), rows, t);
    assert |Values(ListOf(Populated(p, rows).current, t))| == |ListOf(Populated(p, rows).current, t)|;
  }

  lemma ReshardFitsAll(e: Engine, target: pos, t: string)
    requires Positive(e.shards)
    ensures Fits(|ListOf(e.current, t)|, Reshard(e, target).shards, t, target)
    ensures Positive(Reshard(e, target).shards)
  {
    forall u ensures u in Reshard(e, target).shards ==> Reshard(e, target).shards[u] >= 1 {
      ReshardCounts(e, target, u);
    }
    if t in e.current {
      ReshardFits(e, target, t);
    } else {
      ReshardCounts(e, target, t);
      AtLeastOne(NumShards(e.shards, t), target);
    }
  }

  /** The cycle gets as far as resharding. */
  predicate Reshards(p: ProducerState, input: CycleInput) {
    p.typeResharding && Advances(p, input)
  }

  lemma Committing(p: ProducerState, input: CycleInput)
    ensures Cycle(p, input).1 in {Rejected, StoreFailed, Published} <==> Advances(p, input)
  {
    CycleOutcome(p, input);
  }

  lemma MeasuredShards(p: ProducerState, e: Engine)
    ensures Measured(p, e).shards == if p.typeResharding then Reshard(e, p.targetMaxTypeShardSize).shards else e.shards
  {
  }

  lemma EngineShards(before: Engine, e: Engine, f: Engine, after: Engine, o: Outcome)
    requires e.shards == before.shards
    requires after == match o
      case NotPrimary => before
      case EmptyCycle => e
      case Identical => e
      case Rejected => Prepare(f)
      case StoreFailed => f.(delta := after.delta)
      case Published => f.(delta := after.delta)
    ensures after.shards == if o in {Rejected, StoreFailed, Published} then f.shards else before.shards
  {
  }

  lemma ShardsLeft(p: ProducerState, input: CycleInput)
    ensures Cycle(p, input).0.engine.shards ==
      if Reshards(p, input) then Reshard(Populated(p, input.rows), p.targetMaxTypeShardSize).shards else p.engine.shards
  {
    var e := Populated(p, input.rows);
    PopulatedCounts(p, input.rows, "");
    EngineLeft(p, input);
    EngineShards(p.engine, e, Measured(p, e), Cycle(p, input).0.engine, Cycle(p, input).1);
    Committing(p, input);
    MeasuredShards(p, e);
  }

  /**
   A cycle that gets that far leaves shards that hold what it was given, type by type;
   any other leaves the shard counts as they were.
   */
  lemma CycleFits(p: ProducerState, input: CycleInput, t: string)
    requires Positive(p.engine.shards)
    ensures var q := Cycle(p, input).0;
      && (Reshards(p, input) && p.targetMaxTypeShardSize > 0 ==>
            Fits(|OfType(input.rows, t)|, q.engine.shards, t, p.targetMaxTypeShardSize) && Positive(q.engine.shards))
      && (!Reshards(p, input) ==> q.engine.shards == p.engine.shards)
  {
    ShardsLeft(p, input);
    PopulatedCounts(p, input.rows, t);
    if p.targetMaxTypeShardSize > 0 {
      ReshardFitsAll(Populated(p, input.rows), p.targetMaxTypeShardSize, t);
    }
  }
}
