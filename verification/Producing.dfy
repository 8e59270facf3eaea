/** The producer object: its loops and in-place updates, against the cycle on values. */
module Producing {
  import opened Basics
  import opened Deltas
  import opened WriteEngine
  import opened BlobStore
  import opened Production
  import opened Digests
  import opened Sorting
  import opened History

  class Producer {
    const writeEngine: WriteStateEngine
    const blobStore: InMemoryBlobStore
    var currentVersion: nat
    var lastSnapshotVersion: nat
    var lastDataHash: Option<Digest>
    const numStatesBetweenSnapshots: int
    const typeResharding: bool
    const targetMaxTypeShardSize: ShardSize

    ghost function Model(): ProducerState
      reads this, writeEngine, writeEngine.identityMap, writeEngine.currentDelta, blobStore
    {
      ProducerState(writeEngine.Model(), blobStore.Model(), currentVersion, lastSnapshotVersion, lastDataHash,
                    numStatesBetweenSnapshots, typeResharding, targetMaxTypeShardSize)
    }

    constructor (hash: string -> nat, primaryKeys: map<string, string>, store: InMemoryBlobStore,
                 interval: int, resharding: bool, target: ShardSize)
      ensures blobStore == store && fresh(writeEngine) && fresh(writeEngine.identityMap)
      ensures fresh(writeEngine.currentDelta)
      ensures Model() == Started(hash, primaryKeys, store.Model(), interval, resharding, target)
    {
      blobStore := store;
      currentVersion, lastSnapshotVersion, lastDataHash := 0, 0, None;
      numStatesBetweenSnapshots, typeResharding, targetMaxTypeShardSize := interval, resharding, target;
      var engine := new WriteStateEngine(hash);
      engine.SetPrimaryKeys(primaryKeys);
      writeEngine := engine;
    }

    method Store(version: nat, encodes: bool) returns (ok: bool)
      modifies this`lastSnapshotVersion, writeEngine.currentDelta, blobStore
      ensures (Model(), ok) == StoreBlob(old(Model()), version, encodes)
      ensures writeEngine.currentDelta == old(writeEngine.currentDelta)
    {
      var content := ContentOf(writeEngine.currentState);
      var snapshot := lastSnapshotVersion == 0 || version - lastSnapshotVersion >= numStatesBetweenSnapshots;
      var blob: Blob;
      if snapshot {
        lastSnapshotVersion := version;
        if !encodes { return false; }
        blob := Blob(SnapshotBlob, version, 0, version, SnapshotBytes(content));
      } else {
        ghost var recorded := writeEngine.currentDelta.Deltas;
        var delta := writeEngine.GetCurrentDelta();
        var empty := writeEngine.currentDelta.IsEmpty();
        if !empty && !encodes { return false; }
        // The change statistics ask for the merged delta a second time.
        OptimizeMapIdempotent(recorded);
        var again := writeEngine.GetCurrentDelta();
        blob := Blob(DeltaBlob, version, currentVersion, version, if empty then NoBytes else DeltaBytes(delta));
      }
      ok := blobStore.Store(blob);
    }

    method Accepted(verdicts: seq<Verdict>) returns (accepted: bool)
      ensures accepted <==> Failed !in verdicts
    {
      for i := 0 to |verdicts|
        invariant Failed !in verdicts[..i]
      {
        if verdicts[i] == Failed { return false; }
      }
      return true;
    }

    /** Sorted type names; for each the count and the texts, wrapped records by their values. */
    method CalculateDataHash(data: Data) returns (dataHash: Digest)
      ensures dataHash == DataHash(ContentOf(data))
    {
      var keys := SortKeys(data.Keys);
      ghost var c := ContentOf(data);
      dataHash := [];
      for i := 0 to |keys|
        invariant dataHash == Fed(c, keys[..i])
      {
        FedNext(c, keys, i);
        assert keys[i] in keys;
        var text := JoinTexts(data[keys[i]]);
        dataHash := dataHash + (Utf8(keys[i]) + LittleEndian(|data[keys[i]]|, 8) + Utf8(text));
      }
      assert keys[..|keys|] == keys;
      assert c.Keys == data.Keys;
    }

    method SortKeys(names: set<string>) returns (keys: seq<string>)
      ensures keys == SortedKeys(names) && forall k :: k in keys ==> k in names
    {
      keys := InSomeOrder(names);
      SortedIsArranged(names, keys);
      var a := new string[|keys|](i requires 0 <= i < |keys| => keys[i]);
      assert a[..] == keys;
      StringOrder();
      ExchangeSort(a, StringLess);
      keys := a[..];
      SortedKeysListed(names);
    }

    method JoinTexts(records: seq<Record>) returns (text: string)
      ensures text == Joined(Values(records))
    {
      text := "";
      for i := 0 to |records|
        invariant text == Joined(Values(records[..i]))
      {
        assert records[..i + 1][..i] == records[..i];
        assert Values(records[..i + 1])[..i] == Values(records[..i]);
        text := text + records[i].value.text;
      }
      assert records[..|records|] == records;
    }

    method BeginCycle(rows: seq<Payload>)
      modifies writeEngine, writeEngine.identityMap
      ensures Model() == old(Model()).(engine := Populated(old(Model()), rows)) && fresh(writeEngine.currentDelta)
    {
      writeEngine.PrepareForCycle();
      writeEngine.Populate(rows);
    }

    method Measure()
      modifies writeEngine`shardCounts, writeEngine`currentState, writeEngine.currentDelta
      ensures Model() == old(Model()).(engine := Measured(old(Model()), old(Model()).engine))
    {
      if typeResharding {
        writeEngine.PerformResharding(targetMaxTypeShardSize);
      }
      writeEngine.CalculateDeletes();
    }

    method CommitCycle(dataHash: Digest, input: CycleInput) returns (outcome: Outcome)
      modifies this, writeEngine, writeEngine.currentDelta, blobStore
      ensures (Model(), outcome) == Commit(old(Model()), dataHash, input)
    {
      Measure();
      var accepted := Accepted(input.verdicts);
      if !accepted {
        writeEngine.PrepareForCycle();
        return Rejected;
      }
      var stored := Store(currentVersion + 1, input.encodes);
      if !stored { return StoreFailed; }
      currentVersion := currentVersion + 1;
      lastDataHash := Some(dataHash);
      return Published;
    }

    method Run(input: CycleInput) returns (outcome: Outcome)
      modifies this, writeEngine, writeEngine.identityMap, writeEngine.currentDelta, blobStore
      ensures (Model(), outcome) == Cycle(old(Model()), input)
    {
      if !input.primary { return NotPrimary; }
      BeginCycle(input.rows);
      var empty := writeEngine.IsEmpty();
      if empty { return EmptyCycle; }
      var dataHash := CalculateDataHash(writeEngine.currentState);
      if currentVersion > 0 && lastDataHash == Some(dataHash) { return Identical; }
      outcome := CommitCycle(dataHash, input);
    }

    /** The announcer's answer changes nothing here. */
    method RunCycle(input: CycleInput) returns (version: int, ok: bool, announced: Option<int>)
      modifies this, writeEngine, writeEngine.identityMap, writeEngine.currentDelta, blobStore
      ensures Model() == Cycle(old(Model()), input).0
      ensures Answered(old(Model()), input, Model(), Answer(version, ok, announced))
    {
      ghost var p := Model();
      var outcome := Run(input);
      match outcome {
        case NotPrimary => version, ok, announced := currentVersion, true, None;
        case EmptyCycle => version, ok, announced := 0, true, None;
        case Identical => version, ok, announced := currentVersion, true, None;
        case Rejected => version, ok, announced := 0, false, None;
        case StoreFailed => version, ok, announced := 0, false, None;
        case Published => version, ok, announced := currentVersion, true, Some(currentVersion);
      }
      CycleAnswers(p, input, Answer(version, ok, announced));
    }
  }
}
