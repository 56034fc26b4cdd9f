/** The shards that the structure laws ask for are the ones that the external ISAM tree
    builds. */
module ShardBuilding {
  import opened Records
  import opened MergeBag
  import opened ExtensionStructures
  import opened ExternalISAMTrees

  /** A flushed batch becomes a shard with its net counts and no more records. */
  method ShardOfBatch(nodeSize: nat, recSize: nat, fanout: nat, blank: Wrapped, batch: seq<Wrapped>, n: nat)
      returns (tree: ISAMTree, shard: Shard)
    requires 1 <= recSize <= nodeSize && fanout >= 2 && Untagged(batch)
    ensures fresh(tree) && Builds(tree, nodeSize, recSize, shard) && FlushOf(batch, n, shard)
  {
    var tombstones := CountTombstones(batch);
    tree := new ISAMTree(nodeSize, recSize, fanout, blank, batch, tombstones);
    CancellingKeepsNet(batch, tree.recs);
    var recs := tree.ReadAll();
    shard := Shard(recs, n, n + 1);
  }

  /** The tree is valid and holds the shard, with nothing tagged. */
  ghost predicate Builds(tree: ISAMTree, nodeSize: nat, recSize: nat, shard: Shard)
    reads tree
  {
    && tree.Valid() && tree.recs == shard.recs && Untagged(shard.recs)
    && tree.nodeSize == nodeSize && tree.recSize == recSize
  }

  method CountTombstones(batch: seq<Wrapped>) returns (n: nat)
    ensures n == Tombstones(batch)
  {
    n := 0;
    var i := |batch|;
    while i > 0
      invariant 0 <= i <= |batch| && n == Tombstones(batch[i..])
    {
      i := i - 1;
      assert batch[i..][1..] == batch[i + 1..];
      if batch[i].tombstone {
        n := n + 1;
      }
    }
    assert batch[0..] == batch;
  }

  ghost predicate Stored(trees: seq<ISAMTree>, inputs: seq<Shard>)
    reads set t | t in trees
  {
    |trees| == |inputs| && forall i :: 0 <= i < |trees| ==> trees[i].recs == inputs[i].recs && Untagged(inputs[i].recs)
  }

  lemma {:induction false} StoredUntagged(trees: seq<ISAMTree>, inputs: seq<Shard>)
    requires Stored(trees, inputs)
    ensures Untagged(Flatten(Contents(trees)))
  {
    if trees != [] {
      StoredUntagged(trees[1..], inputs[1..]);
      assert Contents(trees)[1..] == Contents(trees[1..]);
    }
  }

  lemma {:induction false} StoredNet(trees: seq<ISAMTree>, inputs: seq<Shard>, r: Record)
    requires Stored(trees, inputs)
    ensures Net(Flatten(Contents(trees)), r) == ShardsNet(inputs, r)
            && |Flatten(Contents(trees))| == RecordCount(inputs)
  {
    if trees != [] {
      StoredNet(trees[1..], inputs[1..], r);
      assert Contents(trees)[1..] == Contents(trees[1..]);
      NetConcat(trees[0].recs, Flatten(Contents(trees[1..])), r);
    }
  }

  /** Merged shards, none of them empty, become one shard with their net counts together. */
  method ShardOfShards(nodeSize: nat, recSize: nat, fanout: nat, blank: Wrapped, trees: seq<ISAMTree>,
        inputs: seq<Shard>)
      returns (tree: ISAMTree, shard: Shard)
    requires 1 <= recSize <= nodeSize && fanout >= 2 && trees != [] && Stored(trees, inputs)
    requires forall t :: t in trees ==> t.Valid() && t.reccnt > 0 && t.nodeSize == nodeSize && t.recSize == recSize
    ensures fresh(tree) && Builds(tree, nodeSize, recSize, shard) && ShardOf(inputs, shard)
  {
    StoredUntagged(trees, inputs);
    hide Contents, Flatten, Net, RecordCount, ShardsNet;
    tree := new ISAMTree.FromShards(nodeSize, recSize, fanout, blank, trees);
    var recs := tree.ReadAll();
    shard := Shard(recs, inputs[0].first, inputs[|inputs| - 1].last);
    StoredNet(trees, inputs, Record(0, 0));
    CancellingKeepsNet(Flatten(Contents(trees)), recs);
    forall r ensures Net(shard.recs, r) == ShardsNet(inputs, r) { StoredNet(trees, inputs, r); }
  }
}
