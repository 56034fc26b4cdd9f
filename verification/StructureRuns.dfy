/** Structures grown by flush cycles, and the laws of their shape. */
module StructureRuns {
  import opened Records
  import opened ExtensionStructures
  import opened ShardOrder
  import opened PlannerProofs
  import opened PlannerRuns

  // ---------------------------------------------------------------------------
  // Flushing
  // ---------------------------------------------------------------------------

  ghost predicate BatchAdded(s: Structure, batch: seq<Wrapped>, s': Structure) {
    forall r :: ShardsNet(AllShards(s'.levels), r) == ShardsNet(AllShards(s.levels), r) + Net(batch, r)
  }

  lemma ReplaceTop(a: seq<Level>, b: seq<Level>)
    requires a != [] && b != [] && a[1..] == b[1..]
    ensures AllShards(a) == AllShards(a[1..]) + a[0].shards && AllShards(b) == AllShards(a[1..]) + b[0].shards
  {
  }

  /** The batch becomes the newest shard. */
  lemma NewestShard(x: seq<Shard>, a: seq<Shard>, out: Shard, batch: seq<Wrapped>, n: nat)
    requires Tiled(x + a, 0, n) && FlushOf(batch, n, out)
    ensures Tiled(x + (a + [out]), 0, n + 1)
    ensures forall r :: ShardsNet(x + (a + [out]), r) == ShardsNet(x + a, r) + Net(batch, r)
  {
    assert x + (a + [out]) == (x + a) + [out];
    TiledUp(x + a, 0, n);
    TiledConcat(x + a, [out], 0, n + 1);
    assert [out][1..] == [];
    forall r ensures ShardsNet(x + (a + [out]), r) == ShardsNet(x + a, r) + Net(batch, r) {
      ShardsNetConcat(x + a, [out], r);
      assert ShardsNet([out], r) == Net(out.recs, r);
    }
  }

  lemma FlushTiles(c: Config, g: Structure, batch: seq<Wrapped>, out: Shard, merged: Shard)
    requires ConfigOk(c) && Sound(c, g) && g.levels != [] && CanReconstructWith(c, g.state, 0, |batch|)
    requires FlushOk(c, g, batch, out, merged)
    ensures var s' := FlushInto(c, g, out, merged);
            Tiled(AllShards(s'.levels), 0, s'.flushes) && BatchAdded(g, batch, s')
  {
    hide LevelOk;
    var s' := FlushInto(c, g, out, merged);
    var x, a := AllShards(g.levels[1..]), g.levels[0].shards;
    TopRoom(c, g, |batch|);
    ReplaceTop(g.levels, s'.levels);
    NewestShard(x, a, out, batch, g.flushes);
    if c.layout.Leveling? && a != [] {
      assert a + [out] == [a[0], out];
      assert x + ([a[0], out] + []) == x + (a + [out]);
      TiledMerge(x, [a[0], out], [], merged, g.flushes + 1);
      assert x + ([merged] + []) == x + [merged];
      forall r ensures ShardsNet(x + [merged], r) == ShardsNet(x + a, r) + Net(batch, r) {
        NetMerge(x, [a[0], out], [], merged, r);
      }
    } else {
      assert s'.levels[0].shards == a + [out];
    }
  }

  /** Room in level 0 means a free slot in its shard vector, so nothing becomes pending. */
  lemma TopRoom(c: Config, g: Structure, n: nat)
    requires ConfigOk(c) && LevelsOk(c, g) && g.levels != [] && CanReconstructWith(c, g.state, 0, n)
    ensures !c.layout.Leveling? ==> |g.levels[0].shards| < g.levels[0].cap
    ensures c.layout.BSM? ==> g.levels[0].shards == []
    ensures c.layout.Leveling? ==> |g.levels[0].shards| <= 1
    ensures Sized(c, g.levels[0].shards) && g.levels[0].pending.None?
    ensures g.state[0].reccnt == RecordCount(g.levels[0].shards)
    ensures c.layout.Leveling? ==> g.state[0].reccnt + n <= g.state[0].reccap == RecordCap(c, 0)
  {
    assert LevelOk(c, g.levels[0], g.state[0], 0);
    CountedRecords(g.levels[0].shards);
  }

  lemma OutIsSized(c: Config, batch: seq<Wrapped>, n: nat, out: Shard)
    requires FlushOf(batch, n, out) && |batch| <= c.bufferSize
    ensures Sized(c, [out])
  {
    assert c.bufferSize * 1 == c.bufferSize;
  }

  /** One changed level keeps the others sound. */
  lemma TopReplaced(c: Config, g: Structure, s': Structure)
    requires LevelsOk(c, g) && g.levels != [] && |s'.levels| == |g.levels| && |s'.state| == |g.state|
    requires s'.levels[1..] == g.levels[1..] && s'.state[1..] == g.state[1..]
    requires LevelOk(c, s'.levels[0], s'.state[0], 0) && (c.layout.Leveling? ==> s'.state[0].reccnt <= RecordCap(c, 0))
    ensures LevelsOk(c, s')
  {
    forall i | 0 <= i < |s'.levels|
      ensures LevelOk(c, s'.levels[i], s'.state[i], i)
    {
      if i > 0 {
        assert s'.levels[i] == s'.levels[1..][i - 1] && s'.state[i] == s'.state[1..][i - 1];
        assert g.levels[i] == g.levels[1..][i - 1] && g.state[i] == g.state[1..][i - 1];
        assert LevelOk(c, g.levels[i], g.state[i], i);
      }
    }
  }

  lemma AppendedTop(c: Config, g: Structure, batch: seq<Wrapped>, out: Shard, merged: Shard)
    requires ConfigOk(c) && !c.layout.Leveling? && LevelsOk(c, g) && g.levels != []
    requires CanReconstructWith(c, g.state, 0, |batch|) && FlushOk(c, g, batch, out, merged)
    requires Sized(c, [out]) && NoEmptyShard(c, [out])
    ensures var s' := FlushInto(c, g, out, merged); LevelOk(c, s'.levels[0], s'.state[0], 0)
  {
    hide ShardsNet, AllShards, Tiled, MergedFrom;
    TopRoom(c, g, |batch|);
    var a := g.levels[0].shards;
    assert RecordCount(a + [out]) == RecordCount(a) + RecordCount([out]) by { RecordCountConcat(a, [out]); }
    SizedConcat(c, a, [out]);
    assert LevelOk(c, g.levels[0], g.state[0], 0);
    assert [out][0] == out;
  }

  lemma MergedTop(c: Config, g: Structure, batch: seq<Wrapped>, out: Shard, merged: Shard)
    requires ConfigOk(c) && c.layout.Leveling? && LevelsOk(c, g) && g.levels != []
    requires CanReconstructWith(c, g.state, 0, |batch|) && FlushOk(c, g, batch, out, merged)
    requires Sized(c, [out]) && (g.levels[0].shards != [] ==> Sized(c, [merged]))
    ensures var s' := FlushInto(c, g, out, merged);
            LevelOk(c, s'.levels[0], s'.state[0], 0) && s'.state[0].reccnt <= RecordCap(c, 0)
  {
    hide ShardsNet, AllShards, Tiled;
    TopRoom(c, g, |batch|);
    var a := g.levels[0].shards;
    assert RecordCount([out]) == |out.recs| <= |batch| && RecordCount([merged]) == |merged.recs|;
    assert LevelOk(c, g.levels[0], g.state[0], 0);
    if a != [] {
      assert a + [out] == [a[0], out];
      RecordCountConcat(a, [out]);
    }
  }

  lemma FlushLevels(c: Config, g: Structure, batch: seq<Wrapped>, out: Shard, merged: Shard)
    requires ConfigOk(c) && LevelsOk(c, g) && g.levels != [] && CanReconstructWith(c, g.state, 0, |batch|)
    requires FlushOk(c, g, batch, out, merged) && |batch| <= c.bufferSize && NoEmptyShard(c, [out])
    requires c.layout.Leveling? && g.levels[0].shards != [] ==> Sized(c, [merged])
    ensures LevelsOk(c, FlushInto(c, g, out, merged))
  {
    hide LevelOk, Sized, ShardOf, MergedFrom;
    OutIsSized(c, batch, g.flushes, out);
    if c.layout.Leveling? {
      MergedTop(c, g, batch, out, merged);
    } else {
      AppendedTop(c, g, batch, out, merged);
    }
    TopReplaced(c, g, FlushInto(c, g, out, merged));
  }

  lemma MergedIsSized(c: Config, g: Structure, batch: seq<Wrapped>, out: Shard, merged: Shard)
    requires ConfigOk(c) && Sound(c, g) && g.levels != [] && CanReconstructWith(c, g.state, 0, |batch|)
    requires FlushOk(c, g, batch, out, merged) && |batch| <= c.bufferSize
    requires c.layout.Leveling? && g.levels[0].shards != []
    ensures Sized(c, [merged])
  {
    hide LevelOk, ShardsNet, Tiled, MergedFrom;
    var x, a := AllShards(g.levels[1..]), g.levels[0].shards;
    TopRoom(c, g, |batch|);
    ReplaceTop(g.levels, g.levels);
    NewestShard(x, a, out, batch, g.flushes);
    TiledConcat(x, a + [out], 0, g.flushes + 1);
    OutIsSized(c, batch, g.flushes, out);
    SizedConcat(c, a, [out]);
    assert a + [out] == [a[0], out];
    var lo := End(x, 0);
    TiledUp(a + [out], lo, g.flushes + 1);
    MergeSize(c, a + [out], merged, lo, g.flushes + 1);
  }

  /** A flush into a structure with room keeps it sound and adds exactly the batch. */
  lemma FlushAdds(c: Config, s: Structure, batch: seq<Wrapped>, out: Shard, merged: Shard)
    requires ConfigOk(c) && Sound(c, s) && RoomFor(c, s, |batch|) && |batch| <= c.bufferSize
    requires FlushOk(c, s, batch, out, merged) && NoEmptyShard(c, [out])
    ensures var s' := FlushInto(c, s, out, merged);
            Sound(c, s') && BatchAdded(s, batch, s') && s'.flushes == s.flushes + 1
  {
    hide ShardsNet, AllShards, Tiled, LevelOk;
    var g := WithLevel(c, s, 0);
    GrownSound(c, s, 0);
    assert FlushInto(c, s, out, merged) == FlushInto(c, g, out, merged);
    FlushTiles(c, g, batch, out, merged);
    if c.layout.Leveling? && g.levels[0].shards != [] {
      MergedIsSized(c, g, batch, out, merged);
    }
    FlushLevels(c, g, batch, out, merged);
  }
}
