/** The one task of the Bentley-Saxe layout: flatten every level above the first empty one
    into it. */
module PlannerBentleySaxe {
  import opened Numerals
  import opened ExtensionStructures
  import opened ShardOrder
  import opened PlannerProofs

  lemma PrefixShards(levels: seq<Level>, n: nat)
    requires 1 <= n <= |levels|
    ensures AllShards(levels[..n]) == levels[n - 1].shards + AllShards(levels[..n - 1])
  {
    assert levels[..n] == levels[..n - 1] + [levels[n - 1]];
    AllShardsConcat(levels[..n - 1], [levels[n - 1]]);
    assert AllShards([levels[n - 1]]) == levels[n - 1].shards;
  }

  /** The sources, deepest first, are the newest shards in order of age. */
  lemma {:induction false} SourcesAreNewest(levels: seq<Level>, n: nat)
    requires n <= |levels|
    ensures forall k :: 0 <= k < n ==> Downward(n)[k] < |levels|
    ensures SourceShards(levels, Downward(n)) == AllShards(levels[..n])
  {
    if n > 0 {
      SourcesAreNewest(levels, n - 1);
      assert Downward(n)[1..] == Downward(n - 1);
      PrefixShards(levels, n);
    }
  }

  /** Level `base` is empty and every level above it is occupied. */
  ghost predicate Vacant(s: Structure, base: nat) {
    1 <= base < |s.levels| && s.levels[base].shards == [] && forall j :: 0 <= j < base ==> s.levels[j].shards != []
  }

  /** 1 + 1 + 2 + ... + 2^(n-2) = 2^(n-1). */
  lemma {:induction false} OccupiedSpan(c: Config, s: Structure, n: nat, lo: nat, hi: nat)
    requires c.layout.BSM? && LevelsOk(c, s) && 1 <= n <= |s.levels|
    requires forall j :: 0 <= j < n ==> s.levels[j].shards != []
    requires Tiled(AllShards(s.levels[..n]), lo, hi)
    ensures hi - lo == Pow(2, n - 1)
  {
    assert LevelOk(c, s.levels[n - 1], s.state[n - 1], n - 1);
    var last := s.levels[n - 1].shards;
    assert last == [last[0]];
    PrefixShards(s.levels, n);
    TiledConcat(last, AllShards(s.levels[..n - 1]), lo, hi);
    if n > 1 {
      OccupiedSpan(c, s, n - 1, last[0].last, hi);
    } else {
      assert s.levels[..0] == [];
    }
  }

  lemma {:induction false} SumIsCount(c: Config, s: Structure, n: nat)
    requires LevelsOk(c, s) && n <= |s.levels|
    ensures RecordCount(AllShards(s.levels[..n])) == SumReccnt(s.state[..n])
  {
    if n > 0 {
      SumIsCount(c, s, n - 1);
      PrefixShards(s.levels, n);
      RecordCountConcat(s.levels[n - 1].shards, AllShards(s.levels[..n - 1]));
      assert s.state[..n] == s.state[..n - 1] + [s.state[n - 1]];
      SumSnoc(s.state[..n - 1], s.state[n - 1]);
      assert LevelOk(c, s.levels[n - 1], s.state[n - 1], n - 1);
    }
  }

  lemma {:induction false} SumSnoc(state: seq<LevelState>, st: LevelState)
    ensures SumReccnt(state + [st]) == SumReccnt(state) + st.reccnt
  {
    if state != [] {
      assert (state + [st])[1..] == state[1..] + [st];
      SumSnoc(state[1..], st);
    } else {
      assert [st][1..] == [];
    }
  }

  lemma {:induction false} SizedAll(c: Config, s: Structure, n: nat)
    requires LevelsOk(c, s) && n <= |s.levels|
    ensures Sized(c, AllShards(s.levels[..n]))
  {
    if n > 0 {
      SizedAll(c, s, n - 1);
      PrefixShards(s.levels, n);
      assert LevelOk(c, s.levels[n - 1], s.state[n - 1], n - 1);
      SizedConcat(c, s.levels[n - 1].shards, AllShards(s.levels[..n - 1]));
    }
  }

  lemma {:induction false} NoShards(levels: seq<Level>)
    requires forall j :: 0 <= j < |levels| ==> levels[j].shards == []
    ensures AllShards(levels) == []
  {
    if levels != [] {
      NoShards(levels[1..]);
    }
  }

  lemma AllShardsAt(levels: seq<Level>, n: nat)
    requires n < |levels|
    ensures AllShards(levels) == (AllShards(levels[n + 1..]) + levels[n].shards) + AllShards(levels[..n])
  {
    assert levels == levels[..n] + levels[n..];
    AllShardsConcat(levels[..n], levels[n..]);
    AllShardsFrom(levels, n);
  }

  /** Replacing the newest shards by their merge keeps the tiling and the contents. */
  lemma NewestMerge(a: seq<Level>, b: seq<Level>, base: nat, out: Shard, hi: nat) returns (lo: nat)
    requires base < |a| == |b| && a[base + 1..] == b[base + 1..]
    requires a[base].shards == [] && b[base].shards == [out] && AllShards(b[..base]) == []
    requires Tiled(AllShards(a), 0, hi) && ShardOf(AllShards(a[..base]), out)
    ensures Tiled(AllShards(b), 0, hi) && Tiled(AllShards(a[..base]), lo, hi)
    ensures forall r :: ShardsNet(AllShards(b), r) == ShardsNet(AllShards(a), r)
  {
    var x, z := AllShards(a[base + 1..]), AllShards(a[..base]);
    AllShardsAt(a, base);
    AllShardsAt(b, base);
    assert AllShards(a) == x + (z + []);
    assert AllShards(b) == x + ([out] + []);
    TiledMerge(x, z, [], out, hi);
    forall r ensures ShardsNet(AllShards(b), r) == ShardsNet(AllShards(a), r) {
      NetMerge(x, z, [], out, r);
    }
    lo := End(x, 0);
    assert z + [] == z;
    TiledConcat(x, z, 0, hi);
  }

  /** Flattening keeps the tiling and the contents, and gives level `base` its span. */
  lemma FlattenTiles(c: Config, s: Structure, base: nat, out: Shard)
    requires ConfigOk(c) && c.layout.BSM? && Sound(c, s) && Vacant(s, base)
    requires ShardOf(AllShards(s.levels[..base]), out)
    ensures var s' := ReconstructAll(c, s, Task(Downward(base), base), out);
            Tiled(AllShards(s'.levels), 0, s.flushes) && SameContents(s, s')
    ensures out.last - out.first == Pow(2, base - 1) && Sized(c, [out])
  {
    hide AllShards, Tiled, ShardsNet, LevelOk, ShardOf;
    var s' := ReconstructAll(c, s, Task(Downward(base), base), out);
    SourceIndices(base);
    assert s'.levels[base + 1..] == s.levels[base + 1..];
    NoShards(s'.levels[..base]);
    var lo := NewestMerge(s.levels, s'.levels, base, out, s.flushes);
    SizedAll(c, s, base);
    MergeSize(c, AllShards(s.levels[..base]), out, lo, s.flushes);
    OccupiedSpan(c, s, base, lo, s.flushes);
  }

  lemma SourceIndices(n: nat)
    ensures forall i: nat :: i in Downward(n) <==> i < n
  {
    forall i: nat | i < n ensures i in Downward(n) { assert Downward(n)[n - 1 - i] == i; }
  }

  /** The task keeps the structure sound and does what the scratch state foresaw. */
  lemma FlattenStep(c: Config, s: Structure, base: nat, out: Shard)
    requires ConfigOk(c) && c.layout.BSM? && Sound(c, s) && Vacant(s, base)
    requires ShardOf(AllShards(s.levels[..base]), out) && out.recs != []
    ensures var s' := ReconstructAll(c, s, Task(Downward(base), base), out);
            && Sound(c, s') && SameContents(s, s') && s'.flushes == s.flushes
            && Foreseen(MergeAllInto(s.state, base), s'.state)
            && |s'.levels| == |s.levels|
            && (forall j :: 0 <= j < |s.levels| ==>
                  s'.levels[j].shards == if j < base then [] else if j == base then [out] else s.levels[j].shards)
  {
    FlattenTiles(c, s, base, out);
    SumIsCount(c, s, base);
    SourceIndices(base);
    FlattenLevels(c, s, base, out);
  }

  lemma FlattenLevels(c: Config, s: Structure, base: nat, out: Shard)
    requires ConfigOk(c) && c.layout.BSM? && LevelsOk(c, s) && Vacant(s, base)
    requires out.last - out.first == Pow(2, base - 1) && Sized(c, [out]) && out.recs != []
    requires forall i: nat :: i in Downward(base) <==> i < base
    ensures LevelsOk(c, ReconstructAll(c, s, Task(Downward(base), base), out))
  {
    hide AllShards, Tiled, ShardsNet;
    var s' := ReconstructAll(c, s, Task(Downward(base), base), out);
    assert RecordCount([out]) == |out.recs|;
    forall i | 0 <= i < |s'.levels|
      ensures LevelOk(c, s'.levels[i], s'.state[i], i)
    {
      assert LevelOk(c, s.levels[i], s.state[i], i);
    }
  }
}
