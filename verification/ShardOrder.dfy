/** The shards of a structure in order of age: they tile the flushes so far, and merging
    neighbours keeps that. */
module ShardOrder {
  import opened Records
  import opened ExtensionStructures

  /** The shards cover the flushes lo, ..., hi - 1 in order, without gap or overlap. */
  ghost predicate Tiled(shards: seq<Shard>, lo: nat, hi: nat) {
    if shards == [] then lo == hi
    else shards[0].first == lo && lo < shards[0].last <= hi && Tiled(shards[1..], shards[0].last, hi)
  }

  /** No shard has more records than its flushes brought. */
  ghost predicate Sized(c: Config, shards: seq<Shard>) {
    forall k :: 0 <= k < |shards| ==>
      shards[k].first <= shards[k].last && |shards[k].recs| <= c.bufferSize * (shards[k].last - shards[k].first)
  }

  function End(shards: seq<Shard>, lo: nat): nat {
    if shards == [] then lo else shards[|shards| - 1].last
  }

  lemma {:induction false} TiledConcat(a: seq<Shard>, b: seq<Shard>, lo: nat, hi: nat)
    ensures Tiled(a + b, lo, hi) <==> Tiled(a, lo, End(a, lo)) && Tiled(b, End(a, lo), hi) && End(a, lo) <= hi
  {
    if a == [] {
      assert a + b == b;
      TiledUp(b, lo, hi);
    } else {
      assert (a + b)[1..] == a[1..] + b;
      TiledConcat(a[1..], b, a[0].last, hi);
      assert End(a, lo) == End(a[1..], a[0].last);
      TiledUp(a[1..], a[0].last, End(a, lo));
    }
  }

  lemma {:induction false} TiledUp(s: seq<Shard>, lo: nat, hi: nat)
    ensures Tiled(s, lo, hi) ==> lo <= hi && End(s, lo) == hi
  {
    if s != [] {
      TiledUp(s[1..], s[0].last, hi);
    }
  }

  /** Replacing a stretch of shards by its merge keeps the tiling. */
  lemma TiledMerge(x: seq<Shard>, z: seq<Shard>, y: seq<Shard>, out: Shard, hi: nat)
    requires Tiled(x + (z + y), 0, hi) && z != []
    requires out.first == z[0].first && out.last == z[|z| - 1].last
    ensures Tiled(x + ([out] + y), 0, hi)
  {
    TiledConcat(x, z + y, 0, hi);
    var m := End(x, 0);
    TiledConcat(z, y, m, hi);
    TiledUp(z, m, End(z, m));
    TiledUp(z[1..], z[0].last, End(z, m));
    assert ([out] + y)[1..] == y;
    TiledConcat(x, [out] + y, 0, hi);
  }

  lemma {:induction false} RecordCountConcat(a: seq<Shard>, b: seq<Shard>)
    ensures RecordCount(a + b) == RecordCount(a) + RecordCount(b)
  {
    if a == [] {
      assert a + b == b;
    } else {
      assert (a + b)[1..] == a[1..] + b;
      RecordCountConcat(a[1..], b);
    }
  }

  lemma {:induction false} ShardsNetConcat(a: seq<Shard>, b: seq<Shard>, r: Record)
    ensures ShardsNet(a + b, r) == ShardsNet(a, r) + ShardsNet(b, r)
  {
    if a == [] {
      assert a + b == b;
    } else {
      assert (a + b)[1..] == a[1..] + b;
      ShardsNetConcat(a[1..], b, r);
    }
  }

  lemma NetMerge(x: seq<Shard>, z: seq<Shard>, y: seq<Shard>, out: Shard, r: Record)
    requires ShardOf(z, out)
    ensures ShardsNet(x + ([out] + y), r) == ShardsNet(x + (z + y), r)
  {
    ShardsNetConcat(x, [out] + y, r);
    ShardsNetConcat([out], y, r);
    ShardsNetConcat(x, z + y, r);
    ShardsNetConcat(z, y, r);
    assert [out][1..] == [];
    assert ShardsNet([out], r) == Net(out.recs, r);
  }

  /** Tiled shards hold at most as many records as their flushes brought. */
  lemma {:induction false} TiledSize(c: Config, z: seq<Shard>, lo: nat, hi: nat)
    requires Tiled(z, lo, hi) && Sized(c, z)
    ensures lo <= hi && RecordCount(z) <= c.bufferSize * (hi - lo)
  {
    if z != [] {
      assert Sized(c, z[1..]) by {
        forall k | 0 <= k < |z[1..]|
          ensures z[1..][k].first <= z[1..][k].last
          ensures |z[1..][k].recs| <= c.bufferSize * (z[1..][k].last - z[1..][k].first)
        {
          assert z[1..][k] == z[k + 1];
        }
      }
      TiledSize(c, z[1..], z[0].last, hi);
      var a, b := z[0].last - lo, hi - z[0].last;
      assert c.bufferSize * a + c.bufferSize * b == c.bufferSize * (a + b);
    }
  }

  lemma MergeSize(c: Config, z: seq<Shard>, out: Shard, lo: nat, hi: nat)
    requires Tiled(z, lo, hi) && Sized(c, z) && ShardOf(z, out)
    ensures out.first == lo && out.last == hi && |out.recs| <= c.bufferSize * (hi - lo)
  {
    TiledSize(c, z, lo, hi);
    TiledUp(z, lo, hi);
  }

  /** Equal spans add up. */
  lemma {:induction false} TiledSpan(z: seq<Shard>, lo: nat, hi: nat, w: nat)
    requires Tiled(z, lo, hi) && forall k :: 0 <= k < |z| ==> z[k].last - z[k].first == w
    ensures hi - lo == |z| * w
  {
    if z != [] {
      assert forall k :: 0 <= k < |z| - 1 ==> z[1..][k] == z[k + 1];
      TiledSpan(z[1..], z[0].last, hi, w);
      assert (|z| - 1) * w + w == |z| * w;
    }
  }

  lemma {:induction false} AllShardsConcat(a: seq<Level>, b: seq<Level>)
    ensures AllShards(a + b) == AllShards(b) + AllShards(a)
  {
    if a == [] {
      assert a + b == b;
    } else {
      assert (a + b)[1..] == a[1..] + b;
      AllShardsConcat(a[1..], b);
    }
  }

  lemma AllShardsFrom(levels: seq<Level>, i: nat)
    requires i < |levels|
    ensures AllShards(levels[i..]) == AllShards(levels[i + 1..]) + levels[i].shards
  {
    assert levels[i..][0] == levels[i] && levels[i..][1..] == levels[i + 1..];
  }

  lemma Regroup<T>(w: seq<T>, x: seq<T>, y: seq<T>, z: seq<T>)
    ensures ((w + x) + y) + z == w + ((x + y) + z)
  {
  }

  /** Two neighbouring levels stand next to each other in the order of age. */
  lemma AllShardsPair(levels: seq<Level>, i: nat)
    requires 1 <= i < |levels|
    ensures AllShards(levels)
         == AllShards(levels[i + 1..]) + ((levels[i].shards + levels[i - 1].shards) + AllShards(levels[..i - 1]))
  {
    assert levels == levels[..i - 1] + levels[i - 1..];
    AllShardsConcat(levels[..i - 1], levels[i - 1..]);
    AllShardsFrom(levels, i - 1);
    AllShardsFrom(levels, i);
    Regroup(AllShards(levels[i + 1..]), levels[i].shards, levels[i - 1].shards, AllShards(levels[..i - 1]));
  }
}
