/** The k-nearest-neighbour query: one bounded queue over the buffer, one search per
    shard, and one bounded queue over their results. */
module Knn {
  import opened Nearest
  import opened VPTrees

  /** Keeps `queue` the k nearest of what has been seen, one point later. */
  method Consider<P(!new, ==)>(queue: MaxQueue<P>, k: nat, p: P, ghost seen: multiset<P>)
    requires k >= 1 && IsNearest(queue.f, k, seen, queue.items)
    modifies queue
    ensures IsNearest(queue.f, k, seen + multiset{p}, queue.items)
  {
    hide IsNearest;
    ghost var before := queue.items;
    SizeBound(queue.f, k, seen, before);
    if |queue.items| < k {
      Room(queue.f, k, seen, before, p);
      queue.Push(p);
    } else {
      var far := queue.Peek();
      if queue.f(p) < queue.f(far) {
        var x := queue.Pop();
        Replace(queue.f, k, seen, before, x, p);
        queue.Push(p);
      } else {
        Skip(queue.f, k, seen, before, multiset{p});
      }
    }
  }

  method ConsiderAll<P(!new, ==)>(queue: MaxQueue<P>, k: nat, ps: seq<P>, ghost seen: multiset<P>)
    requires k >= 1 && IsNearest(queue.f, k, seen, queue.items)
    modifies queue
    ensures IsNearest(queue.f, k, seen + multiset(ps), queue.items)
  {
    hide IsNearest;
    assert seen + multiset(ps[..0]) == seen;
    for j := 0 to |ps|
      invariant IsNearest(queue.f, k, seen + multiset(ps[..j]), queue.items)
    {
      Consider(queue, k, ps[j], seen + multiset(ps[..j]));
      assert ps[..j + 1] == ps[..j] + [ps[j]];
      assert seen + multiset(ps[..j]) + multiset{ps[j]} == seen + multiset(ps[..j + 1]);
    }
    assert ps[..|ps|] == ps;
  }

  lemma NearestOfNone<P(!new)>(f: P -> real, k: nat)
    ensures IsNearest(f, k, multiset{}, multiset{})
  {
  }

  lemma SizeBound<P(!new)>(f: P -> real, k: nat, all: multiset<P>, best: multiset<P>)
    requires IsNearest(f, k, all, best)
    ensures |best| <= k
  {
  }

  /** The k nearest of the untagged records of the buffer, farthest first. */
  method LocalQueryBuffer<P(!new, ==)>(dist: (P, P) -> real, point: P, k: nat, buffer: seq<Tagged<P>>)
        returns (out: seq<P>)
    requires k >= 1
    ensures IsNearest(DistanceTo(dist, point), k, multiset(Live(buffer)), multiset(out))
    ensures forall i, j :: 0 <= i < j < |out| ==> dist(out[i], point) >= dist(out[j], point)
  {
    var queue := new MaxQueue(DistanceTo(dist, point));
    for i := 0 to |buffer|
      invariant fresh(queue)
      invariant IsNearest(queue.f, k, multiset(Live(buffer[..i])), queue.items)
    {
      assert buffer[..i + 1][..i] == buffer[..i];
      if !buffer[i].deleted {
        Consider(queue, k, buffer[i].rec, multiset(Live(buffer[..i])));
      }
    }
    assert buffer[..|buffer|] == buffer;
    out := queue.Drain();
  }

  ghost function Bags<P>(lists: seq<seq<P>>): (bags: seq<multiset<P>>)
    ensures |bags| == |lists| && forall i :: 0 <= i < |lists| ==> bags[i] == multiset(lists[i])
  {
    seq(|lists|, i requires 0 <= i < |lists| => multiset(lists[i]))
  }

  lemma {:induction false} UnionSnoc<P>(bags: seq<multiset<P>>, bag: multiset<P>)
    ensures Union(bags + [bag]) == Union(bags) + bag
  {
    if bags != [] {
      assert (bags + [bag])[1..] == bags[1..] + [bag];
      UnionSnoc(bags[1..], bag);
    } else {
      assert [bag][1..] == [];
    }
  }

  /** The k nearest of all local results, farthest first. */
  method Combine<P(!new, ==)>(dist: (P, P) -> real, point: P, k: nat, locals: seq<seq<P>>) returns (out: seq<P>)
    requires k >= 1
    ensures IsNearest(DistanceTo(dist, point), k, Union(Bags(locals)), multiset(out))
    ensures forall i, j :: 0 <= i < j < |out| ==> dist(out[i], point) >= dist(out[j], point)
  {
    hide IsNearest;
    var queue := new MaxQueue(DistanceTo(dist, point));
    NearestOfNone(queue.f, k);
    assert Bags(locals[..0]) == [];
    for i := 0 to |locals|
      invariant fresh(queue)
      invariant IsNearest(queue.f, k, Union(Bags(locals[..i])), queue.items)
    {
      ConsiderAll(queue, k, locals[i], Union(Bags(locals[..i])));
      assert Bags(locals[..i + 1]) == Bags(locals[..i]) + [multiset(locals[i])];
      UnionSnoc(Bags(locals[..i]), multiset(locals[i]));
    }
    assert locals[..|locals|] == locals;
    out := queue.Drain();
  }

  lemma UnionCons<P>(bag: multiset<P>, bags: seq<multiset<P>>)
    ensures Union([bag] + bags) == bag + Union(bags)
  {
    assert ([bag] + bags)[1..] == bags;
  }

  /** What the shards of a query hold. */
  ghost function Shards<P(!new)>(trees: seq<VPTree<P>>): (bags: seq<multiset<P>>)
    reads set t | t in trees :: t.ptrs
    ensures |bags| == |trees| && forall i :: 0 <= i < |trees| ==> bags[i] == multiset(trees[i].ptrs[..])
  {
    if trees == [] then [] else [multiset(trees[0].ptrs[..])] + Shards(trees[1..])
  }

  /** The whole query: the k nearest of the untagged buffer records and the records of
      every shard together. */
  method Query<P(!new, ==)>(dist: (P, P) -> real, top: real, point: P, k: nat, buffer: seq<Tagged<P>>,
        trees: seq<VPTree<P>>)
      returns (out: seq<P>)
    requires k >= 1 && Metric(dist, top)
    requires forall t :: t in trees ==> t.Valid() && t.dist == dist && t.top == top
    ensures IsNearest(DistanceTo(dist, point), k, multiset(Live(buffer)) + Union(Shards(trees)), multiset(out))
  {
    hide IsNearest, Metric, Live, Union;
    var first := LocalQueryBuffer(dist, point, k, buffer);
    var locals := [first];
    ghost var f := DistanceTo(dist, point);
    for i := 0 to |trees|
      invariant |locals| == i + 1 && locals[0] == first
      invariant forall j :: 0 <= j < i ==> IsNearest(f, k, multiset(trees[j].ptrs[..]), multiset(locals[j + 1]))
    {
      var local := trees[i].Search(point, k);
      locals := locals + [local];
    }
    out := Combine(dist, point, k, locals);
    ghost var bags := [multiset(Live(buffer))] + Shards(trees);
    UnionCons(multiset(Live(buffer)), Shards(trees));
    DecomposeAll(f, k, bags, Bags(locals), multiset(out));
  }
}
