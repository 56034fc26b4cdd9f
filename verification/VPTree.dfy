/** The vantage-point tree: built in place over an array of points by randomised
    quickselect, and searched with pruning. */
module VPTrees {
  import opened Nearest

  /** Distances as the search needs them: symmetric, with the triangle inequality, and
      below the largest value, which the search uses for "no bound yet". */
  ghost predicate Metric<P(!new)>(dist: (P, P) -> real, top: real) {
    && (forall a, b :: dist(a, b) == dist(b, a))
    && (forall a, b, c :: dist(a, c) <= dist(a, b) + dist(b, c))
    && (forall a, b :: dist(a, b) < top)
  }

  datatype Node =
    | Null
    | Leaf(start: nat, stop: nat)
    | Inner(start: nat, radius: real, inside: Node, outside: Node)

  /** `node` indexes exactly the points s[lo..hi): the vantage point, then the points
      within the radius, then the points at or beyond it. */
  ghost predicate Built<P(!new)>(dist: (P, P) -> real, node: Node, s: seq<P>, lo: nat, hi: nat)
    requires lo <= hi <= |s|
    decreases node
  {
    match node
    case Null => lo == hi
    case Leaf(start, stop) => start == lo < hi && stop + 1 == hi
    case Inner(start, radius, inside, outside) =>
      var mid := (lo + hi) / 2;
      && start == lo < mid < hi
      && (forall i :: lo < i < mid ==> dist(s[lo], s[i]) <= radius)
      && (forall i :: mid <= i < hi ==> dist(s[lo], s[i]) >= radius)
      && Built(dist, inside, s, lo + 1, mid)
      && Built(dist, outside, s, mid, hi)
  }

  /** How many vantage points and leaf slots of a tree stand for array position `i`. */
  ghost function Visits(node: Node, i: nat): nat {
    match node
    case Null => 0
    case Leaf(start, stop) => if start <= i <= stop then 1 else 0
    case Inner(start, _, inside, outside) =>
      (if i == start then 1 else 0) + Visits(inside, i) + Visits(outside, i)
  }

  /** A built tree covers every position of its range exactly once. */
  lemma {:induction false} CoversOnce<P(!new)>(dist: (P, P) -> real, node: Node, s: seq<P>, lo: nat, hi: nat, i: nat)
    requires lo <= hi <= |s| && Built(dist, node, s, lo, hi)
    ensures Visits(node, i) == if lo <= i < hi then 1 else 0
    decreases node
  {
    match node
    case Null =>
    case Leaf(_, _) =>
    case Inner(_, _, inside, outside) =>
      CoversOnce(dist, inside, s, lo + 1, (lo + hi) / 2, i);
      CoversOnce(dist, outside, s, (lo + hi) / 2, hi, i);
  }

  /** What a tree says depends on its own range only. */
  lemma {:induction false} BuiltFrame<P(!new)>(dist: (P, P) -> real, node: Node, s: seq<P>, t: seq<P>, lo: nat, hi: nat)
    requires |s| == |t| && lo <= hi <= |s| && Built(dist, node, s, lo, hi)
    requires forall i :: lo <= i < hi ==> s[i] == t[i]
    ensures Built(dist, node, t, lo, hi)
    decreases node
  {
    match node
    case Null =>
    case Leaf(_, _) =>
    case Inner(_, _, inside, outside) =>
      BuiltFrame(dist, inside, s, t, lo + 1, (lo + hi) / 2);
      BuiltFrame(dist, outside, s, t, (lo + hi) / 2, hi);
  }

  // ---------------------------------------------------------------------------
  // Rearranging a range
  // ---------------------------------------------------------------------------

  /** `b` is `a` with the points of [lo, hi) in some other order. */
  ghost predicate Rearranged<P>(a: seq<P>, b: seq<P>, lo: nat, hi: nat) {
    && |a| == |b| && lo <= hi <= |a|
    && (forall i :: 0 <= i < |a| && !(lo <= i < hi) ==> a[i] == b[i])
    && multiset(a[lo..hi]) == multiset(b[lo..hi])
  }

  lemma SwapRearranges<P>(a: seq<P>, i: nat, j: nat, lo: nat, hi: nat)
    requires lo <= i < hi <= |a| && lo <= j < hi
    ensures Rearranged(a, a[i := a[j]][j := a[i]], lo, hi)
  {
    var b := a[i := a[j]][j := a[i]];
    assert b[lo..hi] == a[lo..hi][i - lo := a[j]][j - lo := a[i]];
  }

  lemma RearrangedTrans<P>(a: seq<P>, b: seq<P>, c: seq<P>, lo: nat, hi: nat)
    requires Rearranged(a, b, lo, hi) && Rearranged(b, c, lo, hi)
    ensures Rearranged(a, c, lo, hi)
  {
  }

  lemma Widen<P>(a: seq<P>, b: seq<P>, lo: nat, hi: nat, lo': nat, hi': nat)
    requires Rearranged(a, b, lo, hi) && lo' <= lo && hi <= hi' <= |a|
    ensures Rearranged(a, b, lo', hi')
  {
    assert a[lo'..hi'] == a[lo'..lo] + a[lo..hi] + a[hi..hi'];
    assert b[lo'..hi'] == b[lo'..lo] + b[lo..hi] + b[hi..hi'];
    assert a[lo'..lo] == b[lo'..lo];
    assert a[hi..hi'] == b[hi..hi'];
  }

  lemma Outside<P>(a: seq<P>, b: seq<P>, lo: nat, hi: nat)
    requires Rearranged(a, b, lo, hi)
    ensures |a| == |b| && forall i :: 0 <= i < |a| && !(lo <= i < hi) ==> a[i] == b[i]
  {
  }

  /** Every point of the new range was in the old range. */
  lemma Origin<P>(a: seq<P>, b: seq<P>, lo: nat, hi: nat, i: nat) returns (j: nat)
    requires Rearranged(a, b, lo, hi) && lo <= i < hi
    ensures lo <= j < hi && a[j] == b[i]
  {
    assert b[lo..hi][i - lo] in multiset(b[lo..hi]);
    assert b[i] in a[lo..hi];
    var k :| 0 <= k < hi - lo && a[lo..hi][k] == b[i];
    j := lo + k;
  }

  /** Distance bounds on a range survive rearranging it. */
  lemma BoundsSurvive<P(!new)>(dist: (P, P) -> real, p: P, r: real, a: seq<P>, b: seq<P>, lo: nat, hi: nat)
    requires Rearranged(a, b, lo, hi)
    ensures (forall i :: lo <= i < hi ==> dist(p, a[i]) <= r) ==> (forall i :: lo <= i < hi ==> dist(p, b[i]) <= r)
    ensures (forall i :: lo <= i < hi ==> dist(p, a[i]) >= r) ==> (forall i :: lo <= i < hi ==> dist(p, b[i]) >= r)
  {
    forall i | lo <= i < hi
      ensures exists j :: lo <= j < hi && a[j] == b[i]
    {
      var j := Origin(a, b, lo, hi, i);
    }
  }

  /** Position k of [lo, hi) splits the range by distance from `p`. */
  ghost predicate Selected<P(!new)>(dist: (P, P) -> real, p: P, s: seq<P>, lo: nat, hi: nat, k: nat) {
    && lo <= k < hi <= |s|
    && (forall i :: lo <= i < k ==> dist(p, s[i]) <= dist(p, s[k]))
    && (forall i :: k < i < hi ==> dist(p, s[k]) <= dist(p, s[i]))
  }

  lemma SelectOnly<P(!new)>(dist: (P, P) -> real, p: P, s: seq<P>, k: nat)
    requires k < |s|
    ensures Selected(dist, p, s, k, k + 1, k) && Rearranged(s, s, k, k + 1)
  {
  }

  lemma SelectLeft<P(!new)>(dist: (P, P) -> real, p: P, a: seq<P>, b: seq<P>, lo: nat, hi: nat, j: nat, k: nat)
    requires Selected(dist, p, a, lo, hi, j) && Rearranged(a, b, lo, j) && Selected(dist, p, b, lo, j, k)
    ensures Selected(dist, p, b, lo, hi, k) && Rearranged(a, b, lo, hi)
  {
    BoundsSurvive(dist, p, dist(p, a[j]), a, b, lo, j);
    Widen(a, b, lo, j, lo, hi);
  }

  lemma SelectRight<P(!new)>(dist: (P, P) -> real, p: P, a: seq<P>, b: seq<P>, lo: nat, hi: nat, j: nat, k: nat)
    requires Selected(dist, p, a, lo, hi, j) && Rearranged(a, b, j + 1, hi) && Selected(dist, p, b, j + 1, hi, k)
    ensures Selected(dist, p, b, lo, hi, k) && Rearranged(a, b, lo, hi)
  {
    BoundsSurvive(dist, p, dist(p, a[j]), a, b, j + 1, hi);
    Widen(a, b, j + 1, hi, lo, hi);
  }

  /** The bounds of a selected range survive rearranging each side of it. */
  lemma SidesKeepBounds<P(!new)>(dist: (P, P) -> real, p: P, s: seq<P>, t: seq<P>, u: seq<P>, lo: nat, mid: nat,
        hi: nat)
    requires Selected(dist, p, s, lo, hi, mid) && Rearranged(s, t, lo, mid) && Rearranged(t, u, mid, hi)
    ensures forall i :: lo <= i < mid ==> dist(p, u[i]) <= dist(p, s[mid])
    ensures forall i :: mid <= i < hi ==> dist(p, u[i]) >= dist(p, s[mid])
  {
    hide Rearranged;
    Outside(s, t, lo, mid);
    Outside(t, u, mid, hi);
    BoundsSurvive(dist, p, dist(p, s[mid]), s, t, lo, mid);
    BoundsSurvive(dist, p, dist(p, s[mid]), t, u, mid, hi);
  }

  /** Selecting, then building both halves, builds the node. */
  lemma Assemble<P(!new)>(dist: (P, P) -> real, s: seq<P>, t: seq<P>, u: seq<P>, inside: Node, outside: Node,
                          lo: nat, hi: nat)
    requires lo + 1 < hi <= |s|
    requires Selected(dist, s[lo], s, lo + 1, hi, (lo + hi) / 2)
    requires Rearranged(s, t, lo + 1, (lo + hi) / 2) && Built(dist, inside, t, lo + 1, (lo + hi) / 2)
    requires Rearranged(t, u, (lo + hi) / 2, hi) && Built(dist, outside, u, (lo + hi) / 2, hi)
    ensures Rearranged(s, u, lo, hi)
    ensures Built(dist, Inner(lo, dist(s[lo], s[(lo + hi) / 2]), inside, outside), u, lo, hi)
  {
    hide Rearranged, Selected;
    var mid := (lo + hi) / 2;
    SidesKeepBounds(dist, s[lo], s, t, u, lo + 1, mid, hi);
    Outside(s, t, lo + 1, mid);
    Outside(t, u, mid, hi);
    BuiltFrame(dist, inside, t, u, lo + 1, mid);
    Widen(s, t, lo + 1, mid, lo, hi);
    Widen(t, u, mid, hi, lo, hi);
    RearrangedTrans(s, t, u, lo, hi);
  }

  lemma NoNode<P(!new)>(dist: (P, P) -> real, s: seq<P>, lo: nat)
    requires lo <= |s|
    ensures Built(dist, Null, s, lo, lo) && Rearranged(s, s, lo, lo)
  {
  }

  lemma OneLeaf<P(!new)>(dist: (P, P) -> real, s: seq<P>, start: nat, stop: nat)
    requires start <= stop < |s|
    ensures Built(dist, Leaf(start, stop), s, start, stop + 1) && Rearranged(s, s, start, stop + 1)
  {
  }

  // ---------------------------------------------------------------------------
  // Searching
  // ---------------------------------------------------------------------------

  /** The queue orders points by their distance from `q`. */
  ghost predicate Measures<P(!new)>(f: P -> real, dist: (P, P) -> real, q: P) {
    forall x :: f(x) == dist(x, q)
  }

  /** The queue holds the k nearest of the points seen, and `far` is the distance that
      the next one has to beat. */
  ghost predicate Holding<P(!new)>(f: P -> real, k: nat, top: real, seen: multiset<P>, items: multiset<P>, far: real) {
    && IsNearest(f, k, seen, items)
    && (|items| < k ==> far == top)
    && (|items| == k ==> (forall x :: x in items ==> f(x) <= far) && exists x :: x in items && f(x) == far)
  }

  lemma MeasureOf<P(!new)>(f: P -> real, dist: (P, P) -> real, top: real, q: P, p: P)
    requires Metric(dist, top) && Measures(f, dist, q)
    ensures f(p) == dist(q, p) < top
  {
  }

  lemma HoldingBounds<P(!new)>(f: P -> real, k: nat, top: real, seen: multiset<P>, items: multiset<P>, far: real)
    requires Holding(f, k, top, seen, items, far)
    ensures IsNearest(f, k, seen, items) && |items| <= k
    ensures |items| < k ==> far == top
    ensures |items| == k ==> exists x :: x in items && f(x) == far
  {
  }

  lemma HoldingFull<P(!new)>(f: P -> real, k: nat, top: real, seen: multiset<P>, items: multiset<P>, x: P)
    requires IsNearest(f, k, seen, items) && |items| == k
    requires x in items && forall y :: y in items ==> f(y) <= f(x)
    ensures Holding(f, k, top, seen, items, f(x))
  {
  }

  lemma HoldingRoom<P(!new)>(f: P -> real, k: nat, top: real, seen: multiset<P>, items: multiset<P>)
    requires IsNearest(f, k, seen, items) && |items| < k
    ensures Holding(f, k, top, seen, items, top)
  {
  }

  /** Points no nearer than the bound need not be looked at. */
  lemma SkipRange<P(!new)>(f: P -> real, k: nat, top: real, seen: multiset<P>, items: multiset<P>, far: real,
                           s: seq<P>, lo: nat, hi: nat)
    requires Holding(f, k, top, seen, items, far) && lo <= hi <= |s|
    requires forall i :: lo <= i < hi ==> far <= f(s[i]) < top
    ensures Holding(f, k, top, seen + multiset(s[lo..hi]), items, far)
  {
    var more := multiset(s[lo..hi]);
    var first := if lo < hi then f(s[lo]) else far;
    if |items| == k {
      forall x, y | x in items && y in more
        ensures f(x) <= f(y)
      {
        assert y in s[lo..hi];
      }
      Skip(f, k, seen, items, more);
    } else {
      assert seen + more == seen;
    }
  }

  /** If the query is farther outside the radius than the bound, nothing inside counts. */
  lemma InsideIsFar<P(!new)>(dist: (P, P) -> real, top: real, q: P, s: seq<P>, lo: nat, hi: nat, v: P, radius: real,
        far: real)
    requires Metric(dist, top) && lo <= hi <= |s|
    requires forall i :: lo <= i < hi ==> dist(v, s[i]) <= radius
    requires dist(q, v) - far > radius
    ensures forall i :: lo <= i < hi ==> far <= dist(s[i], q) < top
  {
    forall i | lo <= i < hi
      ensures far <= dist(s[i], q) < top
    {
      assert dist(q, v) <= dist(q, s[i]) + dist(s[i], v);
      assert dist(s[i], v) == dist(v, s[i]) && dist(q, s[i]) == dist(s[i], q);
    }
  }

  /** If the query is deeper inside the radius than the bound, nothing outside counts. */
  lemma OutsideIsFar<P(!new)>(dist: (P, P) -> real, top: real, q: P, s: seq<P>, lo: nat, hi: nat, v: P, radius: real,
        far: real)
    requires Metric(dist, top) && lo <= hi <= |s|
    requires forall i :: lo <= i < hi ==> dist(v, s[i]) >= radius
    requires dist(q, v) + far < radius
    ensures forall i :: lo <= i < hi ==> far <= dist(s[i], q) < top
  {
    forall i | lo <= i < hi
      ensures far <= dist(s[i], q) < top
    {
      assert dist(v, s[i]) <= dist(v, q) + dist(q, s[i]);
      assert dist(v, q) == dist(q, v) && dist(q, s[i]) == dist(s[i], q);
    }
  }

  lemma SameBag<P>(a: seq<P>, b: seq<P>)
    requires Rearranged(a, b, 0, |a|)
    ensures multiset(a) == multiset(b)
  {
    assert a[0..|a|] == a && b[0..|b|] == b;
  }

  method CopyLive<P>(recs: seq<Tagged<P>>) returns (live: seq<P>)
    ensures live == Live(recs)
  {
    live := [];
    for i := 0 to |recs|
      invariant live == Live(recs[..i])
    {
      assert recs[..i + 1][..i] == recs[..i];
      if !recs[i].deleted {
        live := live + [recs[i].rec];
      }
    }
    assert recs[..|recs|] == recs;
  }

  /** The search state: the queue of candidates and the distance to beat. */
  class Candidates<P(!new, ==)> {
    const queue: MaxQueue<P>
    var farthest: real

    constructor (f: P -> real, top: real)
      ensures queue.f == f && queue.items == multiset{} && farthest == top && fresh(queue)
    {
      queue := new MaxQueue(f);
      farthest := top;
    }
  }

  class VPTree<P(!new, ==)> {
    const dist: (P, P) -> real
    const top: real
    const leafSize: nat
    const ptrs: array<P>
    const dists: array<real>
    var root: Node

    /** Copies the untagged records and builds the tree over them. */
    constructor (dist: (P, P) -> real, top: real, leafSize: nat, recs: seq<Tagged<P>>)
      ensures this.dist == dist && this.top == top
      ensures Valid() && multiset(ptrs[..]) == multiset(Live(recs))
      ensures fresh(ptrs) && fresh(dists)
    {
      hide Rearranged, Built;
      var live := CopyLive(recs);
      this.dist, this.top, this.leafSize := dist, top, leafSize;
      ptrs := new P[|live|](i requires 0 <= i < |live| => live[i]);
      dists := new real[|live|](_ => 0.0);
      root := Null;
      new;
      assert ptrs[..] == live;
      root := BuildSubtree(0, ptrs.Length - 1);
      SameBag(live, ptrs[..]);
    }

    ghost predicate Arrays() {
      ptrs as object != dists && ptrs.Length == dists.Length
    }

    /** The whole array is indexed by the tree. */
    ghost predicate Valid()
      reads this, ptrs
    {
      Arrays() && Built(dist, root, ptrs[..], 0, ptrs.Length)
    }

    /** The cached distances of [lo, hi) are those from `p`. */
    ghost predicate Cached(p: P, lo: nat, hi: nat)
      requires Arrays() && hi <= ptrs.Length
      reads ptrs, dists
    {
      forall i :: lo <= i < hi ==> dists[i] == dist(p, ptrs[i])
    }

    method Swap(i: nat, j: nat, ghost lo: nat, ghost hi: nat, ghost p: P)
      requires Arrays() && lo <= i < hi <= ptrs.Length && lo <= j < hi
      modifies ptrs, dists
      ensures Rearranged(old(ptrs[..]), ptrs[..], lo, hi)
      ensures dists[i] == old(dists[j]) && dists[j] == old(dists[i])
      ensures forall m :: 0 <= m < dists.Length && m != i && m != j ==> dists[m] == old(dists[m])
      ensures old(Cached(p, lo, hi)) ==> Cached(p, lo, hi)
    {
      SwapRearranges(ptrs[..], i, j, lo, hi);
      ptrs[i], ptrs[j] := ptrs[j], ptrs[i];
      dists[i], dists[j] := dists[j], dists[i];
      assert ptrs[..] == old(ptrs[..][i := ptrs[j]][j := ptrs[i]]);
    }

    /** Splits [start, stop] around a random pivot: smaller distances before it, the
        others after it. */
    method Partition(start: nat, stop: nat, ghost p: P) returns (j: nat)
      requires Arrays() && start < stop < ptrs.Length && Cached(p, start, stop + 1)
      modifies ptrs, dists
      ensures start <= j <= stop && Cached(p, start, stop + 1)
      ensures Rearranged(old(ptrs[..]), ptrs[..], start, stop + 1)
      ensures Selected(dist, p, ptrs[..], start, stop + 1, j)
    {
      hide Rearranged, Cached, Selected;
      var pivot: nat :| start <= pivot < stop;
      Swap(pivot, stop, start, stop + 1, p);
      j := start;
      for i := start to stop
        invariant start <= j <= i
        invariant Cached(p, start, stop + 1)
        invariant Rearranged(old(ptrs[..]), ptrs[..], start, stop + 1)
        invariant forall m :: start <= m < j ==> dists[m] < dists[stop]
        invariant forall m :: j <= m < i ==> dists[m] >= dists[stop]
      {
        if dists[i] < dists[stop] {
          ghost var before := ptrs[..];
          Swap(j, i, start, stop + 1, p);
          RearrangedTrans(old(ptrs[..]), before, ptrs[..], start, stop + 1);
          j := j + 1;
        }
      }
      ghost var before := ptrs[..];
      Swap(j, stop, start, stop + 1, p);
      RearrangedTrans(old(ptrs[..]), before, ptrs[..], start, stop + 1);
      SelectedFromDists(p, start, stop, j);
    }

    lemma SelectedFromDists(p: P, start: nat, stop: nat, k: nat)
      requires Arrays() && start <= k <= stop < ptrs.Length && Cached(p, start, stop + 1)
      requires forall i :: start <= i < k ==> dists[i] < dists[k]
      requires forall i :: k < i <= stop ==> dists[i] >= dists[k]
      ensures Selected(dist, p, ptrs[..], start, stop + 1, k)
    {
    }

    /** Moves the k-th smallest distance of [start, stop] to position k, with no larger
        distance before it and no smaller one after it. */
    method QuickSelect(start: nat, stop: nat, k: nat, ghost p: P)
      requires Arrays() && start <= k <= stop < ptrs.Length && Cached(p, start, stop + 1)
      modifies ptrs, dists
      ensures Rearranged(old(ptrs[..]), ptrs[..], start, stop + 1)
      ensures Selected(dist, p, ptrs[..], start, stop + 1, k)
      decreases stop - start
    {
      hide Rearranged, Selected;
      if start == stop {
        SelectOnly(dist, p, ptrs[..], start);
        return;
      }
      var pivot := Partition(start, stop, p);
      ghost var middle := ptrs[..];
      if k < pivot {
        QuickSelect(start, pivot - 1, k, p);
        SelectLeft(dist, p, middle, ptrs[..], start, stop + 1, pivot, k);
        RearrangedTrans(old(ptrs[..]), middle, ptrs[..], start, stop + 1);
      } else if k > pivot {
        QuickSelect(pivot + 1, stop, k, p);
        SelectRight(dist, p, middle, ptrs[..], start, stop + 1, pivot, k);
        RearrangedTrans(old(ptrs[..]), middle, ptrs[..], start, stop + 1);
      }
    }

    /** Builds the subtree over [start, stop], for whatever vantage points and pivots
        the random generator picks. */
    method BuildSubtree(start: nat, stop: int) returns (node: Node)
      requires Arrays() && start <= stop + 1 <= ptrs.Length
      modifies ptrs, dists
      ensures Rearranged(old(ptrs[..]), ptrs[..], start, stop + 1)
      ensures Built(dist, node, ptrs[..], start, stop + 1)
      decreases stop + 1 - start
    {
      hide Rearranged, Built, Selected, Cached;
      if start > stop {
        NoNode(dist, ptrs[..], start);
        return Null;
      }
      if stop - start <= leafSize {
        OneLeaf(dist, ptrs[..], start, stop);
        return Leaf(start, stop);
      }
      var mid, radius := SplitAround(start, stop);
      ghost var s := ptrs[..];
      var inside := BuildSubtree(start + 1, mid - 1);
      ghost var t := ptrs[..];
      var outside := BuildSubtree(mid, stop);
      node := Inner(start, radius, inside, outside);
      Assemble(dist, s, t, ptrs[..], inside, outside, start, stop + 1);
      RearrangedTrans(old(ptrs[..]), s, ptrs[..], start, stop + 1);
    }

    /** Picks a random vantage point and splits the rest of [start, stop] at the middle
        by distance from it. */
    method SplitAround(start: nat, stop: nat) returns (mid: nat, radius: real)
      requires Arrays() && start < stop < ptrs.Length
      modifies ptrs, dists
      ensures mid == (start + 1 + stop) / 2
      ensures Rearranged(old(ptrs[..]), ptrs[..], start, stop + 1)
      ensures Selected(dist, ptrs[start], ptrs[..], start + 1, stop + 1, mid)
      ensures radius == dist(ptrs[start], ptrs[mid])
    {
      hide Rearranged, Selected, Cached;
      PickVantage(start, stop);
      ghost var first := ptrs[..];
      mid := (start + 1 + stop) / 2;
      QuickSelect(start + 1, stop, mid, ptrs[start]);
      Outside(first, ptrs[..], start + 1, stop + 1);
      radius := dist(ptrs[start], ptrs[mid]);
      Widen(first, ptrs[..], start + 1, stop + 1, start, stop + 1);
      RearrangedTrans(old(ptrs[..]), first, ptrs[..], start, stop + 1);
      dists[start] := radius;
    }

    /** Moves a random point to the front and measures the others from it. */
    method PickVantage(start: nat, stop: nat)
      requires Arrays() && start < stop < ptrs.Length
      modifies ptrs, dists
      ensures Rearranged(old(ptrs[..]), ptrs[..], start, stop + 1) && Cached(ptrs[start], start + 1, stop + 1)
    {
      hide Rearranged, Cached;
      var i: nat :| start <= i <= stop;
      Swap(start, i, start, stop + 1, ptrs[start]);
      CacheDistances(start, stop);
    }

    /** Stores the distance of every point of (start, stop] from the vantage point. */
    method CacheDistances(start: nat, stop: nat)
      requires Arrays() && start <= stop < ptrs.Length
      modifies dists
      ensures Cached(ptrs[start], start + 1, stop + 1)
    {
      for i := start + 1 to stop + 1
        invariant Cached(ptrs[start], start + 1, i)
      {
        dists[i] := dist(ptrs[start], ptrs[i]);
      }
    }

    /** Takes one point into the candidates if it beats the bound. */
    method Offer(q: P, k: nat, c: Candidates<P>, p: P, ghost seen: multiset<P>) returns (d: real)
      requires Metric(dist, top) && k >= 1 && Measures(c.queue.f, dist, q)
      requires Holding(c.queue.f, k, top, seen, c.queue.items, c.farthest)
      modifies c, c.queue
      ensures d == dist(q, p)
      ensures Holding(c.queue.f, k, top, seen + multiset{p}, c.queue.items, c.farthest)
    {
      hide Metric, IsNearest, Holding, Measures;
      ghost var f := c.queue.f;
      MeasureOf(f, dist, top, q, p);
      d := dist(q, p);
      if d < c.farthest {
        ghost var before := c.queue.items;
        HoldingBounds(f, k, top, seen, before, c.farthest);
        if |c.queue.items| == k {
          var x := c.queue.Pop();
          Replace(f, k, seen, before, x, p);
        } else {
          Room(f, k, seen, before, p);
        }
        c.queue.Push(p);
        if |c.queue.items| == k {
          var x := c.queue.Peek();
          MeasureOf(f, dist, top, q, x);
          c.farthest := dist(q, x);
          HoldingFull(f, k, top, seen + multiset{p}, c.queue.items, x);
        } else {
          HoldingRoom(f, k, top, seen + multiset{p}, c.queue.items);
        }
      } else {
        SkipRange(f, k, top, seen, c.queue.items, c.farthest, [p], 0, 1);
        assert [p][0..1] == [p];
      }
    }

    /** Searches the subtree over [lo, hi): afterwards the candidates are the k nearest of
        what was seen before together with every point of the range, visited or pruned. */
    method InternalSearch(node: Node, q: P, k: nat, c: Candidates<P>, ghost lo: nat, ghost hi: nat,
          ghost seen: multiset<P>)
      requires Metric(dist, top) && k >= 1 && Measures(c.queue.f, dist, q)
      requires lo <= hi <= ptrs.Length && Built(dist, node, ptrs[..], lo, hi)
      requires Holding(c.queue.f, k, top, seen, c.queue.items, c.farthest)
      requires c as object != ptrs && c.queue as object != ptrs
      modifies c, c.queue
      ensures Holding(c.queue.f, k, top, seen + multiset(ptrs[lo..hi]), c.queue.items, c.farthest)
      decreases node
    {
      hide Metric, IsNearest, Holding, Measures;
      if node.Null? {
        NothingSeen(seen, ptrs[lo..hi]);
        return;
      }
      if node.Leaf? {
        SearchLeaf(node, q, k, c, seen);
        return;
      }
      var start := node.start;
      ghost var mid := (lo + hi) / 2;
      var d := Offer(q, k, c, ptrs[start], seen);
      ghost var seen' := seen + multiset{ptrs[start]};
      ghost var ins, outs := multiset(ptrs[lo + 1..mid]), multiset(ptrs[mid..hi]);
      SplitBag(seen, ptrs[..], lo, mid, hi);
      assert ptrs[..][lo + 1..mid] == ptrs[lo + 1..mid] && ptrs[..][mid..hi] == ptrs[mid..hi]
             && ptrs[..][lo..hi] == ptrs[lo..hi];
      if d < node.radius {
        SearchInside(node, q, k, c, d, lo, hi, seen');
        SearchOutside(node, q, k, c, d, lo, hi, seen' + ins);
      } else {
        SearchOutside(node, q, k, c, d, lo, hi, seen');
        SearchInside(node, q, k, c, d, lo, hi, seen' + outs);
      }
    }

    method SearchInside(node: Node, q: P, k: nat, c: Candidates<P>, d: real, ghost lo: nat, ghost hi: nat,
          ghost seen: multiset<P>)
      requires Metric(dist, top) && k >= 1 && Measures(c.queue.f, dist, q)
      requires lo <= hi <= ptrs.Length && node.Inner? && Built(dist, node, ptrs[..], lo, hi) && d == dist(q, ptrs[lo])
      requires Holding(c.queue.f, k, top, seen, c.queue.items, c.farthest)
      requires c as object != ptrs && c.queue as object != ptrs
      modifies c, c.queue
      ensures Holding(c.queue.f, k, top, seen + multiset(ptrs[lo + 1..(lo + hi) / 2]), c.queue.items, c.farthest)
      decreases node, 0
    {
      hide Metric, IsNearest, Holding;
      ghost var s, mid := ptrs[..], (lo + hi) / 2;
      assert s[lo + 1..mid] == ptrs[lo + 1..mid];
      if d - c.farthest <= node.radius {
        InternalSearch(node.inside, q, k, c, lo + 1, mid, seen);
      } else {
        InsideIsFar(dist, top, q, s, lo + 1, mid, s[lo], node.radius, c.farthest);
        SkipRange(c.queue.f, k, top, seen, c.queue.items, c.farthest, s, lo + 1, mid);
      }
    }

    method SearchOutside(node: Node, q: P, k: nat, c: Candidates<P>, d: real, ghost lo: nat, ghost hi: nat,
          ghost seen: multiset<P>)
      requires Metric(dist, top) && k >= 1 && Measures(c.queue.f, dist, q)
      requires lo <= hi <= ptrs.Length && node.Inner? && Built(dist, node, ptrs[..], lo, hi) && d == dist(q, ptrs[lo])
      requires Holding(c.queue.f, k, top, seen, c.queue.items, c.farthest)
      requires c as object != ptrs && c.queue as object != ptrs
      modifies c, c.queue
      ensures Holding(c.queue.f, k, top, seen + multiset(ptrs[(lo + hi) / 2..hi]), c.queue.items, c.farthest)
      decreases node, 0
    {
      hide Metric, IsNearest, Holding;
      ghost var s, mid := ptrs[..], (lo + hi) / 2;
      assert s[mid..hi] == ptrs[mid..hi];
      if d + c.farthest >= node.radius {
        InternalSearch(node.outside, q, k, c, mid, hi, seen);
      } else {
        OutsideIsFar(dist, top, q, s, mid, hi, s[lo], node.radius, c.farthest);
        SkipRange(c.queue.f, k, top, seen, c.queue.items, c.farthest, s, mid, hi);
      }
    }

    method SearchLeaf(node: Node, q: P, k: nat, c: Candidates<P>, ghost seen: multiset<P>)
      requires Metric(dist, top) && k >= 1 && Measures(c.queue.f, dist, q)
      requires node.Leaf? && node.start <= node.stop < ptrs.Length
      requires Holding(c.queue.f, k, top, seen, c.queue.items, c.farthest)
      requires c as object != ptrs && c.queue as object != ptrs
      modifies c, c.queue
      ensures Holding(c.queue.f, k, top, seen + multiset(ptrs[node.start..node.stop + 1]), c.queue.items, c.farthest)
    {
      hide Metric, IsNearest, Holding, Measures;
      NothingSeen(seen, ptrs[node.start..node.start]);
      for i := node.start to node.stop + 1
        invariant Holding(c.queue.f, k, top, seen + multiset(ptrs[node.start..i]), c.queue.items, c.farthest)
      {
        var _ := Offer(q, k, c, ptrs[i], seen + multiset(ptrs[node.start..i]));
        assert ptrs[node.start..i + 1] == ptrs[node.start..i] + [ptrs[i]];
        OneMoreSeen(seen, ptrs[node.start..i], ptrs[i]);
      }
    }

    /** The k nearest points of the whole tree, farthest first. */
    method Search(q: P, k: nat) returns (out: seq<P>)
      requires Valid() && Metric(dist, top) && k >= 1
      ensures IsNearest(DistanceTo(dist, q), k, multiset(ptrs[..]), multiset(out))
      ensures forall i, j :: 0 <= i < j < |out| ==> dist(out[i], q) >= dist(out[j], q)
    {
      var f := DistanceTo(dist, q);
      var c := new Candidates(f, top);
      InternalSearch(root, q, k, c, 0, ptrs.Length, multiset{});
      assert multiset{} + multiset(ptrs[0..ptrs.Length]) == multiset(ptrs[..]) by {
        assert ptrs[0..ptrs.Length] == ptrs[..];
      }
      out := c.queue.Drain();
    }
  }

  lemma NothingSeen<P>(seen: multiset<P>, s: seq<P>)
    requires s == []
    ensures seen + multiset(s) == seen
  {
  }

  lemma OneMoreSeen<P>(seen: multiset<P>, s: seq<P>, x: P)
    ensures seen + multiset(s) + multiset{x} == seen + multiset(s + [x])
  {
  }

  /** A range is its first point, the points inside and the points outside, in any order. */
  lemma SplitBag<P>(seen: multiset<P>, s: seq<P>, lo: nat, mid: nat, hi: nat)
    requires lo + 1 <= mid <= hi <= |s|
    ensures seen + multiset{s[lo]} + multiset(s[lo + 1..mid]) + multiset(s[mid..hi]) == seen + multiset(s[lo..hi])
    ensures seen + multiset{s[lo]} + multiset(s[mid..hi]) + multiset(s[lo + 1..mid]) == seen + multiset(s[lo..hi])
  {
    assert s[lo..hi] == [s[lo]] + s[lo + 1..mid] + s[mid..hi];
    assert multiset(s[lo..hi]) == multiset{s[lo]} + multiset(s[lo + 1..mid]) + multiset(s[mid..hi]);
  }
}
