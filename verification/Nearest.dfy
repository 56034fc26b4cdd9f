/** What it means to be the k nearest of a bag of points, and the bounded max-queue that
    computes it. */
module Nearest {

  function Min(a: nat, b: nat): nat {
    if a <= b then a else b
  }

  /** `best` is a choice of the k points of `all` with the smallest measure. */
  ghost predicate IsNearest<P(!new)>(f: P -> real, k: nat, all: multiset<P>, best: multiset<P>) {
    && best <= all
    && |best| == Min(k, |all|)
    && forall x, y :: x in best && y in all - best ==> f(x) <= f(y)
  }

  lemma WholeBag<P>(all: multiset<P>, best: multiset<P>)
    requires best <= all && |best| == |all|
    ensures best == all
  {
    assert all == best + (all - best);
    assert |all - best| == 0;
  }

  /** A point that finds room is kept. */
  lemma Room<P(!new)>(f: P -> real, k: nat, all: multiset<P>, best: multiset<P>, p: P)
    requires IsNearest(f, k, all, best) && |best| < k
    ensures IsNearest(f, k, all + multiset{p}, best + multiset{p})
  {
    WholeBag(all, best);
  }

  /** A point closer than the farthest of a full choice takes its place. */
  lemma Replace<P(!new)>(f: P -> real, k: nat, all: multiset<P>, best: multiset<P>, far: P, p: P)
    requires IsNearest(f, k, all, best) && |best| == k
    requires far in best && (forall x :: x in best ==> f(x) <= f(far)) && f(p) < f(far)
    ensures IsNearest(f, k, all + multiset{p}, best - multiset{far} + multiset{p})
  {
    var all', best' := all + multiset{p}, best - multiset{far} + multiset{p};
    forall x, y | x in best' && y in all' - best'
      ensures f(x) <= f(y)
    {
      assert x in best || x == p;
      assert y == far || y in all - best;
    }
  }

  /** Points no closer than a full choice change nothing. */
  lemma Skip<P(!new)>(f: P -> real, k: nat, all: multiset<P>, best: multiset<P>, more: multiset<P>)
    requires IsNearest(f, k, all, best) && |best| == k
    requires forall x, y :: x in best && y in more ==> f(x) <= f(y)
    ensures IsNearest(f, k, all + more, best)
  {
    forall x, y | x in best && y in all + more - best
      ensures f(x) <= f(y)
    {
      assert y in more || y in all - best;
    }
  }

  /** A full choice made from one part bounds what a choice from both can contain. */
  lemma PartBounds<P(!new)>(f: P -> real, k: nat, part: multiset<P>, a: multiset<P>, b: multiset<P>,
                            c: multiset<P>, x: P, y: P)
    requires IsNearest(f, k, part, a) && IsNearest(f, k, a + b, c)
    requires x in c && y in part - a
    ensures f(x) <= f(y)
  {
    if |a| < k {
      WholeBag(part, a);
    }
    if f(y) < f(x) {
      assert x !in a;
      if a <= c {
        WholeBag(c, a);
      }
      assert !(a <= c);
      var z :| z in a && z in a + b - c;
    }
  }

  /** All points of several bags. */
  ghost function Union<P>(bags: seq<multiset<P>>): multiset<P> {
    if bags == [] then multiset{} else bags[0] + Union(bags[1..])
  }

  lemma {:induction false} UnionSplit<P>(bags: seq<multiset<P>>, i: nat)
    requires i < |bags|
    ensures Union(bags) == bags[i] + Union(bags[..i] + bags[i + 1..])
  {
    if i == 0 {
      assert bags[..0] + bags[1..] == bags[1..];
    } else {
      UnionSplit(bags[1..], i - 1);
      var rest := bags[..i] + bags[i + 1..];
      assert rest[0] == bags[0];
      assert rest[1..] == bags[1..][..i - 1] + bags[1..][i..];
    }
  }

  /** A point that the union has more often than the parts' choices do was left out of
      some part. */
  lemma {:induction false} FindPart<P>(bags: seq<multiset<P>>, picks: seq<multiset<P>>, y: P) returns (i: nat)
    requires |bags| == |picks| && Union(bags)[y] > Union(picks)[y]
    ensures i < |bags| && bags[i][y] > picks[i][y]
  {
    if bags[0][y] > picks[0][y] {
      i := 0;
    } else {
      i := FindPart(bags[1..], picks[1..], y);
      i := i + 1;
    }
  }

  lemma {:induction false} PicksFit<P(!new)>(f: P -> real, k: nat, bags: seq<multiset<P>>, picks: seq<multiset<P>>)
    requires |bags| == |picks| && forall i :: 0 <= i < |bags| ==> IsNearest(f, k, bags[i], picks[i])
    ensures Union(picks) <= Union(bags)
    ensures Min(k, |Union(picks)|) == Min(k, |Union(bags)|)
  {
    if bags != [] {
      assert IsNearest(f, k, bags[0], picks[0]);
      PicksFit(f, k, bags[1..], picks[1..]);
    }
  }

  /** k-nearest is decomposable: choosing from the choices of any number of parts is
      choosing from all of them together. */
  lemma DecomposeAll<P(!new)>(f: P -> real, k: nat, bags: seq<multiset<P>>, picks: seq<multiset<P>>, best: multiset<P>)
    requires |bags| == |picks| && forall i :: 0 <= i < |bags| ==> IsNearest(f, k, bags[i], picks[i])
    requires IsNearest(f, k, Union(picks), best)
    ensures IsNearest(f, k, Union(bags), best)
  {
    PicksFit(f, k, bags, picks);
    forall x, y | x in best && y in Union(bags) - best
      ensures f(x) <= f(y)
    {
      if y !in Union(picks) - best {
        var i := FindPart(bags, picks, y);
        UnionSplit(picks, i);
        PartBounds(f, k, bags[i], picks[i], Union(picks[..i] + picks[i + 1..]), best, x, y);
      }
    }
  }

  ghost predicate Ascending<P(!new)>(f: P -> real, s: seq<P>) {
    forall i, j :: 0 <= i < j < |s| ==> f(s[i]) <= f(s[j])
  }

  lemma SubBagIsSmaller<P>(a: multiset<P>, b: multiset<P>)
    requires a <= b
    ensures |a| <= |b|
  {
    assert b == a + (b - a);
  }

  /** Of the first i + 1 points of `a`, one occurs there more often than in the first i
      points of `b`. */
  lemma FindSurplus<P>(a: seq<P>, b: seq<P>, i: nat) returns (m: nat)
    requires i < |a| && i < |b|
    ensures m <= i && multiset(a[..i + 1])[a[m]] > multiset(b[..i])[a[m]]
  {
    var front, back := multiset(a[..i + 1]), multiset(b[..i]);
    if front <= back {
      SubBagIsSmaller(front, back);
      assert false;
    }
    var z :| front[z] > back[z];
    assert z in a[..i + 1];
    m :| 0 <= m < i + 1 && a[..i + 1][m] == z;
  }

  lemma PrefixCounts<P>(s: seq<P>, i: nat, z: P)
    requires i <= |s|
    ensures multiset(s[..i])[z] <= multiset(s)[z]
    ensures z !in s[i..] ==> multiset(s[..i])[z] == multiset(s)[z]
  {
    assert s == s[..i] + s[i..];
  }

  lemma RankNotBelow<P(!new)>(f: P -> real, k: nat, all: multiset<P>, a: seq<P>, b: seq<P>, i: nat)
    requires IsNearest(f, k, all, multiset(a)) && IsNearest(f, k, all, multiset(b))
    requires Ascending(f, a) && Ascending(f, b) && i < |a| == |b|
    ensures f(b[i]) <= f(a[i])
  {
    hide IsNearest;
    var m := FindSurplus(a, b, i);
    var z := a[m];
    assert f(z) <= f(a[i]);
    PrefixCounts(a, i + 1, z);
    PrefixCounts(b, i, z);
    if z in b[i..] {
      var n :| i <= n < |b| && b[n] == z;
      assert f(b[i]) <= f(z);
    } else {
      LeftOut(f, k, all, multiset(a), multiset(b), b[i], z);
    }
  }

  /** What one choice has more often than the other is left out by the other. */
  lemma LeftOut<P(!new)>(f: P -> real, k: nat, all: multiset<P>, a: multiset<P>, b: multiset<P>, y: P, z: P)
    requires IsNearest(f, k, all, a) && IsNearest(f, k, all, b) && y in b && b[z] < a[z]
    ensures f(y) <= f(z)
  {
    assert b[z] < a[z] <= all[z];
    assert z in all - b;
  }

  /** Two choices of the k nearest have the same distances, rank by rank. */
  lemma SameDistances<P(!new)>(f: P -> real, k: nat, all: multiset<P>, a: seq<P>, b: seq<P>)
    requires IsNearest(f, k, all, multiset(a)) && IsNearest(f, k, all, multiset(b))
    requires Ascending(f, a) && Ascending(f, b)
    ensures |a| == |b| && forall i :: 0 <= i < |a| ==> f(a[i]) == f(b[i])
  {
    assert |a| == |multiset(a)| == |multiset(b)| == |b|;
    forall i | 0 <= i < |a|
      ensures f(a[i]) == f(b[i])
    {
      RankNotBelow(f, k, all, a, b, i);
      RankNotBelow(f, k, all, b, a, i);
    }
  }

  lemma {:induction false} FarthestExists<P(!new)>(f: P -> real, bag: multiset<P>)
    requires |bag| > 0
    ensures exists x :: x in bag && forall y :: y in bag ==> f(y) <= f(x)
    decreases |bag|
  {
    var p :| p in bag;
    var rest := bag - multiset{p};
    OneLess(bag, p);
    if |rest| == 0 {
      assert rest == multiset{};
      assert forall y :: y in bag ==> f(y) <= f(p);
    } else {
      FarthestExists(f, rest);
      var q :| q in rest && forall y :: y in rest ==> f(y) <= f(q);
      var far := if f(p) <= f(q) then q else p;
      assert far in bag && forall y :: y in bag ==> f(y) <= f(far);
    }
  }

  lemma OneLess<P(!new)>(bag: multiset<P>, p: P)
    requires p in bag
    ensures |bag - multiset{p}| == |bag| - 1
    ensures forall y :: y in bag <==> y in bag - multiset{p} || y == p
  {
  }

  /** The measure that a query point gives the others. */
  function DistanceTo<P>(dist: (P, P) -> real, q: P): P -> real {
    x => dist(x, q)
  }

  datatype Tagged<P> = Tagged(rec: P, deleted: bool)

  /** The records that carry no delete tag. */
  function Live<P>(recs: seq<Tagged<P>>): seq<P> {
    if recs == [] then []
    else
      var last := recs[|recs| - 1];
      Live(recs[..|recs| - 1]) + if last.deleted then [] else [last.rec]
  }

  /** The untagged entries of `recs`, at these positions in order, have the records `out`. */
  ghost predicate LiveAt<P>(recs: seq<Tagged<P>>, at: seq<nat>, out: seq<P>) {
    && |at| == |out|
    && (forall i: nat :: i in at <==> i < |recs| && !recs[i].deleted)
    && (forall k :: 0 <= k < |at| ==> at[k] < |recs| && out[k] == recs[at[k]].rec)
    && (forall k, l :: 0 <= k < l < |at| ==> at[k] < at[l])
  }

  lemma LiveMore<P>(recs: seq<Tagged<P>>, at: seq<nat>, out: seq<P>, last: Tagged<P>)
    requires LiveAt(recs, at, out)
    ensures if last.deleted then LiveAt(recs + [last], at, out)
            else LiveAt(recs + [last], at + [|recs|], out + [last.rec])
  {
  }

  lemma {:induction false} LiveByPosition<P>(recs: seq<Tagged<P>>) returns (at: seq<nat>)
    ensures LiveAt(recs, at, Live(recs))
  {
    at := [];
    if recs != [] {
      var before, last := recs[..|recs| - 1], recs[|recs| - 1];
      at := LiveByPosition(before);
      hide LiveAt;
      LiveMore(before, at, Live(before), last);
      assert recs == before + [last] && Live(before) + [] == Live(before);
      if !last.deleted {
        at := at + [|before|];
      }
    }
  }

  /** `out` was drained farthest first, and nothing left in the bag is farther. */
  ghost predicate Draining<P(!new)>(f: P -> real, out: seq<P>, bag: multiset<P>) {
    && (forall i, j :: 0 <= i < j < |out| ==> f(out[i]) >= f(out[j]))
    && (forall i, y :: 0 <= i < |out| && y in bag ==> f(out[i]) >= f(y))
  }

  lemma DrainStep<P(!new)>(f: P -> real, out: seq<P>, bag: multiset<P>, x: P)
    requires Draining(f, out, bag) && x in bag && forall y :: y in bag ==> f(y) <= f(x)
    ensures Draining(f, out + [x], bag - multiset{x})
    ensures multiset(out + [x]) + (bag - multiset{x}) == multiset(out) + bag
    ensures |bag - multiset{x}| < |bag|
  {
    OneLess(bag, x);
  }

  /** The max-queue: a bag of points from which the farthest is taken first. */
  class MaxQueue<P(!new, ==)> {
    const f: P -> real
    var items: multiset<P>

    constructor (f: P -> real)
      ensures this.f == f && items == multiset{}
    {
      this.f := f;
      items := multiset{};
    }

    method Peek() returns (x: P)
      requires |items| > 0
      ensures x in items && forall y :: y in items ==> f(y) <= f(x)
    {
      FarthestExists(f, items);
      x :| x in items && forall y :: y in items ==> f(y) <= f(x);
    }

    method Pop() returns (x: P)
      requires |items| > 0
      modifies this
      ensures x in old(items) && (forall y :: y in old(items) ==> f(y) <= f(x))
      ensures items == old(items) - multiset{x}
    {
      x := Peek();
      items := items - multiset{x};
    }

    method Push(x: P)
      modifies this
      ensures items == old(items) + multiset{x}
    {
      items := items + multiset{x};
    }

    /** Empties the queue, farthest point first. */
    method Drain() returns (out: seq<P>)
      modifies this
      ensures items == multiset{} && multiset(out) == old(items)
      ensures forall i, j :: 0 <= i < j < |out| ==> f(out[i]) >= f(out[j])
    {
      out := [];
      while |items| > 0
        invariant multiset(out) + items == old(items) && Draining(f, out, items)
        decreases |items|
      {
        ghost var before := items;
        var x := Pop();
        DrainStep(f, out, before, x);
        out := out + [x];
      }
    }
  }
}
