/** The bookkeeping of a k-way merge: entries move from the runs to the heap to the output,
    or leave in cancelling pairs, and nothing else happens to them. */
module MergeBag {
  import opened Records

  /** A heap entry: a record and the run it came from. */
  datatype Node = Node(rec: Wrapped, run: nat)

  function Recs(heap: seq<Node>): (s: seq<Wrapped>)
    ensures |s| == |heap| && forall k :: 0 <= k < |heap| ==> s[k] == heap[k].rec
  {
    seq(|heap|, k requires 0 <= k < |heap| => heap[k].rec)
  }

  /** The k-th entry is one of the smallest; which of several equal ones the heap yields is
      left open. */
  ghost predicate IsTop(heap: seq<Node>, k: nat) {
    k < |heap| && forall j :: 0 <= j < |heap| ==> !Less(heap[j].rec.rec, heap[k].rec.rec)
  }

  lemma {:induction false} TopExists(heap: seq<Node>)
    requires heap != []
    ensures exists k: nat :: IsTop(heap, k)
  {
    var n := |heap| - 1;
    if n == 0 {
      assert IsTop(heap, 0);
    } else {
      TopExists(heap[..n]);
      var k: nat :| IsTop(heap[..n], k);
      assert forall j :: 0 <= j < n ==> heap[j] == heap[..n][j];
      if Less(heap[n].rec.rec, heap[k].rec.rec) {
        assert IsTop(heap, n);
      } else {
        assert IsTop(heap, k);
      }
    }
  }

  method Top(heap: seq<Node>) returns (k: nat)
    requires heap != []
    ensures IsTop(heap, k)
  {
    TopExists(heap);
    k :| k < |heap| && forall j :: 0 <= j < |heap| ==> !Less(heap[j].rec.rec, heap[k].rec.rec);
  }

  function Without(heap: seq<Node>, k: nat): (h: seq<Node>)
    requires k < |heap|
    ensures |h| == |heap| - 1
  {
    heap[..k] + heap[k + 1..]
  }

  lemma WithoutBag(heap: seq<Node>, k: nat)
    requires k < |heap|
    ensures multiset(Recs(heap)) == multiset(Recs(Without(heap, k))) + multiset{heap[k].rec}
  {
    var s := Recs(heap);
    assert s == s[..k] + [s[k]] + s[k + 1..];
    assert Recs(Without(heap, k)) == s[..k] + s[k + 1..];
  }

  lemma PushBag(heap: seq<Node>, n: Node)
    ensures multiset(Recs(heap + [n])) == multiset(Recs(heap)) + multiset{n.rec}
  {
    assert Recs(heap + [n]) == Recs(heap) + [n.rec];
  }

  lemma PullBag(rest: seq<seq<Wrapped>>, i: nat)
    requires i < |rest| && rest[i] != []
    ensures multiset(Flatten(rest)) == multiset(Flatten(rest[i := rest[i][1..]])) + multiset{rest[i][0]}
  {
    FlattenSplit(rest, i);
    FlattenUpdate(rest, i, rest[i][1..]);
    assert rest[i] == [rest[i][0]] + rest[i][1..];
  }

  // ---------------------------------------------------------------------------
  // Order
  // ---------------------------------------------------------------------------

  /** Each run is sorted, and what is left of it lies above its entry in the heap. */
  ghost predicate Ordered(heap: seq<Node>, rest: seq<seq<Wrapped>>) {
    && (forall k :: 0 <= k < |heap| ==> heap[k].run < |rest|)
    && (forall i :: 0 <= i < |rest| ==> Sorted(rest[i]))
    && (forall i :: 0 <= i < |rest| && rest[i] != [] ==> Covered(heap, i, rest[i][0]))
  }

  ghost predicate Covered(heap: seq<Node>, i: nat, w: Wrapped) {
    exists k :: 0 <= k < |heap| && heap[k].run == i && !Less(w.rec, heap[k].rec.rec)
  }

  /** `w` is no larger than anything still to come. */
  ghost predicate Least(w: Wrapped, heap: seq<Node>, rest: seq<seq<Wrapped>>) {
    && (forall k :: 0 <= k < |heap| ==> !Less(heap[k].rec.rec, w.rec))
    && (forall i :: 0 <= i < |rest| && rest[i] != [] ==> !Less(rest[i][0].rec, w.rec))
  }

  lemma TopIsLeast(heap: seq<Node>, rest: seq<seq<Wrapped>>, k: nat)
    requires Ordered(heap, rest) && IsTop(heap, k)
    ensures Least(heap[k].rec, heap, rest)
  {
    forall i | 0 <= i < |rest| && rest[i] != []
      ensures !Less(rest[i][0].rec, heap[k].rec.rec)
    {
      assert Covered(heap, i, rest[i][0]);
    }
  }

  /** The heap after taking entry k and refilling from its run. */
  function Refilled(heap: seq<Node>, rest: seq<seq<Wrapped>>, k: nat): seq<Node>
    requires k < |heap| && heap[k].run < |rest|
  {
    var i := heap[k].run;
    if rest[i] == [] then Without(heap, k) else Without(heap, k) + [Node(rest[i][0], i)]
  }

  function Pulled(heap: seq<Node>, rest: seq<seq<Wrapped>>, k: nat): (r: seq<seq<Wrapped>>)
    requires k < |heap| && heap[k].run < |rest|
    ensures |r| == |rest|
  {
    var i := heap[k].run;
    if rest[i] == [] then rest else rest[i := rest[i][1..]]
  }

  lemma WithoutCovers(heap: seq<Node>, k: nat, i: nat, w: Wrapped)
    requires k < |heap| && heap[k].run != i && Covered(heap, i, w)
    ensures Covered(Without(heap, k), i, w)
  {
    var m :| 0 <= m < |heap| && heap[m].run == i && !Less(w.rec, heap[m].rec.rec);
    var h := Without(heap, k);
    var n := if m < k then m else m - 1;
    assert h[n] == heap[m];
  }

  lemma RefillCovers(heap: seq<Node>, rest: seq<seq<Wrapped>>, k: nat, i: nat)
    requires Ordered(heap, rest) && k < |heap| && i < |rest|
    requires Pulled(heap, rest, k)[i] != []
    ensures Covered(Refilled(heap, rest, k), i, Pulled(heap, rest, k)[i][0])
  {
    var h, next := Refilled(heap, rest, k), Pulled(heap, rest, k);
    if i == heap[k].run {
      var n := |h| - 1;
      assert h[n] == Node(rest[i][0], i);
      assert next[i][0] == rest[i][1];
    } else {
      assert Covered(heap, i, rest[i][0]);
      WithoutCovers(heap, k, i, rest[i][0]);
      var m :| 0 <= m < |Without(heap, k)| && Without(heap, k)[m].run == i
          && !Less(rest[i][0].rec, Without(heap, k)[m].rec.rec);
      assert h[m] == Without(heap, k)[m];
    }
  }

  /** Taking the top and refilling keeps the order, and what comes next is no smaller. */
  lemma RefillKeepsOrder(heap: seq<Node>, rest: seq<seq<Wrapped>>, k: nat, w: Wrapped)
    requires Ordered(heap, rest) && k < |heap| && Least(w, heap, rest)
    ensures Ordered(Refilled(heap, rest, k), Pulled(heap, rest, k))
    ensures Least(w, Refilled(heap, rest, k), Pulled(heap, rest, k))
  {
    hide Covered;
    var h: seq<Node> := Refilled(heap, rest, k);
    var next: seq<seq<Wrapped>> := Pulled(heap, rest, k);
    forall i | 0 <= i < |next| && next[i] != []
      ensures Covered(h, i, next[i][0])
    {
      RefillCovers(heap, rest, k, i);
    }
    forall i | 0 <= i < |next| && next[i] != []
      ensures !Less(next[i][0].rec, w.rec)
    {
      if i == heap[k].run {
        assert next[i][0] == rest[i][1];
      }
    }
  }

  /** Taking the top and refilling moves one entry out and touches no other. */
  lemma RefillKeepsBag(heap: seq<Node>, rest: seq<seq<Wrapped>>, k: nat)
    requires k < |heap| && heap[k].run < |rest|
    ensures multiset(Recs(heap)) + multiset(Flatten(rest))
         == multiset(Recs(Refilled(heap, rest, k))) + multiset(Flatten(Pulled(heap, rest, k))) + multiset{heap[k].rec}
  {
    var i := heap[k].run;
    WithoutBag(heap, k);
    if rest[i] != [] {
      PushBag(Without(heap, k), Node(rest[i][0], i));
      PullBag(rest, i);
    }
  }

  lemma RefillShrinks(heap: seq<Node>, rest: seq<seq<Wrapped>>, k: nat)
    requires k < |heap| && heap[k].run < |rest|
    ensures |Refilled(heap, rest, k)| + |Flatten(Pulled(heap, rest, k))| == |heap| + |Flatten(rest)| - 1
  {
    hide Refilled, Pulled;
    RefillKeepsBag(heap, rest, k);
    assert |multiset(Recs(heap)) + multiset(Flatten(rest))| == |heap| + |Flatten(rest)|;
    var h, n := Refilled(heap, rest, k), Pulled(heap, rest, k);
    assert |multiset(Recs(h)) + multiset(Flatten(n)) + multiset{heap[k].rec}| == |h| + |Flatten(n)| + 1;
  }

  // ---------------------------------------------------------------------------
  // Cancelling pairs
  // ---------------------------------------------------------------------------

  /** An insert and a tombstone of the same record. */
  predicate Cancels(a: Wrapped, b: Wrapped) {
    a.rec == b.rec && a.tombstone != b.tombstone
  }

  /** What was cancelled, pair by pair. */
  ghost predicate Pairs(gone: seq<Wrapped>) {
    gone == [] || (|gone| >= 2 && Cancels(gone[0], gone[1]) && Pairs(gone[2..]))
  }

  lemma {:induction false} PairsSnoc(gone: seq<Wrapped>, a: Wrapped, b: Wrapped)
    requires Pairs(gone) && Cancels(a, b)
    ensures Pairs(gone + [a, b])
  {
    if gone == [] {
      assert gone + [a, b] == [a, b];
    } else {
      PairsSnoc(gone[2..], a, b);
      assert (gone + [a, b])[2..] == gone[2..] + [a, b];
    }
  }

  /** Half of them are tombstones. */
  lemma {:induction false} PairsHalf(gone: seq<Wrapped>)
    requires Pairs(gone)
    ensures 2 * Tombstones(gone) == |gone|
  {
    if gone != [] {
      assert gone[1..][1..] == gone[2..];
      PairsHalf(gone[2..]);
    }
  }

  /** Pairs weigh nothing. */
  lemma {:induction false} PairsWeighNothing(gone: seq<Wrapped>, r: Record)
    requires Pairs(gone) && Untagged(gone)
    ensures Net(gone, r) == 0
  {
    if gone != [] {
      assert gone[1..][0] == gone[1] && gone[1..][1..] == gone[2..];
      assert Net(gone, r) == Weight(gone[0], r) + (Weight(gone[1], r) + Net(gone[2..], r));
      assert Untagged(gone[2..]) by { assert forall k :: 0 <= k < |gone[2..]| ==> gone[2..][k] == gone[k + 2]; }
      PairsWeighNothing(gone[2..], r);
    }
  }

  lemma TombstonesRemoveAt(s: seq<Wrapped>, i: nat)
    requires i < |s|
    ensures Tombstones(s) == Tombstones(s[..i] + s[i + 1..]) + if s[i].tombstone then 1 else 0
  {
    assert s == s[..i] + ([s[i]] + s[i + 1..]);
    TombstonesConcat(s[..i], [s[i]] + s[i + 1..]);
    TombstonesConcat(s[..i], s[i + 1..]);
  }

  lemma {:induction false} TombstonesPermutation(a: seq<Wrapped>, b: seq<Wrapped>)
    requires multiset(a) == multiset(b)
    ensures Tombstones(a) == Tombstones(b)
    decreases |a|
  {
    NoElements(a, b);
    if a != [] {
      var i := MatchFirst(a, b);
      TombstonesRemoveAt(b, i);
      TombstonesPermutation(a[1..], b[..i] + b[i + 1..]);
    }
  }

  lemma UntaggedPart(all: seq<Wrapped>, part: seq<Wrapped>, other: seq<Wrapped>)
    requires Untagged(all) && multiset(all) == multiset(part) + multiset(other)
    ensures Untagged(part)
  {
    forall i | 0 <= i < |part|
      ensures !part[i].deleted
    {
      assert part[i] in multiset(part);
      assert part[i] in multiset(all);
      assert part[i] in all;
    }
  }

  /** `out` is `all` without some cancelling pairs. */
  ghost predicate Cancelling(all: seq<Wrapped>, out: seq<Wrapped>) {
    exists gone :: Pairs(gone) && multiset(all) == multiset(out) + multiset(gone)
  }

  /** Output plus cancelled pairs being all there was, lengths and tombstones are what the
      counters say. */
  lemma CancellingCounts(all: seq<Wrapped>, out: seq<Wrapped>, gone: seq<Wrapped>)
    requires Pairs(gone) && multiset(all) == multiset(out) + multiset(gone)
    ensures |all| == |out| + |gone| && Tombstones(all) == Tombstones(out) + |gone| / 2 && |gone| % 2 == 0
  {
    PairsHalf(gone);
    TombstonesPermutation(all, out + gone);
    TombstonesConcat(out, gone);
    assert |multiset(all)| == |multiset(out + gone)|;
  }

  /** Without tags the output has the same net counts, too. */
  lemma CancellingKeepsNet(all: seq<Wrapped>, out: seq<Wrapped>)
    requires Untagged(all) && Cancelling(all, out)
    ensures SameNet(all, out) && Untagged(out) && |out| <= |all|
  {
    var gone :| Pairs(gone) && multiset(all) == multiset(out) + multiset(gone);
    CancellingCounts(all, out, gone);
    UntaggedPart(all, out, gone);
    UntaggedPart(all, gone, out);
    forall r ensures Net(all, r) == Net(out, r) {
      NetPermutation(all, out + gone, r);
      NetConcat(out, gone, r);
      PairsWeighNothing(gone, r);
    }
  }

  // ---------------------------------------------------------------------------
  // Which pairs must meet
  // ---------------------------------------------------------------------------

  /** How many inserts, or tombstones, of r there are. */
  function CountOf(s: seq<Wrapped>, r: Record, tombstone: bool): nat {
    if s == [] then 0
    else (if s[0].rec == r && s[0].tombstone == tombstone then 1 else 0) + CountOf(s[1..], r, tombstone)
  }

  /** Inserts and tombstones of r, both. */
  ghost predicate BothKinds(s: seq<Wrapped>, r: Record) {
    CountOf(s, r, false) > 0 && CountOf(s, r, true) > 0
  }

  ghost predicate HasKind(m: multiset<Wrapped>, r: Record, tombstone: bool) {
    exists w :: w in m && w.rec == r && w.tombstone == tombstone
  }

  ghost predicate HasBoth(m: multiset<Wrapped>, r: Record) {
    HasKind(m, r, false) && HasKind(m, r, true)
  }

  lemma {:induction false} CountConcat(a: seq<Wrapped>, b: seq<Wrapped>, r: Record, tombstone: bool)
    ensures CountOf(a + b, r, tombstone) == CountOf(a, r, tombstone) + CountOf(b, r, tombstone)
  {
    if a == [] {
      assert a + b == b;
    } else {
      CountConcat(a[1..], b, r, tombstone);
      assert (a + b)[1..] == a[1..] + b;
    }
  }

  lemma CountRemoveAt(s: seq<Wrapped>, i: nat, r: Record, tombstone: bool)
    requires i < |s|
    ensures CountOf(s, r, tombstone)
         == CountOf(s[..i] + s[i + 1..], r, tombstone) + if s[i].rec == r && s[i].tombstone == tombstone then 1 else 0
  {
    assert s == s[..i] + ([s[i]] + s[i + 1..]);
    CountConcat(s[..i], [s[i]] + s[i + 1..], r, tombstone);
    CountConcat(s[..i], s[i + 1..], r, tombstone);
  }

  lemma {:induction false} CountPermutation(a: seq<Wrapped>, b: seq<Wrapped>, r: Record, tombstone: bool)
    requires multiset(a) == multiset(b)
    ensures CountOf(a, r, tombstone) == CountOf(b, r, tombstone)
    decreases |a|
  {
    NoElements(a, b);
    if a != [] {
      var i := MatchFirst(a, b);
      CountRemoveAt(b, i, r, tombstone);
      CountPermutation(a[1..], b[..i] + b[i + 1..], r, tombstone);
    }
  }

  lemma {:induction false} CountHas(s: seq<Wrapped>, r: Record, tombstone: bool)
    ensures CountOf(s, r, tombstone) > 0 <==> HasKind(multiset(s), r, tombstone)
  {
    if s != [] {
      CountHas(s[1..], r, tombstone);
      assert s == [s[0]] + s[1..];
      assert multiset(s) == multiset{s[0]} + multiset(s[1..]);
    }
  }

  /** Pairs have as many inserts as tombstones. */
  lemma {:induction false} PairsCount(gone: seq<Wrapped>, r: Record)
    requires Pairs(gone)
    ensures CountOf(gone, r, false) == CountOf(gone, r, true)
  {
    if gone != [] {
      PairsCount(gone[2..], r);
      var rest := gone[1..];
      assert rest[0] == gone[1] && rest[1..] == gone[2..];
    }
  }

  /** `out` is `all` without as many inserts as tombstones of each record, some if it has both,
      and none otherwise. */
  ghost predicate PairedOff(all: seq<Wrapped>, out: seq<Wrapped>) {
    forall r ::
      && CountOf(out, r, false) <= CountOf(all, r, false)
      && CountOf(all, r, false) - CountOf(out, r, false) == CountOf(all, r, true) - CountOf(out, r, true)
      && (CountOf(out, r, false) < CountOf(all, r, false) <==> BothKinds(all, r))
  }

  /** Of a record with a single insert, or a single tombstone, and some of the other kind,
      exactly one pair goes. */
  lemma SinglePairGoes(all: seq<Wrapped>, out: seq<Wrapped>, r: Record, kind: bool)
    requires PairedOff(all, out) && BothKinds(all, r) && CountOf(all, r, kind) == 1
    ensures CountOf(out, r, kind) == 0 && CountOf(out, r, !kind) == CountOf(all, r, !kind) - 1
  {
    assert CountOf(out, r, false) < CountOf(all, r, false);
  }

  /** All there is at this point. */
  ghost function Pending(heap: seq<Node>, rest: seq<seq<Wrapped>>): multiset<Wrapped> {
    multiset(Recs(heap)) + multiset(Flatten(rest))
  }

  /** Whoever has both kinds still has them ahead, or has lost a pair. */
  ghost predicate Meeting(all: seq<Wrapped>, gone: seq<Wrapped>, heap: seq<Node>, rest: seq<seq<Wrapped>>) {
    forall r :: HasBoth(multiset(all), r) ==> HasKind(multiset(gone), r, false) || HasBoth(Pending(heap, rest), r)
  }

  lemma {:induction false} InFlatten(rest: seq<seq<Wrapped>>, w: Wrapped) returns (i: nat, j: nat)
    requires w in multiset(Flatten(rest))
    ensures i < |rest| && j < |rest[i]| && rest[i][j] == w
  {
    if w in multiset(rest[0]) {
      i := 0;
      j :| j < |rest[0]| && rest[0][j] == w;
    } else {
      assert multiset(Flatten(rest)) == multiset(rest[0]) + multiset(Flatten(rest[1..]));
      i, j := InFlatten(rest[1..], w);
      i := i + 1;
    }
  }

  /** The top of the heap is the least of all that is pending. */
  lemma TopBelowPending(heap: seq<Node>, rest: seq<seq<Wrapped>>, k: nat, w: Wrapped)
    requires Ordered(heap, rest) && IsTop(heap, k) && w in Pending(heap, rest)
    ensures !Less(w.rec, heap[k].rec.rec)
  {
    if w in multiset(Recs(heap)) {
      var j :| 0 <= j < |Recs(heap)| && Recs(heap)[j] == w;
    } else {
      TopIsLeast(heap, rest, k);
      var i, j := InFlatten(rest, w);
      assert !Less(rest[i][0].rec, heap[k].rec.rec);
      assert j > 0 ==> !Less(rest[i][j].rec, rest[i][0].rec);
    }
  }

  lemma PendingHasTop(heap: seq<Node>, rest: seq<seq<Wrapped>>, w: Wrapped)
    requires Ordered(heap, rest) && w in Pending(heap, rest)
    ensures heap != []
  {
    if w !in multiset(Recs(heap)) {
      var i, j := InFlatten(rest, w);
      assert Covered(heap, i, rest[i][0]);
    }
  }

  /** What is left of a multiset without one element. */
  lemma KindStays(m: multiset<Wrapped>, m1: multiset<Wrapped>, w: Wrapped, r: Record, tombstone: bool)
    requires m == m1 + multiset{w} && HasKind(m, r, tombstone) && !(w.rec == r && w.tombstone == tombstone)
    ensures HasKind(m1, r, tombstone)
  {
    var x :| x in m && x.rec == r && x.tombstone == tombstone;
    assert x in m1;
  }

  /** An entry that cancels nothing leaves its record both kinds, if it had them. */
  lemma StillMeeting(all: seq<Wrapped>, gone: seq<Wrapped>, heap: seq<Node>, rest: seq<seq<Wrapped>>, k: nat,
                     heap1: seq<Node>, rest1: seq<seq<Wrapped>>, k1: nat)
    requires Meeting(all, gone, heap, rest) && Ordered(heap, rest) && IsTop(heap, k) && heap[k].run < |rest|
    requires heap1 == Refilled(heap, rest, k) && rest1 == Pulled(heap, rest, k) && Ordered(heap1, rest1)
    requires heap1 != [] ==> IsTop(heap1, k1) && !Cancels(heap[k].rec, heap1[k1].rec)
    ensures Meeting(all, gone, heap1, rest1)
  {
    hide Refilled, Pulled, Ordered, HasKind;
    var top := heap[k].rec;
    RefillKeepsBag(heap, rest, k);
    var m, m1 := Pending(heap, rest), Pending(heap1, rest1);
    forall r | HasBoth(m, r) ensures HasBoth(m1, r) {
      if top.rec != r {
        KindStays(m, m1, top, r, false);
        KindStays(m, m1, top, r, true);
      } else {
        KindStays(m, m1, top, r, !top.tombstone);
        OwnKindStays(heap, rest, k, heap1, rest1, k1);
      }
    }
  }

  lemma OwnKindStays(heap: seq<Node>, rest: seq<seq<Wrapped>>, k: nat, heap1: seq<Node>, rest1: seq<seq<Wrapped>>,
                     k1: nat)
    requires Ordered(heap, rest) && IsTop(heap, k) && Ordered(heap1, rest1)
    requires Pending(heap, rest) == Pending(heap1, rest1) + multiset{heap[k].rec}
    requires heap1 != [] ==> IsTop(heap1, k1) && !Cancels(heap[k].rec, heap1[k1].rec)
    requires HasKind(Pending(heap1, rest1), heap[k].rec.rec, !heap[k].rec.tombstone)
    ensures HasKind(Pending(heap1, rest1), heap[k].rec.rec, heap[k].rec.tombstone)
  {
    hide Ordered;
    var top := heap[k].rec;
    var x :| x in Pending(heap1, rest1) && x.rec == top.rec && x.tombstone == !top.tombstone;
    PendingHasTop(heap1, rest1, x);
    var next := heap1[k1].rec;
    assert Recs(heap1)[k1] == next;
    assert next in Pending(heap1, rest1) && next in Pending(heap, rest);
    TopBelowPending(heap1, rest1, k1, x);
    TopBelowPending(heap, rest, k, next);
    assert next.rec == top.rec;
  }

  /** A pair that leaves does so for its record. */
  lemma PairMeets(all: seq<Wrapped>, gone: seq<Wrapped>, heap: seq<Node>, rest: seq<seq<Wrapped>>, k: nat,
                  heap1: seq<Node>, rest1: seq<seq<Wrapped>>, k1: nat)
    requires Meeting(all, gone, heap, rest) && k < |heap| && heap[k].run < |rest|
    requires heap1 == Refilled(heap, rest, k) && rest1 == Pulled(heap, rest, k)
    requires k1 < |heap1| && heap1[k1].run < |rest1| && Cancels(heap[k].rec, heap1[k1].rec)
    ensures Meeting(all, gone + [heap[k].rec, heap1[k1].rec], Refilled(heap1, rest1, k1), Pulled(heap1, rest1, k1))
  {
    hide Refilled, Pulled;
    var v, w := heap[k].rec, heap1[k1].rec;
    RefillKeepsBag(heap, rest, k);
    RefillKeepsBag(heap1, rest1, k1);
    var m, m1 := Pending(heap, rest), Pending(heap1, rest1);
    var m2 := Pending(Refilled(heap1, rest1, k1), Pulled(heap1, rest1, k1));
    var more := multiset(gone + [v, w]);
    assert more == multiset(gone) + multiset{v, w};
    assert v in more && w in more;
    forall r | HasBoth(multiset(all), r) ensures HasKind(more, r, false) || HasBoth(m2, r) {
      if r != v.rec && !HasKind(multiset(gone), r, false) {
        forall kind ensures HasKind(m2, r, kind) {
          KindStays(m, m1, v, r, kind);
          KindStays(m1, m2, w, r, kind);
        }
      } else if r == v.rec {
        assert HasKind(more, r, false) by { assert if v.tombstone then w in more && !w.tombstone else v in more; }
      }
    }
  }

  /** With nothing pending everyone with both kinds has lost a pair. */
  lemma AllMet(all: seq<Wrapped>, out: seq<Wrapped>, gone: seq<Wrapped>)
    requires Pairs(gone) && multiset(all) == multiset(out) + multiset(gone)
    requires forall r :: HasBoth(multiset(all), r) ==> HasKind(multiset(gone), r, false)
    ensures PairedOff(all, out) && (gone == [] <==> forall r :: !BothKinds(all, r))
  {
    hide Pairs, HasKind;
    forall r
      ensures CountOf(out, r, false) <= CountOf(all, r, false)
      ensures CountOf(all, r, false) - CountOf(out, r, false) == CountOf(all, r, true) - CountOf(out, r, true)
      ensures CountOf(out, r, false) < CountOf(all, r, false) <==> BothKinds(all, r)
    {
      PairsCount(gone, r);
      forall kind ensures CountOf(all, r, kind) == CountOf(out, r, kind) + CountOf(gone, r, kind) {
        CountPermutation(all, out + gone, r, kind);
        CountConcat(out, gone, r, kind);
      }
      CountHas(all, r, false);
      CountHas(all, r, true);
      CountHas(gone, r, false);
    }
    if gone != [] {
      FirstPair(gone);
      assert CountOf(out, gone[0].rec, false) < CountOf(all, gone[0].rec, false) by {
        CountPermutation(all, out + gone, gone[0].rec, false);
        CountConcat(out, gone, gone[0].rec, false);
      }
      assert BothKinds(all, gone[0].rec);
    } else {
      forall r ensures !BothKinds(all, r) {
        CountPermutation(all, out, r, false);
      }
    }
  }

  lemma FirstPair(gone: seq<Wrapped>)
    requires Pairs(gone) && gone != []
    ensures CountOf(gone, gone[0].rec, false) > 0
  {
    assert gone[1..][0] == gone[1];
  }
}
