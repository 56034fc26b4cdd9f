/** Which inserts and tombstones of a record leave an in-memory merge together: its queue has one
    entry of each array, and shows the two on top before it refills. */
module MergeQueue {
  import opened Records
  import opened MergeBag
  import opened ExternalMerge

  /** The queue's order: by record, then by header. */
  ghost predicate IsMin(heap: seq<Node>, k: nat) {
    k < |heap| && forall j :: 0 <= j < |heap| ==> !WrappedLess(heap[j].rec, heap[k].rec)
  }

  lemma StillMerging(all: seq<Wrapped>, out: seq<Wrapped>, gone: seq<Wrapped>, heap: seq<Node>, rest: seq<seq<Wrapped>>)
    requires Merging(all, out, gone, heap, rest)
    ensures Ordered(heap, rest)
  {
  }

  /** No run has both inserts and tombstones of r. */
  ghost predicate OneKindPerRun(runs: seq<seq<Wrapped>>, r: Record) {
    forall i, a, b :: 0 <= i < |runs| && 0 <= a < |runs[i]| && 0 <= b < |runs[i]| ==>
      runs[i][a].rec == r && runs[i][b].rec == r ==> runs[i][a].tombstone == runs[i][b].tombstone
  }

  /** All entries of r are in the same run. */
  ghost predicate InOneRun(runs: seq<seq<Wrapped>>, r: Record) {
    forall i, a, j, b :: 0 <= i < |runs| && 0 <= a < |runs[i]| && 0 <= j < |runs| && 0 <= b < |runs[j]| ==>
      runs[i][a].rec == r && runs[j][b].rec == r ==> i == j
  }

  /** Every insert of r comes before every tombstone of r in the queue's order, or after. */
  ghost predicate InsertsFirst(m: multiset<Wrapped>, r: Record) {
    forall v, w :: v in m && w in m && v.rec == r && w.rec == r && !v.tombstone && w.tombstone ==> Header(v) < Header(w)
  }

  ghost predicate TombstonesFirst(m: multiset<Wrapped>, r: Record) {
    forall v, w :: v in m && w in m && v.rec == r && w.rec == r && !v.tombstone && w.tombstone ==> Header(w) < Header(v)
  }

  /** Such a record loses a pair, if it has one. */
  ghost predicate MustMeet(runs: seq<seq<Wrapped>>, r: Record) {
    OneKindPerRun(runs, r) && InsertsFirst(multiset(Flatten(runs)), r)
  }

  /** Such a record loses none: the queue never shows two entries of one run, and a pair leaves
      with its insert first. */
  ghost predicate CannotMeet(runs: seq<seq<Wrapped>>, r: Record) {
    InOneRun(runs, r) || TombstonesFirst(multiset(Flatten(runs)), r)
  }

  ghost predicate PairedInQueue(runs: seq<seq<Wrapped>>, taken: seq<Wrapped>) {
    var all := Flatten(runs);
    forall r ::
      && CountOf(taken, r, false) <= CountOf(all, r, false)
      && CountOf(all, r, false) - CountOf(taken, r, false) == CountOf(all, r, true) - CountOf(taken, r, true)
      && (CountOf(taken, r, false) < CountOf(all, r, false) ==> BothKinds(all, r) && !CannotMeet(runs, r))
      && (BothKinds(all, r) && MustMeet(runs, r) ==> CountOf(taken, r, false) < CountOf(all, r, false))
  }

  /** The only entries of their record. */
  ghost predicate OnlyPair(runs: seq<seq<Wrapped>>, i: nat, a: nat, j: nat, b: nat) {
    && i < |runs| && a < |runs[i]| && j < |runs| && b < |runs[j]|
    && runs[i][a].rec == runs[j][b].rec && !runs[i][a].tombstone && runs[j][b].tombstone
    && forall k, c :: 0 <= k < |runs| && 0 <= c < |runs[k]| ==>
         runs[k][c].rec == runs[i][a].rec ==>
           if runs[k][c].tombstone then k == j && c == b else k == i && c == a
  }

  /** A single insert and a single tombstone of a record leave if and only if they come from
      different runs and the insert is first. */
  lemma SinglePairMeetsIff(runs: seq<seq<Wrapped>>, taken: seq<Wrapped>, i: nat, a: nat, j: nat, b: nat)
    requires PairedInQueue(runs, taken) && OnlyPair(runs, i, a, j, b)
    ensures var r := runs[i][a].rec;
            CountOf(taken, r, false) < CountOf(Flatten(runs), r, false)
            <==> i != j && Header(runs[i][a]) < Header(runs[j][b])
  {
    var r, v, w := runs[i][a].rec, runs[i][a], runs[j][b];
    InFlattened(runs, i, a);
    InFlattened(runs, j, b);
    CountHas(Flatten(runs), r, false);
    CountHas(Flatten(runs), r, true);
    SinglePairMeets(runs, i, a, j, b);
    hide Header, CountOf, Flatten, MustMeet, CannotMeet, OnlyPair;
    assert HasBoth(multiset(Flatten(runs)), r);
  }

  lemma SinglePairMeets(runs: seq<seq<Wrapped>>, i: nat, a: nat, j: nat, b: nat)
    requires OnlyPair(runs, i, a, j, b)
    ensures var r := runs[i][a].rec;
            if i != j && Header(runs[i][a]) < Header(runs[j][b]) then MustMeet(runs, r) else CannotMeet(runs, r)
  {
    var r, v, w := runs[i][a].rec, runs[i][a], runs[j][b];
    OnlyTwo(runs, r, v, w);
    HeadersDiffer(v, w);
    hide Header, Flatten;
    if i == j {
      assert InOneRun(runs, r);
    } else {
      assert OneKindPerRun(runs, r);
    }
  }

  /** Entries by position and by value. */
  lemma OnlyTwo(runs: seq<seq<Wrapped>>, r: Record, v: Wrapped, w: Wrapped)
    requires forall k: nat, c: nat :: k < |runs| && c < |runs[k]| && runs[k][c].rec == r ==>
               runs[k][c] == if runs[k][c].tombstone then w else v
    ensures forall x :: x in multiset(Flatten(runs)) && x.rec == r ==> x == if x.tombstone then w else v
  {
    forall x | x in multiset(Flatten(runs)) && x.rec == r ensures x == if x.tombstone then w else v {
      var k, c := InFlatten(runs, x);
    }
  }

  lemma HeadersDiffer(v: Wrapped, w: Wrapped)
    requires !v.tombstone && w.tombstone
    ensures Header(v) != Header(w)
  {
    var a, b := (if v.deleted then 1 else 0) + 2 * v.stamp, (if w.deleted then 1 else 0) + 2 * w.stamp;
    assert Header(v) == 2 * a && Header(w) == 2 * b + 1;
  }

  lemma {:induction false} InFlattened(runs: seq<seq<Wrapped>>, i: nat, a: nat)
    requires i < |runs| && a < |runs[i]|
    ensures runs[i][a] in multiset(Flatten(runs))
  {
    if i > 0 {
      InFlattened(runs[1..], i - 1, a);
      assert runs[1..][i - 1][a] == runs[i][a];
    }
    assert multiset(Flatten(runs)) == multiset(runs[0]) + multiset(Flatten(runs[1..]));
  }

  /** Where what is pending comes from; the queue has at most one entry of each run. */
  ghost predicate From(runs: seq<seq<Wrapped>>, heap: seq<Node>, rest: seq<seq<Wrapped>>) {
    && |rest| == |runs|
    && (forall k :: 0 <= k < |heap| ==> heap[k].run < |runs| && heap[k].rec in runs[heap[k].run])
    && (forall i, a :: 0 <= i < |rest| && 0 <= a < |rest[i]| ==> rest[i][a] in runs[i])
    && (forall k, l :: 0 <= k < l < |heap| ==> heap[k].run != heap[l].run)
  }

  lemma FromRefill(runs: seq<seq<Wrapped>>, heap: seq<Node>, rest: seq<seq<Wrapped>>, k: nat)
    requires From(runs, heap, rest) && k < |heap|
    ensures From(runs, Refilled(heap, rest, k), Pulled(heap, rest, k))
  {
    var h, p := Refilled(heap, rest, k), Pulled(heap, rest, k);
    var i := heap[k].run;
    forall l, a | 0 <= l < |p| && 0 <= a < |p[l]| ensures p[l][a] in runs[l] {
      assert p[l][a] == if l == i then rest[l][a + 1] else rest[l][a];
    }
  }

  lemma FromStart(runs: seq<seq<Wrapped>>)
    requires forall i :: 0 <= i < |runs| ==> runs[i] != []
    ensures From(runs, Heads(runs), Tails(runs))
  {
  }

  /** The entry in the queue that something pending waits behind, or is. */
  lemma PendingHead(heap: seq<Node>, rest: seq<seq<Wrapped>>, w: Wrapped) returns (k: nat)
    requires Ordered(heap, rest) && w in Pending(heap, rest)
    ensures k < |heap| && !Less(w.rec, heap[k].rec.rec)
    ensures heap[k].rec == w || (heap[k].run < |rest| && w in rest[heap[k].run])
  {
    if w in multiset(Recs(heap)) {
      var j :| 0 <= j < |Recs(heap)| && Recs(heap)[j] == w;
      k := j;
    } else {
      var i, j := InFlatten(rest, w);
      assert Covered(heap, i, rest[i][0]);
      k :| k < |heap| && heap[k].run == i && !Less(rest[i][0].rec, heap[k].rec.rec);
      assert j > 0 ==> !Less(rest[i][j].rec, rest[i][0].rec);
    }
  }

  /** With the queue's minimum on record r, its entry in the queue is of record r, too, and of
      its kind. */
  lemma HeadOfKind(runs: seq<seq<Wrapped>>, heap: seq<Node>, rest: seq<seq<Wrapped>>, k: nat, w: Wrapped)
      returns (h: nat)
    requires Ordered(heap, rest) && From(runs, heap, rest) && IsMin(heap, k)
    requires OneKindPerRun(runs, heap[k].rec.rec) && w in Pending(heap, rest) && w.rec == heap[k].rec.rec
    ensures h < |heap| && heap[h].rec.rec == w.rec && heap[h].rec.tombstone == w.tombstone
  {
    h := PendingHead(heap, rest, w);
    assert !WrappedLess(heap[h].rec, heap[k].rec);
    if heap[h].rec != w {
      var i := heap[h].run;
      var c :| 0 <= c < |rest[i]| && rest[i][c] == w;
      assert w in runs[i] && heap[h].rec in runs[i];
      var a :| 0 <= a < |runs[i]| && runs[i][a] == w;
      var b :| 0 <= b < |runs[i]| && runs[i][b] == heap[h].rec;
    }
  }

  lemma NowIsInsert(runs: seq<seq<Wrapped>>, m: multiset<Wrapped>, heap: seq<Node>, rest: seq<seq<Wrapped>>, k: nat)
    requires Ordered(heap, rest) && From(runs, heap, rest) && IsMin(heap, k)
    requires OneKindPerRun(runs, heap[k].rec.rec) && InsertsFirst(m, heap[k].rec.rec) && Pending(heap, rest) <= m
    requires HasKind(Pending(heap, rest), heap[k].rec.rec, false)
    ensures !heap[k].rec.tombstone
  {
    hide Ordered, From, OneKindPerRun, Header;
    var v :| v in Pending(heap, rest) && v.rec == heap[k].rec.rec && v.tombstone == false;
    var h := HeadOfKind(runs, heap, rest, k, v);
    InPending(heap, rest, h);
    InPending(heap, rest, k);
    assert !WrappedLess(heap[h].rec, heap[k].rec);
  }

  lemma InPending(heap: seq<Node>, rest: seq<seq<Wrapped>>, k: nat)
    requires k < |heap|
    ensures heap[k].rec in Pending(heap, rest)
  {
    assert Recs(heap)[k] == heap[k].rec;
  }

  lemma OtherStays(heap: seq<Node>, k: nat, h: nat) returns (l: nat)
    requires k < |heap| && h < |heap| && h != k
    ensures l < |Without(heap, k)| && Without(heap, k)[l] == heap[h]
  {
    l := if h < k then h else h - 1;
  }

  /** The pass takes the two entries on top together. */
  predicate Leaves(heap: seq<Node>, k: nat, k1: nat)
    requires k < |heap|
  {
    && !heap[k].rec.tombstone && k1 < |Without(heap, k)|
    && heap[k].rec.rec == Without(heap, k)[k1].rec.rec && Without(heap, k)[k1].rec.tombstone
  }

  /** If it takes one alone, its record keeps both kinds. */
  lemma AloneKeepsBoth(runs: seq<seq<Wrapped>>, heap: seq<Node>, rest: seq<seq<Wrapped>>, k: nat, k1: nat, r: Record)
    requires Ordered(heap, rest) && From(runs, heap, rest) && IsMin(heap, k) && heap[k].run < |rest|
    requires |heap| > 1 ==> IsMin(Without(heap, k), k1)
    requires !Leaves(heap, k, k1) && Pending(heap, rest) <= multiset(Flatten(runs))
    requires MustMeet(runs, r) && HasBoth(Pending(heap, rest), r)
    ensures HasBoth(Pending(Refilled(heap, rest, k), Pulled(heap, rest, k)), r)
  {
    hide Refilled, Pulled, Ordered, From, OneKindPerRun, InsertsFirst, HasKind, Header, Flatten;
    var now := heap[k].rec;
    var m, m1 := Pending(heap, rest), Pending(Refilled(heap, rest, k), Pulled(heap, rest, k));
    RefillKeepsBag(heap, rest, k);
    if now.rec != r {
      KindStays(m, m1, now, r, false);
      KindStays(m, m1, now, r, true);
    } else {
      NowIsInsert(runs, multiset(Flatten(runs)), heap, rest, k);
      KindStays(m, m1, now, r, true);
      InsertStays(runs, heap, rest, k, k1, m1);
    }
  }

  lemma InsertStays(runs: seq<seq<Wrapped>>, heap: seq<Node>, rest: seq<seq<Wrapped>>, k: nat, k1: nat,
                    m1: multiset<Wrapped>)
    requires Ordered(heap, rest) && From(runs, heap, rest) && IsMin(heap, k)
    requires |heap| > 1 ==> IsMin(Without(heap, k), k1)
    requires !heap[k].rec.tombstone && !Leaves(heap, k, k1) && OneKindPerRun(runs, heap[k].rec.rec)
    requires Pending(heap, rest) == m1 + multiset{heap[k].rec} && HasKind(Pending(heap, rest), heap[k].rec.rec, true)
    ensures HasKind(m1, heap[k].rec.rec, false)
  {
    hide Ordered, From, OneKindPerRun, Header;
    var now := heap[k].rec;
    var w :| w in Pending(heap, rest) && w.rec == now.rec && w.tombstone == true;
    var h := HeadOfKind(runs, heap, rest, k, w);
    var l := OtherStays(heap, k, h);
    var next := Without(heap, k)[k1].rec;
    assert !WrappedLess(heap[h].rec, next);
    NextPending(heap, rest, k, k1, m1);
    assert next.rec == now.rec;
  }

  lemma NextPending(heap: seq<Node>, rest: seq<seq<Wrapped>>, k: nat, k1: nat, m1: multiset<Wrapped>)
    requires k < |heap| && k1 < |Without(heap, k)| && Pending(heap, rest) == m1 + multiset{heap[k].rec}
    requires IsMin(heap, k)
    ensures Without(heap, k)[k1].rec in m1 && !WrappedLess(Without(heap, k)[k1].rec, heap[k].rec)
  {
    WithoutBag(heap, k);
    assert Recs(Without(heap, k))[k1] == Without(heap, k)[k1].rec;
    assert Without(heap, k)[k1] == heap[if k1 < k then k1 else k1 + 1];
    var others := multiset(Recs(Without(heap, k))) + multiset(Flatten(rest));
    assert m1 == (m1 + multiset{heap[k].rec}) - multiset{heap[k].rec};
    assert others == (others + multiset{heap[k].rec}) - multiset{heap[k].rec};
  }

  /** Two that leave together are of different runs, the insert first. */
  lemma LeavingMeets(runs: seq<seq<Wrapped>>, heap: seq<Node>, rest: seq<seq<Wrapped>>, k: nat, k1: nat)
    requires From(runs, heap, rest) && IsMin(heap, k) && Leaves(heap, k, k1)
    requires Pending(heap, rest) <= multiset(Flatten(runs))
    ensures !CannotMeet(runs, heap[k].rec.rec)
  {
    hide Header, Flatten;
    var h := if k1 < k then k1 else k1 + 1;
    assert Without(heap, k)[k1] == heap[h];
    InPending(heap, rest, h);
    InPending(heap, rest, k);
    var i, j := heap[k].run, heap[h].run;
    assert i != j && heap[k].rec in runs[i] && heap[h].rec in runs[j];
    var a :| 0 <= a < |runs[i]| && runs[i][a] == heap[k].rec;
    var b :| 0 <= b < |runs[j]| && runs[j][b] == heap[h].rec;
    assert !WrappedLess(heap[h].rec, heap[k].rec);
  }

  /** Who must lose a pair has both kinds ahead or has lost one, and who cannot has not. */
  ghost predicate Queueing(runs: seq<seq<Wrapped>>, gone: seq<Wrapped>, heap: seq<Node>, rest: seq<seq<Wrapped>>) {
    && From(runs, heap, rest)
    && (forall r :: MustMeet(runs, r) && HasBoth(multiset(Flatten(runs)), r) ==>
          HasKind(multiset(gone), r, false) || HasBoth(Pending(heap, rest), r))
    && (forall r :: CannotMeet(runs, r) ==> !HasKind(multiset(gone), r, false))
  }

  lemma QueueStarts(runs: seq<seq<Wrapped>>)
    requires forall i :: 0 <= i < |runs| ==> runs[i] != []
    ensures Queueing(runs, [], Heads(runs), Tails(runs))
  {
    hide MustMeet, CannotMeet;
    FromStart(runs);
    HeadsAndTails(runs);
  }

  lemma PendingInAll(runs: seq<seq<Wrapped>>, taken: seq<Wrapped>, gone: seq<Wrapped>, heap: seq<Node>,
                     rest: seq<seq<Wrapped>>)
    requires Merging(Flatten(runs), taken, gone, heap, rest)
    ensures Pending(heap, rest) <= multiset(Flatten(runs))
  {
  }

  lemma OneQueued(runs: seq<seq<Wrapped>>, taken: seq<Wrapped>, gone: seq<Wrapped>, heap: seq<Node>,
                  rest: seq<seq<Wrapped>>, k: nat, k1: nat)
    requires Merging(Flatten(runs), taken, gone, heap, rest) && Queueing(runs, gone, heap, rest) && IsMin(heap, k)
    requires |heap| > 1 ==> IsMin(Without(heap, k), k1)
    requires !Leaves(heap, k, k1)
    ensures k < |heap| && heap[k].run < |rest|
    ensures Queueing(runs, gone, Refilled(heap, rest, k), Pulled(heap, rest, k))
  {
    StillMerging(Flatten(runs), taken, gone, heap, rest);
    PendingInAll(runs, taken, gone, heap, rest);
    FromRefill(runs, heap, rest, k);
    hide Merging, Ordered, MustMeet, CannotMeet, Refilled, Pulled, Leaves, Flatten, IsMin, HasKind;
    forall r | MustMeet(runs, r) && HasBoth(Pending(heap, rest), r)
      ensures HasBoth(Pending(Refilled(heap, rest, k), Pulled(heap, rest, k)), r)
    {
      AloneKeepsBoth(runs, heap, rest, k, k1, r);
    }
  }

  lemma TwoQueued(runs: seq<seq<Wrapped>>, taken: seq<Wrapped>, gone: seq<Wrapped>, heap: seq<Node>,
                  rest: seq<seq<Wrapped>>, k: nat, heap1: seq<Node>, rest1: seq<seq<Wrapped>>, k1: nat)
    requires Merging(Flatten(runs), taken, gone, heap, rest) && Queueing(runs, gone, heap, rest) && IsMin(heap, k)
    requires Leaves(heap, k, k1) && heap[k].run < |rest|
    requires heap1 == Refilled(heap, rest, k) && rest1 == Pulled(heap, rest, k)
    requires k1 < |heap1| && heap1[k1] == Without(heap, k)[k1] && heap1[k1].run < |rest1|
    ensures Queueing(runs, gone + [heap[k].rec, heap1[k1].rec], Refilled(heap1, rest1, k1), Pulled(heap1, rest1, k1))
  {
    PendingInAll(runs, taken, gone, heap, rest);
    LeavingMeets(runs, heap, rest, k, k1);
    FromRefill(runs, heap, rest, k);
    FromRefill(runs, heap1, rest1, k1);
    RefillKeepsBag(heap, rest, k);
    RefillKeepsBag(heap1, rest1, k1);
    PairLeft(runs, gone, heap[k].rec, heap1[k1].rec, Pending(heap, rest), Pending(heap1, rest1),
      Pending(Refilled(heap1, rest1, k1), Pulled(heap1, rest1, k1)));
  }

  lemma PairLeft(runs: seq<seq<Wrapped>>, gone: seq<Wrapped>, v: Wrapped, w: Wrapped, m: multiset<Wrapped>,
                 m1: multiset<Wrapped>, m2: multiset<Wrapped>)
    requires Cancels(v, w) && !v.tombstone && m == m1 + multiset{v} && m1 == m2 + multiset{w}
    requires !CannotMeet(runs, v.rec)
    requires forall r :: MustMeet(runs, r) && HasBoth(multiset(Flatten(runs)), r) ==>
               HasKind(multiset(gone), r, false) || HasBoth(m, r)
    requires forall r :: CannotMeet(runs, r) ==> !HasKind(multiset(gone), r, false)
    ensures forall r :: MustMeet(runs, r) && HasBoth(multiset(Flatten(runs)), r) ==>
              HasKind(multiset(gone + [v, w]), r, false) || HasBoth(m2, r)
    ensures forall r :: CannotMeet(runs, r) ==> !HasKind(multiset(gone + [v, w]), r, false)
  {
    hide MustMeet, CannotMeet, Flatten;
    var more := multiset(gone + [v, w]);
    assert more == multiset(gone) + multiset{v, w};
    assert v in more;
    forall r | HasBoth(m, r) && r != v.rec ensures HasBoth(m2, r) {
      forall kind ensures HasKind(m2, r, kind) {
        KindStays(m, m1, v, r, kind);
        KindStays(m1, m2, w, r, kind);
      }
    }
    forall r | CannotMeet(runs, r) ensures !HasKind(more, r, false) {
      assert !HasKind(multiset(gone), r, false);
      assert r != v.rec;
    }
  }

  /** One iteration, with one entry taken or two. */
  lemma OneTaken(runs: seq<seq<Wrapped>>, taken: seq<Wrapped>, gone: seq<Wrapped>, heap: seq<Node>,
                 rest: seq<seq<Wrapped>>, k: nat, k1: nat)
    requires Merging(Flatten(runs), taken, gone, heap, rest) && Queueing(runs, gone, heap, rest)
    requires IsMin(heap, k) && IsTop(heap, k) && !Leaves(heap, k, k1)
    requires |heap| > 1 ==> IsMin(Without(heap, k), k1)
    ensures heap[k].run < |rest| && Queueing(runs, gone, Refilled(heap, rest, k), Pulled(heap, rest, k))
    ensures Merging(Flatten(runs), taken + [heap[k].rec], gone, Refilled(heap, rest, k), Pulled(heap, rest, k))
  {
    hide Merging, Queueing, Refilled, Pulled, Flatten, Leaves;
    OneQueued(runs, taken, gone, heap, rest, k, k1);
    Written(Flatten(runs), taken, gone, heap, rest, k);
  }

  lemma TwoTaken(runs: seq<seq<Wrapped>>, taken: seq<Wrapped>, gone: seq<Wrapped>, heap: seq<Node>,
                 rest: seq<seq<Wrapped>>, k: nat, heap1: seq<Node>, rest1: seq<seq<Wrapped>>, k1: nat)
    requires Merging(Flatten(runs), taken, gone, heap, rest) && Queueing(runs, gone, heap, rest)
    requires IsMin(heap, k) && IsTop(heap, k) && Leaves(heap, k, k1) && heap[k].run < |rest|
    requires heap1 == Refilled(heap, rest, k) && rest1 == Pulled(heap, rest, k)
    requires k1 < |heap1| && heap1[k1] == Without(heap, k)[k1] && heap1[k1].run < |rest1|
    ensures var gone' := gone + [heap[k].rec, heap1[k1].rec];
            var heap', rest' := Refilled(heap1, rest1, k1), Pulled(heap1, rest1, k1);
            Merging(Flatten(runs), taken, gone', heap', rest') && Queueing(runs, gone', heap', rest')
  {
    hide Merging, Queueing, Refilled, Pulled, Flatten, Ordered;
    StillMerging(Flatten(runs), taken, gone, heap, rest);
    TwoQueued(runs, taken, gone, heap, rest, k, heap1, rest1, k1);
    Cancelled(Flatten(runs), taken, gone, heap, rest, k, heap1, rest1, k1);
  }

  lemma QueueEnds(runs: seq<seq<Wrapped>>, taken: seq<Wrapped>, gone: seq<Wrapped>, rest: seq<seq<Wrapped>>)
    requires Merging(Flatten(runs), taken, gone, [], rest) && Queueing(runs, gone, [], rest)
    ensures PairedInQueue(runs, taken)
  {
    var all := Flatten(runs);
    UsedUp(all, taken, gone, rest);
    StillMerging(all, taken, gone, [], rest);
    hide Merging, Ordered, MustMeet, CannotMeet, Flatten, HasKind, From, Pairs, CountOf;
    forall r ensures !HasBoth(Pending([], rest), r) { NoneLeft(rest, r); }
    forall r
      ensures CountOf(taken, r, false) <= CountOf(all, r, false)
      ensures CountOf(all, r, false) - CountOf(taken, r, false) == CountOf(all, r, true) - CountOf(taken, r, true)
      ensures CountOf(taken, r, false) < CountOf(all, r, false) ==> BothKinds(all, r) && !CannotMeet(runs, r)
      ensures BothKinds(all, r) && MustMeet(runs, r) ==> CountOf(taken, r, false) < CountOf(all, r, false)
    {
      Counted(all, taken, gone, r);
    }
  }

  lemma Counted(all: seq<Wrapped>, taken: seq<Wrapped>, gone: seq<Wrapped>, r: Record)
    requires Pairs(gone) && multiset(all) == multiset(taken) + multiset(gone)
    ensures CountOf(taken, r, false) <= CountOf(all, r, false)
    ensures CountOf(all, r, false) - CountOf(taken, r, false) == CountOf(all, r, true) - CountOf(taken, r, true)
    ensures CountOf(taken, r, false) < CountOf(all, r, false) <==> HasKind(multiset(gone), r, false)
    ensures CountOf(taken, r, false) < CountOf(all, r, false) ==> BothKinds(all, r)
    ensures BothKinds(all, r) <==> HasBoth(multiset(all), r)
  {
    hide Pairs, CountOf, HasKind;
    PairsCount(gone, r);
    forall kind ensures CountOf(all, r, kind) == CountOf(taken, r, kind) + CountOf(gone, r, kind) {
      CountPermutation(all, taken + gone, r, kind);
      CountConcat(taken, gone, r, kind);
    }
    CountHas(all, r, false);
    CountHas(all, r, true);
    CountHas(gone, r, false);
  }

  lemma NoneLeft(rest: seq<seq<Wrapped>>, r: Record)
    requires Ordered([], rest)
    ensures !HasBoth(Pending([], rest), r)
  {
    if HasBoth(Pending([], rest), r) {
      var w :| w in Pending([], rest) && w.rec == r && w.tombstone == false;
      PendingHasTop([], rest, w);
    }
  }
}
