/** What a range scan must return, and the bookkeeping of a merging scan. */
module ScanOrder {
  import opened Records
  import opened MergeBag

  function Positive(n: int): nat {
    if n > 0 then n else 0
  }

  function Count(out: seq<Record>, r: Record): nat {
    if out == [] then 0 else (if out[0] == r then 1 else 0) + Count(out[1..], r)
  }

  ghost predicate SortedRecords(out: seq<Record>) {
    forall i, j :: 0 <= i < j < |out| ==> !Less(out[j], out[i])
  }

  /** `out` is the answer to a scan of the keys lo, ..., hi over the operations `ops`: every
      record in range, in order, as often as it was inserted more than erased. */
  ghost predicate IsScan(ops: seq<Wrapped>, lo: int, hi: int, out: seq<Record>) {
    && SortedRecords(out)
    && forall r :: Count(out, r) == if lo <= r.key <= hi && Net(ops, r) > 0 then Net(ops, r) else 0
  }

  lemma {:induction false} CountZero(out: seq<Record>, r: Record)
    ensures Count(out, r) > 0 <==> r in out
  {
    if out != [] {
      CountZero(out[1..], r);
    }
  }

  /** A sorted answer is determined by its counts. */
  lemma {:induction false} SameCountsSameAnswer(a: seq<Record>, b: seq<Record>)
    requires SortedRecords(a) && SortedRecords(b) && forall r :: Count(a, r) == Count(b, r)
    ensures a == b
  {
    var probe := if b == [] then Record(0, 0) else b[0];
    if a == [] {
      CountZero(b, probe);
      assert Count(b, probe) == Count(a, probe);
    } else {
      CountZero(a, a[0]);
      CountZero(b, a[0]);
      assert Count(a, a[0]) == Count(b, a[0]);
      CountZero(a, b[0]);
      CountZero(b, b[0]);
      assert Count(a, b[0]) == Count(b, b[0]);
      FirstIsLeast(a, b[0]);
      FirstIsLeast(b, a[0]);
      assert a[0] == b[0];
      forall r ensures Count(a[1..], r) == Count(b[1..], r) { assert Count(a, r) == Count(b, r); }
      SameCountsSameAnswer(a[1..], b[1..]);
    }
  }

  lemma FirstIsLeast(a: seq<Record>, r: Record)
    requires SortedRecords(a) && r in a
    ensures a != [] && !Less(r, a[0])
  {
    var i :| 0 <= i < |a| && a[i] == r;
  }

  /** The answer depends on the net counts only: whatever flushes and reconstructions did
      to the layout, the scan returns the same sequence. */
  lemma ScanDependsOnNet(ops: seq<Wrapped>, ops': seq<Wrapped>, lo: int, hi: int, a: seq<Record>, b: seq<Record>)
    requires SameNet(ops, ops') && IsScan(ops, lo, hi, a) && IsScan(ops', lo, hi, b)
    ensures a == b
  {
    forall r ensures Count(a, r) == Count(b, r) {
      assert Net(ops, r) == Net(ops', r);
      assert Count(a, r) == if lo <= r.key <= hi && Net(ops, r) > 0 then Net(ops, r) else 0;
    }
    SameCountsSameAnswer(a, b);
  }

  lemma {:induction false} CountConcat(a: seq<Record>, b: seq<Record>, r: Record)
    ensures Count(a + b, r) == Count(a, r) + Count(b, r)
  {
    if a == [] {
      assert a + b == b;
    } else {
      assert (a + b)[1..] == a[1..] + b;
      CountConcat(a[1..], b, r);
    }
  }

  function Repeat(r: Record, n: nat): (s: seq<Record>)
    ensures |s| == n && forall i :: 0 <= i < n ==> s[i] == r
  {
    seq(n, _ => r)
  }

  lemma {:induction false} CountRepeat(x: Record, n: nat, r: Record)
    ensures Count(Repeat(x, n), r) == if x == r then n else 0
  {
    if n > 0 {
      assert Repeat(x, n)[1..] == Repeat(x, n - 1);
      CountRepeat(x, n - 1, r);
    }
  }

  // ---------------------------------------------------------------------------
  // The pool of entries still to come
  // ---------------------------------------------------------------------------

  function PoolNet(heap: seq<Node>, rest: seq<seq<Wrapped>>, r: Record): int {
    Net(Recs(heap), r) + Net(Flatten(rest), r)
  }

  /** Taking one entry takes its weight. */
  lemma RefillNet(heap: seq<Node>, rest: seq<seq<Wrapped>>, k: nat, r: Record)
    requires k < |heap| && heap[k].run < |rest|
    ensures PoolNet(heap, rest, r) == PoolNet(Refilled(heap, rest, k), Pulled(heap, rest, k),
            r) + Weight(heap[k].rec, r)
  {
    hide Refilled, Pulled;
    RefillKeepsBag(heap, rest, k);
    var h, n, w := Refilled(heap, rest, k), Pulled(heap, rest, k), heap[k].rec;
    NetConcat(Recs(heap), Flatten(rest), r);
    NetConcat(Recs(h), Flatten(n), r);
    NetConcat(Recs(h) + Flatten(n), [w], r);
    NetPermutation(Recs(heap) + Flatten(rest), Recs(h) + Flatten(n) + [w], r);
  }

  lemma {:induction false} AbsentNet(s: seq<Wrapped>, r: Record)
    requires forall i :: 0 <= i < |s| ==> s[i].rec != r
    ensures Net(s, r) == 0
  {
    if s != [] {
      AbsentNet(s[1..], r);
    }
  }

  lemma {:induction false} AbsentRuns(rest: seq<seq<Wrapped>>, r: Record)
    requires forall i, j :: 0 <= i < |rest| && 0 <= j < |rest[i]| ==> rest[i][j].rec != r
    ensures Net(Flatten(rest), r) == 0
  {
    if rest != [] {
      AbsentNet(rest[0], r);
      AbsentRuns(rest[1..], r);
      NetConcat(rest[0], Flatten(rest[1..]), r);
    }
  }

  /** Everything still to come is larger than `r`. */
  ghost predicate Beyond(r: Record, heap: seq<Node>, rest: seq<seq<Wrapped>>) {
    && (forall k :: 0 <= k < |heap| ==> Less(r, heap[k].rec.rec))
    && (forall i :: 0 <= i < |rest| && rest[i] != [] ==> Less(r, rest[i][0].rec))
  }

  lemma BeyondNet(heap: seq<Node>, rest: seq<seq<Wrapped>>, x: Record, r: Record)
    requires Ordered(heap, rest) && Beyond(x, heap, rest) && !Less(x, r)
    ensures PoolNet(heap, rest, r) == 0
  {
    AbsentNet(Recs(heap), r);
    forall i, j | 0 <= i < |rest| && 0 <= j < |rest[i]|
      ensures rest[i][j].rec != r
    {
      assert j > 0 ==> !Less(rest[i][j].rec, rest[i][0].rec);
    }
    AbsentRuns(rest, r);
  }

  /** Once the top differs from a lower bound, everything is beyond that bound. */
  lemma TopBeyond(heap: seq<Node>, rest: seq<seq<Wrapped>>, r: Record, k: nat)
    requires Ordered(heap, rest) && IsTop(heap, k) && Least(Wrapped(r, false, false, 0), heap, rest)
             && heap[k].rec.rec != r
    ensures Beyond(r, heap, rest)
  {
    TopIsLeast(heap, rest, k);
    assert Less(r, heap[k].rec.rec);
  }

  lemma EmptyBeyond(rest: seq<seq<Wrapped>>, r: Record)
    requires Ordered([], rest)
    ensures Beyond(r, [], rest)
  {
  }

  /** The state of a scan between two groups of equal records: up to `last` the answer is
      `shown`; beyond it nothing has been touched. */
  ghost predicate Scanned(all: seq<Wrapped>, heap: seq<Node>, rest: seq<seq<Wrapped>>, last: Option<Record>,
        shown: seq<Record>) {
    && Ordered(heap, rest) && SortedRecords(shown)
    && (last.Some? ==> Beyond(last.value, heap, rest))
    && (last.None? ==> shown == [])
    && (forall i :: 0 <= i < |shown| ==> last.Some? && !Less(last.value, shown[i]))
    && (forall r :: last.Some? && !Less(last.value, r) ==> Count(shown, r) == Positive(Net(all, r)))
    && (forall r :: last.None? || Less(last.value, r) ==> PoolNet(heap, rest, r) == Net(all, r))
  }

  /** In the middle of a group: `live` is what the entries taken so far add up to. */
  ghost predicate InGroup(heap0: seq<Node>, rest0: seq<seq<Wrapped>>, heap: seq<Node>, rest: seq<seq<Wrapped>>,
        rec: Record, live: int) {
    && Ordered(heap, rest) && Least(Wrapped(rec, false, false, 0), heap, rest)
    && forall r :: PoolNet(heap0, rest0, r) == PoolNet(heap, rest, r) + (if r == rec then live else 0)
  }

  lemma GroupStarts(heap: seq<Node>, rest: seq<seq<Wrapped>>, k: nat)
    requires Ordered(heap, rest) && IsTop(heap, k)
    ensures InGroup(heap, rest, heap, rest, heap[k].rec.rec, 0)
  {
    TopIsLeast(heap, rest, k);
  }

  lemma GroupStep(heap0: seq<Node>, rest0: seq<seq<Wrapped>>, heap: seq<Node>, rest: seq<seq<Wrapped>>, rec: Record,
        live: int, k: nat)
    requires InGroup(heap0, rest0, heap, rest, rec, live) && k < |heap| && heap[k].rec.rec == rec
             && heap[k].run < |rest|
    ensures InGroup(heap0, rest0, Refilled(heap, rest, k), Pulled(heap, rest, k), rec, live + Weight(heap[k].rec, rec))
  {
    hide Refilled, Pulled, PoolNet, Ordered;
    RefillKeepsOrder(heap, rest, k, Wrapped(rec, false, false, 0));
    forall r
      ensures PoolNet(heap0, rest0, r)
           == PoolNet(Refilled(heap, rest, k), Pulled(heap, rest, k), r) + (if r
               == rec then live + Weight(heap[k].rec, rec) else 0)
    {
      RefillNet(heap, rest, k, r);
    }
  }

  lemma SortedExtends(shown: seq<Record>, rec: Record, n: nat)
    requires SortedRecords(shown) && forall i :: 0 <= i < |shown| ==> !Less(rec, shown[i])
    ensures SortedRecords(shown + Repeat(rec, n))
    ensures forall i :: 0 <= i < |shown + Repeat(rec, n)| ==> !Less(rec, (shown + Repeat(rec, n))[i])
  {
  }

  /** A finished group extends the answer by its record, as often as it is live. */
  lemma GroupDone(all: seq<Wrapped>, heap0: seq<Node>, rest0: seq<seq<Wrapped>>, heap: seq<Node>,
        rest: seq<seq<Wrapped>>,
                  last: Option<Record>, shown: seq<Record>, rec: Record, live: int)
    requires Scanned(all, heap0, rest0, last, shown) && InGroup(heap0, rest0, heap, rest, rec, live)
    requires Beyond(rec, heap, rest) && (last.Some? ==> Less(last.value, rec))
    ensures Scanned(all, heap, rest, Some(rec), shown + Repeat(rec, Positive(live)))
  {
    hide PoolNet, Ordered, Beyond, Least;
    var shown' := shown + Repeat(rec, Positive(live));
    SortedExtends(shown, rec, Positive(live));
    forall r | !Less(rec, r)
      ensures Count(shown', r) == Positive(Net(all, r))
    {
      GroupCounts(all, heap0, rest0, heap, rest, last, shown, rec, live, r);
    }
    forall r | Less(rec, r)
      ensures PoolNet(heap, rest, r) == Net(all, r)
    {
      assert PoolNet(heap0, rest0, r) == PoolNet(heap, rest, r) + (if r == rec then live else 0);
    }
  }

  lemma GroupCounts(all: seq<Wrapped>, heap0: seq<Node>, rest0: seq<seq<Wrapped>>, heap: seq<Node>,
        rest: seq<seq<Wrapped>>,
                    last: Option<Record>, shown: seq<Record>, rec: Record, live: int, r: Record)
    requires Scanned(all, heap0, rest0, last, shown) && InGroup(heap0, rest0, heap, rest, rec, live)
    requires Beyond(rec, heap, rest) && (last.Some? ==> Less(last.value, rec)) && !Less(rec, r)
    ensures Count(shown + Repeat(rec, Positive(live)), r) == Positive(Net(all, r))
  {
    hide PoolNet;
    CountConcat(shown, Repeat(rec, Positive(live)), r);
    CountRepeat(rec, Positive(live), r);
    BeyondNet(heap, rest, rec, r);
    assert PoolNet(heap0, rest0, r) == PoolNet(heap, rest, r) + (if r == rec then live else 0);
    if last.None? || Less(last.value, r) {
      CountZero(shown, r);
    }
  }

  /** With nothing left to come the answer is complete. */
  lemma ScanComplete(all: seq<Wrapped>, rest: seq<seq<Wrapped>>, last: Option<Record>, shown: seq<Record>, r: Record)
    requires Scanned(all, [], rest, last, shown)
    ensures Count(shown, r) == Positive(Net(all, r))
  {
    if last.None? || Less(last.value, r) {
      EmptyBeyond(rest, r);
      BeyondNet([], rest, r, r);
      CountZero(shown, r);
    }
  }
}
