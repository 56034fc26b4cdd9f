/** The range scan: one heap over the buffer and an iterator per shard, which adds up the
    inserts and tombstones of each record before showing it. */
module RangeScan {
  import opened Records
  import opened MergeBag
  import opened ScanOrder
  import opened ExternalISAMTrees

  /** The leading records with a key of at most `hi`. */
  function UpTo(s: seq<Wrapped>, hi: int): seq<Wrapped> {
    if s == [] || s[0].rec.key > hi then [] else [s[0]] + UpTo(s[1..], hi)
  }

  lemma {:induction false} UpToSorted(s: seq<Wrapped>, hi: int)
    requires Sorted(s)
    ensures |UpTo(s, hi)| <= |s| && UpTo(s, hi) == s[..|UpTo(s, hi)|] && Sorted(UpTo(s, hi))
  {
    if s != [] && s[0].rec.key <= hi {
      UpToSorted(s[1..], hi);
      assert s == [s[0]] + s[1..];
    }
  }

  /** In a sorted run the records in range are those that the iterator is asked for. */
  lemma {:induction false} RangeNet(s: seq<Wrapped>, lo: int, hi: int, r: Record)
    requires Sorted(s)
    ensures Net(UpTo(KeysFrom(s, lo), hi), r) == if lo <= r.key <= hi then Net(s, r) else 0
  {
    if s != [] {
      var rest := s[1..];
      RangeNet(rest, lo, hi, r);
      if s[0].rec.key >= lo {
        AllAbove(rest, lo, s[0]);
        assert KeysFrom(s, lo)[1..] == KeysFrom(rest, lo);
        if s[0].rec.key > hi {
          NetAbove(s, hi, r);
        }
      }
    }
  }

  lemma {:induction false} AllAbove(s: seq<Wrapped>, lo: int, w: Wrapped)
    requires w.rec.key >= lo && forall i :: 0 <= i < |s| ==> !Less(s[i].rec, w.rec)
    ensures KeysFrom(s, lo) == s
  {
    if s != [] {
      AllAbove(s[1..], lo, w);
      assert s == [s[0]] + s[1..];
    }
  }

  lemma NetAbove(s: seq<Wrapped>, hi: int, r: Record)
    requires Sorted(s) && s != [] && s[0].rec.key > hi
    ensures r.key <= hi ==> Net(s, r) == 0
  {
    if r.key <= hi {
      forall i | 0 <= i < |s| ensures s[i].rec != r { assert i > 0 ==> !Less(s[i].rec, s[0].rec); }
      AbsentNet(s, r);
    }
  }

  function InRange(s: seq<Wrapped>, lo: int, hi: int): seq<Wrapped> {
    if s == [] then []
    else
      var n := |s| - 1;
      InRange(s[..n], lo, hi) + if lo <= s[n].rec.key <= hi then [s[n]] else []
  }

  lemma {:induction false} InRangeNet(s: seq<Wrapped>, lo: int, hi: int, r: Record)
    ensures Net(InRange(s, lo, hi), r) == if lo <= r.key <= hi then Net(s, r) else 0
  {
    if s != [] {
      var n := |s| - 1;
      InRangeNet(s[..n], lo, hi, r);
      assert s == s[..n] + [s[n]];
      NetSnoc(s[..n], s[n], r);
      if lo <= s[n].rec.key <= hi {
        NetSnoc(InRange(s[..n], lo, hi), s[n], r);
      } else {
        assert InRange(s, lo, hi) == InRange(s[..n], lo, hi);
      }
    }
  }

  /** The buffer's records in range. */
  method Filter(buffer: seq<Wrapped>, lo: int, hi: int) returns (out: seq<Wrapped>)
    ensures out == InRange(buffer, lo, hi)
  {
    out := [];
    for i := 0 to |buffer|
      invariant out == InRange(buffer[..i], lo, hi)
    {
      assert buffer[..i + 1][..i] == buffer[..i];
      if lo <= buffer[i].rec.key <= hi {
        out := out + [buffer[i]];
      }
    }
    assert buffer[..|buffer|] == buffer;
  }

  lemma UpToHead(s: seq<Wrapped>, hi: int)
    ensures UpTo(s, hi) == [] <==> s == [] || s[0].rec.key > hi
    ensures UpTo(s, hi) != [] ==> UpTo(s, hi)[0] == s[0] && UpTo(s, hi)[1..] == UpTo(s[1..], hi)
  {
  }

  /** Takes the next record of a shard, if it is in range. */
  method Take(it: Iterator, hi: int) returns (w: Option<Wrapped>)
    requires it.Valid()
    modifies it
    ensures it.Valid()
    ensures w == if UpTo(old(it.Remaining()), hi) == [] then None else Some(UpTo(old(it.Remaining()), hi)[0])
    ensures UpTo(it.Remaining(), hi) == Tail(UpTo(old(it.Remaining()), hi))
  {
    ghost var remaining := it.Remaining();
    UpToHead(remaining, hi);
    w := it.GetCurrent();
    assert it.Remaining() == remaining;
    if w.Some? && w.value.rec.key <= hi {
      var _ := it.GetNext();
    } else {
      w := None;
    }
  }

  function Tail(s: seq<Wrapped>): seq<Wrapped> {
    if s == [] then [] else s[1..]
  }

  /** The heap and the rests after pulling from one source. */
  function Pushed(heap: seq<Node>, rest: seq<seq<Wrapped>>, i: nat): seq<Node>
    requires i < |rest|
  {
    if rest[i] == [] then heap else heap + [Node(rest[i][0], i)]
  }

  function Drawn(rest: seq<seq<Wrapped>>, i: nat): (next: seq<seq<Wrapped>>)
    requires i < |rest|
    ensures |next| == |rest|
  {
    rest[i := Tail(rest[i])]
  }

  /** Taking an entry and refilling from its source is what a merge does at each step. */
  lemma RefillIsPull(heap: seq<Node>, rest: seq<seq<Wrapped>>, k: nat)
    requires k < |heap| && heap[k].run < |rest|
    ensures Pushed(Without(heap, k), rest, heap[k].run) == Refilled(heap, rest, k)
    ensures Drawn(rest, heap[k].run) == Pulled(heap, rest, k)
  {
  }

  function PoolSize(heap: seq<Node>, rest: seq<seq<Wrapped>>): nat {
    |heap| + |Flatten(rest)|
  }

  lemma PoolShrinks(heap: seq<Node>, rest: seq<seq<Wrapped>>, k: nat)
    requires k < |heap| && heap[k].run < |rest|
    ensures PoolSize(Refilled(heap, rest, k), Pulled(heap, rest, k)) < PoolSize(heap, rest)
  {
    RefillShrinks(heap, rest, k);
  }

  // ---------------------------------------------------------------------------
  // The first refill of every source
  // ---------------------------------------------------------------------------

  /** The sources below i have their first record in the heap. */
  ghost predicate Priming(all: seq<Wrapped>, heap: seq<Node>, rest: seq<seq<Wrapped>>, i: nat) {
    && i <= |rest|
    && (forall k :: 0 <= k < |heap| ==> heap[k].run < i)
    && (forall j :: 0 <= j < |rest| ==> Sorted(rest[j]))
    && (forall j :: 0 <= j < i && rest[j] != [] ==> Covered(heap, j, rest[j][0]))
    && (forall r :: PoolNet(heap, rest, r) == Net(all, r))
  }

  lemma PrimingStarts(rest: seq<seq<Wrapped>>)
    requires forall j :: 0 <= j < |rest| ==> Sorted(rest[j])
    ensures Priming(Flatten(rest), [], rest, 0)
  {
  }

  lemma PushedNet(heap: seq<Node>, rest: seq<seq<Wrapped>>, i: nat, r: Record)
    requires i < |rest|
    ensures PoolNet(Pushed(heap, rest, i), Drawn(rest, i), r) == PoolNet(heap, rest, r)
  {
    if rest[i] == [] {
      assert Drawn(rest, i) == rest;
    } else {
      var w, next := rest[i][0], rest[i := rest[i][1..]];
      assert Recs(heap + [Node(w, i)]) == Recs(heap) + [w];
      NetSnoc(Recs(heap), w, r);
      PullBag(rest, i);
      NetPermutation(Flatten(rest), Flatten(next) + [w], r);
      NetSnoc(Flatten(next), w, r);
    }
  }

  lemma PushCovers(heap: seq<Node>, n: Node, j: nat, w: Wrapped)
    requires Covered(heap, j, w) || (n.run == j && !Less(w.rec, n.rec.rec))
    ensures Covered(heap + [n], j, w)
  {
    if Covered(heap, j, w) {
      var k :| 0 <= k < |heap| && heap[k].run == j && !Less(w.rec, heap[k].rec.rec);
      assert (heap + [n])[k] == heap[k];
    } else {
      assert (heap + [n])[|heap|] == n;
    }
  }

  lemma PrimingStep(all: seq<Wrapped>, heap: seq<Node>, rest: seq<seq<Wrapped>>, i: nat)
    requires Priming(all, heap, rest, i) && i < |rest|
    ensures Priming(all, Pushed(heap, rest, i), Drawn(rest, i), i + 1)
  {
    hide PoolNet, Covered;
    var h: seq<Node> := Pushed(heap, rest, i);
    var next: seq<seq<Wrapped>> := Drawn(rest, i);
    forall r ensures PoolNet(h, next, r) == Net(all, r) {
      PushedNet(heap, rest, i, r);
      assert PoolNet(heap, rest, r) == Net(all, r);
    }
    forall j | 0 <= j < i + 1 && next[j] != []
      ensures Covered(h, j, next[j][0])
    {
      if rest[i] != [] {
        PushCovers(heap, Node(rest[i][0], i), j, next[j][0]);
      }
    }
  }

  lemma PrimingDone(all: seq<Wrapped>, heap: seq<Node>, rest: seq<seq<Wrapped>>)
    requires Priming(all, heap, rest, |rest|)
    ensures Scanned(all, heap, rest, None, [])
  {
  }

  // ---------------------------------------------------------------------------
  // The iterator
  // ---------------------------------------------------------------------------

  /** What the sources of a scan have in range. */
  ghost function Sources(buffer: seq<Wrapped>, runs: seq<seq<Wrapped>>, lo: int, hi: int): (rest: seq<seq<Wrapped>>)
    ensures |rest| == |runs| + 1
  {
    [buffer] + seq(|runs|, i requires 0 <= i < |runs| => UpTo(KeysFrom(runs[i], lo), hi))
  }

  lemma {:induction false} SourcesNet(buffer: seq<Wrapped>, runs: seq<seq<Wrapped>>, lo: int, hi: int, r: Record)
    requires forall i :: 0 <= i < |runs| ==> Sorted(runs[i])
    ensures Net(Flatten(Sources(buffer, runs, lo, hi)), r)
            == Net(buffer, r) + if lo <= r.key <= hi then Net(Flatten(runs), r) else 0
    decreases |runs|
  {
    hide UpTo, KeysFrom, Sorted;
    var tails := Sources(buffer, runs, lo, hi)[1..];
    NetConcat(buffer, Flatten(tails), r);
    if runs == [] {
      assert tails == [];
    } else {
      var head := UpTo(KeysFrom(runs[0], lo), hi);
      SourcesNet(head, runs[1..], lo, hi, r);
      assert tails == Sources(head, runs[1..], lo, hi);
      RangeNet(runs[0], lo, hi, r);
      NetConcat(runs[0], Flatten(runs[1..]), r);
    }
  }

  ghost predicate Distinct(iters: seq<Iterator>) {
    forall i, j :: 0 <= i < j < |iters| ==> iters[i] != iters[j]
  }

  class RangeScanIterator {
    const finish: int
    const buffer: seq<Wrapped>
    const iters: seq<Iterator>
    var bufferIdx: nat
    var heap: seq<Node>
    var current: Record
    var pending: nat
    /** What each source still has in range: the buffer, then the shards. */
    ghost var rest: seq<seq<Wrapped>>
    /** The last record whose entries have been added up. */
    ghost var last: Option<Record>
    /** What `Next` has returned so far. */
    ghost var done: seq<Record>
    ghost const all: seq<Wrapped>

    ghost predicate LinkedAt(i: nat)
      requires i < |iters| && i + 1 < |rest|
      reads this`rest, iters[i]
    {
      iters[i].Valid() && rest[i + 1] == UpTo(iters[i].Remaining(), finish)
    }

    /** The ghost rests are what the buffer index and the iterators say. */
    ghost predicate Linked()
      reads this`rest, this`bufferIdx, iters
    {
      && Distinct(iters) && |rest| == |iters| + 1
      && bufferIdx <= |buffer| && rest[0] == buffer[bufferIdx..]
      && (forall i: nat :: i < |iters| ==> LinkedAt(i))
    }

    ghost function Shown(): seq<Record>
      reads this
    {
      done + Repeat(current, pending)
    }

    ghost function Left(): nat
      reads this
    {
      PoolSize(heap, rest)
    }

    ghost predicate Valid()
      reads this, iters
    {
      && Linked() && Scanned(all, heap, rest, last, Shown())
      && (pending == 0 ==> heap == [])
    }

    /** Pushes the next record of a source, if it has one in range. */
    method Refill(source: nat)
      requires Linked() && source < |rest|
      modifies this`heap, this`bufferIdx, this`rest, iters
      ensures Linked()
      ensures rest == Drawn(old(rest), source) && heap == Pushed(old(heap), old(rest), source)
    {
      if source == 0 {
        RefillBuffer();
      } else {
        RefillShard(source);
      }
    }

    method RefillBuffer()
      requires Linked()
      modifies this`heap, this`bufferIdx, this`rest
      ensures Linked() && |rest| == |old(rest)|
      ensures rest == Drawn(old(rest), 0) && heap == Pushed(old(heap), old(rest), 0)
    {
      hide UpTo;
      ghost var before := rest;
      rest := Drawn(rest, 0);
      if bufferIdx < |buffer| {
        heap := heap + [Node(buffer[bufferIdx], 0)];
        bufferIdx := bufferIdx + 1;
      }
      forall i: nat | i < |iters| ensures LinkedAt(i) { assert old(LinkedAt(i)); }
    }

    method RefillShard(source: nat)
      requires Linked() && 1 <= source < |rest|
      modifies this`heap, this`rest, iters
      ensures Linked() && |rest| == |old(rest)|
      ensures rest == Drawn(old(rest), source) && heap == Pushed(old(heap), old(rest), source)
    {
      hide UpTo, Iterator.Valid, Iterator.Remaining;
      assert LinkedAt(source - 1);
      var w := Take(iters[source - 1], finish);
      rest := Drawn(rest, source);
      if w.Some? {
        heap := heap + [Node(w.value, source)];
      }
      forall i: nat | i < |iters| ensures LinkedAt(i) {
        if i != source - 1 { assert old(LinkedAt(i)); }
      }
    }

    /** Opens a scan of the keys start, ..., finish. */
    constructor (view: seq<Wrapped>, shards: seq<ISAMTree>, start: int, finish: int)
      requires forall t :: t in shards ==> t.Valid()
      ensures Valid() && fresh(iters) && done == []
      ensures forall r :: Net(all, r) == if start <= r.key <= finish then Net(view + Flatten(Contents(shards)),
              r) else 0
    {
      hide UpTo, Iterator.Valid, Iterator.Remaining, Scanned, Priming, Flatten, Net, ISAMTree.Valid;
      var sorted, its, sources := OpenSources(view, shards, start, finish);
      this.finish, buffer, iters := finish, sorted, its;
      bufferIdx, heap, pending, current := 0, [], 0, Record(0, 0);
      rest, last, done, all := sources, None, [], Flatten(sources);
      new;
      Prime();
      Advance();
    }

    /** The first refill of every source. */
    method Prime()
      requires Linked() && Priming(all, heap, rest, 0)
      modifies this`heap, this`bufferIdx, this`rest, iters
      ensures Linked() && Scanned(all, heap, rest, None, [])
    {
      hide Scanned, Priming, Pushed, Drawn, LinkedAt;
      var source := 0;
      while source <= |iters|
        invariant source <= |iters| + 1 && Linked() && Priming(all, heap, rest, source)
      {
        PrimingStep(all, heap, rest, source);
        Refill(source);
        source := source + 1;
      }
      PrimingDone(all, heap, rest);
    }

    /** Adds up the entries of the record on top of the heap. */
    method TakeGroup(rec: Record, ghost k: nat) returns (live: int)
      requires Linked() && Ordered(heap, rest) && IsTop(heap, k) && rec == heap[k].rec.rec
      modifies this`heap, this`bufferIdx, this`rest, iters
      ensures Linked() && InGroup(old(heap), old(rest), heap, rest, rec, live) && Beyond(rec, heap, rest)
      ensures Left() < old(Left())
    {
      hide PoolNet, PoolSize, UpTo, Refilled, Pulled, Pushed, Drawn, Beyond, LinkedAt;
      live := 0;
      GroupStarts(heap, rest, k);
      while heap != []
        invariant Linked() && InGroup(old(heap), old(rest), heap, rest, rec, live)
        invariant Left() < old(Left()) || (heap == old(heap) && rest == old(rest))
        decreases Left()
      {
        var t := Top(heap);
        if heap[t].rec.rec != rec {
          TopBeyond(heap, rest, rec, t);
          return;
        }
        GroupStep(old(heap), old(rest), heap, rest, rec, live, t);
        PoolShrinks(heap, rest, t);
        RefillIsPull(heap, rest, t);
        var entry := heap[t];
        heap := Without(heap, t);
        if entry.rec.tombstone {
          live := live - 1;
        } else if !entry.rec.deleted {
          live := live + 1;
        }
        Refill(entry.run);
      }
      EmptyBeyond(rest, rec);
    }

    /** Moves on to the next record that is live. */
    method Advance()
      requires Linked() && Scanned(all, heap, rest, last, done)
      modifies this`heap, this`bufferIdx, this`rest, this`last, this`current, this`pending, iters
      ensures Valid()
      ensures Left() < old(Left()) || (pending == 0 && Left() == old(Left()))
    {
      hide PoolNet, PoolSize, UpTo, Beyond, LinkedAt, InGroup;
      while heap != []
        invariant Linked() && Scanned(all, heap, rest, last, done)
        invariant Left() <= old(Left())
        decreases Left()
      {
        var k := Top(heap);
        var rec := heap[k].rec.rec;
        TopAbove(heap, rest, last, k);
        ghost var heap0, rest0 := heap, rest;
        var live := TakeGroup(rec, k);
        GroupDone(all, heap0, rest0, heap, rest, last, done, rec, live);
        last := Some(rec);
        if live > 0 {
          current := rec;
          pending := live;
          return;
        }
        assert done + Repeat(rec, 0) == done;
      }
      pending := 0;
      assert done + Repeat(current, 0) == done;
    }

    method HasNext() returns (b: bool)
      requires Valid()
      ensures b == (pending > 0)
    {
      b := pending > 0;
    }

    method Next() returns (rec: Record)
      requires Valid() && pending > 0
      modifies this`heap, this`bufferIdx, this`rest, this`last, this`current, this`pending, this`done, iters
      ensures Valid() && done == old(done) + [rec]
      ensures Left() < old(Left()) || (Left() == old(Left()) && pending < old(pending))
    {
      hide Scanned, LinkedAt;
      rec := current;
      assert Shown() == (done + [rec]) + Repeat(current, pending - 1);
      pending, done := pending - 1, done + [rec];
      if pending == 0 {
        assert done + Repeat(current, 0) == done;
        Advance();
      }
    }
  }

  lemma TopAbove(heap: seq<Node>, rest: seq<seq<Wrapped>>, last: Option<Record>, k: nat)
    requires k < |heap| && last.Some? ==> Beyond(last.value, heap, rest)
    ensures k < |heap| && last.Some? ==> Less(last.value, heap[k].rec.rec)
  {
  }

  method OpenAll(shards: seq<ISAMTree>, start: int) returns (its: seq<Iterator>)
    requires forall t :: t in shards ==> t.Valid()
    ensures |its| == |shards| && Distinct(its) && fresh(its)
    ensures forall i :: 0 <= i < |its| ==> its[i].Valid() && its[i].Remaining() == KeysFrom(shards[i].recs, start)
  {
    its := [];
    for n := 0 to |shards|
      invariant |its| == n && Distinct(its) && fresh(its)
      invariant forall i :: 0 <= i < n ==> its[i].Valid() && its[i].Remaining() == KeysFrom(shards[i].recs, start)
    {
      var it := shards[n].GetIterator(start);
      its := its + [it];
    }
  }

  /** The buffer's records in range, sorted, and an iterator per shard. */
  method OpenSources(view: seq<Wrapped>, shards: seq<ISAMTree>, lo: int, hi: int)
    returns (buffer: seq<Wrapped>, its: seq<Iterator>, ghost sources: seq<seq<Wrapped>>)
    requires forall t :: t in shards ==> t.Valid()
    ensures Distinct(its) && fresh(its) && |sources| == |its| + 1 && sources[0] == buffer
    ensures forall i: nat :: i < |its| ==> its[i].Valid() && sources[i + 1] == UpTo(its[i].Remaining(), hi)
    ensures Priming(Flatten(sources), [], sources, 0)
    ensures forall r ::
              Net(Flatten(sources), r) == if lo <= r.key <= hi then Net(view + Flatten(Contents(shards)), r) else 0
  {
    hide UpTo, KeysFrom, Iterator.Valid, Iterator.Remaining, Priming, Flatten, Net, ISAMTree.Valid, Sorted, InRange;
    var inRange := Filter(view, lo, hi);
    buffer := SortRecords(inRange);
    sources := Sources(buffer, Contents(shards), lo, hi);
    AllInRange(view, inRange, buffer, shards, lo, hi);
    PrimingStarts(sources);
    its := OpenAll(shards, lo);
  }

  lemma AllInRange(view: seq<Wrapped>, inRange: seq<Wrapped>, sorted: seq<Wrapped>, shards: seq<ISAMTree>, lo: int,
        hi: int)
    requires inRange == InRange(view, lo, hi) && multiset(sorted) == multiset(inRange) && Sorted(sorted)
    requires forall t :: t in shards ==> t.Valid()
    ensures forall i :: 0 <= i < |Sources(sorted, Contents(shards), lo, hi)| ==>
            Sorted(Sources(sorted, Contents(shards), lo, hi)[i])
    ensures forall r :: Net(Flatten(Sources(sorted, Contents(shards), lo, hi)), r)
                     == if lo <= r.key <= hi then Net(view + Flatten(Contents(shards)), r) else 0
  {
    hide ISAMTree.Valid, UpTo, KeysFrom, Sorted, Net, Flatten, InRange;
    var runs := Contents(shards);
    ShardsSorted(shards);
    forall i | 0 <= i < |runs| ensures Sorted(UpTo(KeysFrom(runs[i], lo), hi)) {
      KeysFromSorted(runs[i], lo);
      UpToSorted(KeysFrom(runs[i], lo), hi);
    }
    forall r
      ensures Net(Flatten(Sources(sorted, runs, lo, hi)), r)
              == if lo <= r.key <= hi then Net(view + Flatten(runs), r) else 0
    {
      SourcesNet(sorted, runs, lo, hi, r);
      NetPermutation(sorted, inRange, r);
      InRangeNet(view, lo, hi, r);
      NetConcat(view, Flatten(runs), r);
    }
  }

  lemma ShardsSorted(shards: seq<ISAMTree>)
    requires forall t :: t in shards ==> t.Valid()
    ensures forall i :: 0 <= i < |Contents(shards)| ==> Sorted(Contents(shards)[i])
  {
    forall i | 0 <= i < |shards| ensures Sorted(shards[i].recs) { assert shards[i].Valid(); }
  }

  lemma {:induction false} KeysFromSorted(s: seq<Wrapped>, lo: int)
    requires Sorted(s)
    ensures Sorted(KeysFrom(s, lo))
  {
    if s != [] {
      KeysFromSorted(s[1..], lo);
      if s[0].rec.key >= lo {
        AllAbove(s[1..], lo, s[0]);
        assert KeysFrom(s, lo) == s;
      }
    }
  }

  /** Runs a scan to its end. */
  method Collect(view: seq<Wrapped>, shards: seq<ISAMTree>, lo: int, hi: int) returns (out: seq<Record>)
    requires forall t :: t in shards ==> t.Valid()
    ensures IsScan(view + Flatten(Contents(shards)), lo, hi, out)
  {
    hide Scanned, Net;
    var scan := new RangeScanIterator(view, shards, lo, hi);
    out := [];
    var more := scan.HasNext();
    while more
      invariant scan.Valid() && fresh(scan) && fresh(scan.iters) && scan.done == out && more == (scan.pending > 0)
      decreases scan.Left(), scan.pending
    {
      var rec := scan.Next();
      out := out + [rec];
      more := scan.HasNext();
    }
    assert scan.Shown() == out;
    Completed(view + Flatten(Contents(shards)), scan.all, scan.rest, scan.last, out, lo, hi);
  }

  lemma Completed(ops: seq<Wrapped>, all: seq<Wrapped>, rest: seq<seq<Wrapped>>, last: Option<Record>,
        out: seq<Record>, lo: int, hi: int)
    requires Scanned(all, [], rest, last, out)
    requires forall r :: Net(all, r) == if lo <= r.key <= hi then Net(ops, r) else 0
    ensures IsScan(ops, lo, hi, out)
  {
    forall r ensures Count(out, r) == if lo <= r.key <= hi && Net(ops, r) > 0 then Net(ops, r) else 0 {
      ScanComplete(all, rest, last, out, r);
      assert Net(all, r) == if lo <= r.key <= hi then Net(ops, r) else 0;
    }
  }
}
