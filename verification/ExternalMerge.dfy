/** The external merge sort: sorted runs stored in pages are merged through a heap into
    pages of an index file, cancelling inserts against tombstones on the way. */
module ExternalMerge {
  import opened Records
  import opened MergeBag
  import opened Paging

  /** A sorted run in a file: `count` records, from page `base` on, `fanout` to a page. */
  datatype Run = Run(pages: seq<Page>, base: nat, count: nat)

  ghost predicate PagesOk(fanout: nat, run: Run) {
    && fanout >= 1
    && (forall p :: 0 <= p < |run.pages| ==> |run.pages[p]| == fanout)
    && (forall j: nat :: j < run.count ==> run.base + PageOf(fanout, j) < |run.pages|)
  }

  function RecordAt(fanout: nat, run: Run, j: nat): Wrapped
    requires PagesOk(fanout, run) && j < run.count
  {
    run.pages[run.base + PageOf(fanout, j)][SlotOf(fanout, j)]
  }

  function RunRecords(fanout: nat, run: Run): (s: seq<Wrapped>)
    requires PagesOk(fanout, run)
    ensures |s| == run.count && forall j :: 0 <= j < run.count ==> s[j] == RecordAt(fanout, run, j)
  {
    seq(run.count, j requires 0 <= j < run.count => RecordAt(fanout, run, j))
  }

  /** What the merge demands of its inputs: it reads the first record of every run. */
  ghost predicate RunOk(fanout: nat, run: Run) {
    PagesOk(fanout, run) && run.count >= 1 && Sorted(RunRecords(fanout, run))
  }

  ghost predicate RunsOk(fanout: nat, runs: seq<Run>) {
    forall i {:trigger runs[i]} :: 0 <= i < |runs| ==> RunOk(fanout, runs[i])
  }

  /** A run being read: the page in the buffer and the number of records taken. */
  datatype Reader = Reader(run: Run, buffer: Page, taken: nat)

  ghost predicate ReaderOk(fanout: nat, r: Reader) {
    && PagesOk(fanout, r.run) && r.taken <= r.run.count
    && (r.taken >= 1 ==> r.buffer == r.run.pages[r.run.base + PageOf(fanout, r.taken - 1)])
  }

  function Left(fanout: nat, r: Reader): seq<Wrapped>
    requires ReaderOk(fanout, r)
  {
    RunRecords(fanout, r.run)[r.taken..]
  }

  /** Takes the next record of a run, reading its next page when the buffer is used up. */
  method Take(fanout: nat, r: Reader) returns (w: Wrapped, r': Reader)
    requires ReaderOk(fanout, r) && r.taken < r.run.count
    ensures ReaderOk(fanout, r') && r'.run == r.run
    ensures Left(fanout, r) == [w] + Left(fanout, r')
  {
    hide PageOf, SlotOf;
    var buffer := r.buffer;
    if SlotOf(fanout, r.taken) == 0 {
      buffer := r.run.pages[r.run.base + PageOf(fanout, r.taken)];
    }
    SamePage(fanout, r.taken);
    w := buffer[SlotOf(fanout, r.taken)];
    r' := Reader(r.run, buffer, r.taken + 1);
    assert w == RecordAt(fanout, r.run, r.taken);
  }

  lemma SamePage(fanout: nat, n: nat)
    requires fanout >= 1
    ensures n == 0 ==> SlotOf(fanout, n) == 0
    ensures n >= 1 && SlotOf(fanout, n) != 0 ==> PageOf(fanout, n - 1) == PageOf(fanout, n)
  {
    if n >= 1 {
      NextSlot(fanout, n - 1);
    }
  }

  ghost predicate ReadersOk(fanout: nat, readers: seq<Reader>) {
    forall i :: 0 <= i < |readers| ==> ReaderOk(fanout, readers[i])
  }

  function Rest(fanout: nat, readers: seq<Reader>): (rest: seq<seq<Wrapped>>)
    requires ReadersOk(fanout, readers)
    ensures |rest| == |readers| && forall i :: 0 <= i < |rest| ==> rest[i] == Left(fanout, readers[i])
  {
    seq(|readers|, i requires 0 <= i < |readers| => Left(fanout, readers[i]))
  }

  /** The records of all runs, run by run. */
  function Runs(fanout: nat, runs: seq<Run>): (rs: seq<seq<Wrapped>>)
    requires RunsOk(fanout, runs)
    ensures |rs| == |runs| && forall i :: 0 <= i < |rs| ==> rs[i] == RunRecords(fanout, runs[i])
  {
    seq(|runs|, i requires 0 <= i < |runs| => RunRecords(fanout, runs[i]))
  }

  /** Takes entry k off the heap and refills from its run. */
  method TakeTop(fanout: nat, heap: seq<Node>, readers: seq<Reader>, k: nat)
        returns (heap': seq<Node>, readers': seq<Reader>)
    requires ReadersOk(fanout, readers) && k < |heap| && heap[k].run < |readers|
    ensures ReadersOk(fanout, readers') && |readers'| == |readers|
    ensures heap' == Refilled(heap, Rest(fanout, readers), k)
    ensures Rest(fanout, readers') == Pulled(heap, Rest(fanout, readers), k)
  {
    var i := heap[k].run;
    heap' := Without(heap, k);
    readers' := readers;
    if readers[i].taken < readers[i].run.count {
      var w, r := Take(fanout, readers[i]);
      heap' := heap' + [Node(w, i)];
      readers' := readers[i := r];
      assert Left(fanout, readers[i]) == [w] + Left(fanout, r);
      assert ([w] + Left(fanout, r))[1..] == Left(fanout, r);
      assert Rest(fanout, readers') == Rest(fanout, readers)[i := Rest(fanout, readers)[i][1..]];
    } else {
      assert Left(fanout, readers[i]) == [];
    }
  }

  // ---------------------------------------------------------------------------
  // The merge loop
  // ---------------------------------------------------------------------------

  /** The state of the merge: everything is in the output, cancelled, in the heap or still
      in its run, and what comes next is no smaller than what was written. */
  ghost predicate Merging(all: seq<Wrapped>, out: seq<Wrapped>, gone: seq<Wrapped>, heap: seq<Node>,
        rest: seq<seq<Wrapped>>) {
    && multiset(all) == multiset(out) + multiset(gone) + multiset(Recs(heap)) + multiset(Flatten(rest))
    && Pairs(gone) && Sorted(out) && Ordered(heap, rest)
    && (out != [] ==> Least(out[|out| - 1], heap, rest))
  }

  lemma SortedSnoc(out: seq<Wrapped>, w: Wrapped)
    requires Sorted(out) && (out != [] ==> !Less(w.rec, out[|out| - 1].rec))
    ensures Sorted(out + [w])
  {
    if out != [] {
      forall i | 0 <= i < |out| ensures !Less(w.rec, out[i].rec) {
        assert i < |out| - 1 ==> !Less(out[|out| - 1].rec, out[i].rec);
      }
    }
  }

  /** What leaves the heap and the runs can be counted elsewhere. */
  lemma BagMove<T>(all: multiset<T>, out: multiset<T>, gone: multiset<T>, heap: multiset<T>, rest: multiset<T>,
                   heap': multiset<T>, rest': multiset<T>, moved: multiset<T>)
    requires all == out + gone + heap + rest && heap + rest == heap' + rest' + moved
    ensures all == (out + moved) + gone + heap' + rest' && all == out + (gone + moved) + heap' + rest'
  {
    assert all == out + gone + (heap + rest);
  }

  /** The smallest record goes to the output. */
  lemma Written(all: seq<Wrapped>, out: seq<Wrapped>, gone: seq<Wrapped>, heap: seq<Node>, rest: seq<seq<Wrapped>>,
        k: nat)
    requires Merging(all, out, gone, heap, rest) && IsTop(heap, k)
    ensures Merging(all, out + [heap[k].rec], gone, Refilled(heap, rest, k), Pulled(heap, rest, k))
  {
    hide Ordered, Pairs;
    var w := heap[k].rec;
    TopRun(heap, rest, k);
    TopIsLeast(heap, rest, k);
    RefillKeepsOrder(heap, rest, k, w);
    RefillKeepsBag(heap, rest, k);
    SortedSnoc(out, w);
    BagMove(multiset(all), multiset(out), multiset(gone), multiset(Recs(heap)), multiset(Flatten(rest)),
            multiset(Recs(Refilled(heap, rest, k))), multiset(Flatten(Pulled(heap, rest, k))), multiset{w});
    assert multiset(out + [w]) == multiset(out) + multiset{w};
    assert (out + [w])[|out|] == w;
  }

  lemma TopRun(heap: seq<Node>, rest: seq<seq<Wrapped>>, k: nat)
    requires Ordered(heap, rest) && k < |heap|
    ensures heap[k].run < |rest|
  {
  }

  /** Two equal records of opposite kind leave together. */
  lemma Cancelled(all: seq<Wrapped>, out: seq<Wrapped>, gone: seq<Wrapped>, heap: seq<Node>, rest: seq<seq<Wrapped>>,
                  k: nat, heap1: seq<Node>, rest1: seq<seq<Wrapped>>, k1: nat)
    requires Merging(all, out, gone, heap, rest) && IsTop(heap, k)
    requires Ordered(heap, rest) && heap[k].run < |rest|
    requires heap1 == Refilled(heap, rest, k) && rest1 == Pulled(heap, rest, k)
    requires k1 < |heap1| && heap1[k1].run < |rest1| && Cancels(heap[k].rec, heap1[k1].rec)
    ensures Merging(all, out, gone + [heap[k].rec, heap1[k1].rec], Refilled(heap1, rest1, k1), Pulled(heap1, rest1, k1))
  {
    hide Pairs, Ordered, Refilled, Pulled;
    var low := if out == [] then heap[k].rec else out[|out| - 1];
    if out == [] {
      TopIsLeast(heap, rest, k);
    }
    RefillKeepsOrder(heap, rest, k, low);
    RefillKeepsBag(heap, rest, k);
    RefillKeepsOrder(heap1, rest1, k1, low);
    RefillKeepsBag(heap1, rest1, k1);
    PairsSnoc(gone, heap[k].rec, heap1[k1].rec);
    BagMove(multiset(all), multiset(out), multiset(gone), multiset(Recs(heap)), multiset(Flatten(rest)),
            multiset(Recs(heap1)), multiset(Flatten(rest1)), multiset{heap[k].rec});
    var heap2, rest2 := Refilled(heap1, rest1, k1), Pulled(heap1, rest1, k1);
    BagMove(multiset(all), multiset(out), multiset(gone) + multiset{heap[k].rec}, multiset(Recs(heap1)),
            multiset(Flatten(rest1)), multiset(Recs(heap2)), multiset(Flatten(rest2)), multiset{heap1[k1].rec});
    assert multiset(gone + [heap[k].rec, heap1[k1].rec])
           == multiset(gone) + multiset{heap[k].rec} + multiset{heap1[k1].rec};
  }

  function Heads(rs: seq<seq<Wrapped>>): (heap: seq<Node>)
    requires forall i :: 0 <= i < |rs| ==> rs[i] != []
    ensures |heap| == |rs| && forall i :: 0 <= i < |rs| ==> heap[i] == Node(rs[i][0], i)
  {
    seq(|rs|, i requires 0 <= i < |rs| => Node(rs[i][0], i))
  }

  function Tails(rs: seq<seq<Wrapped>>): (rest: seq<seq<Wrapped>>)
    requires forall i :: 0 <= i < |rs| ==> rs[i] != []
    ensures |rest| == |rs| && forall i :: 0 <= i < |rs| ==> rest[i] == rs[i][1..]
  {
    seq(|rs|, i requires 0 <= i < |rs| => rs[i][1..])
  }

  /** Flattening with the last run apart. */
  lemma FlattenSnoc(rs: seq<seq<Wrapped>>, s: seq<Wrapped>)
    ensures Flatten(rs + [s]) == Flatten(rs) + s
  {
    FlattenConcat(rs, [s]);
    assert [s][1..] == [];
    assert Flatten([s]) == s + [];
  }

  lemma HeadAndTail(front: seq<Wrapped>, last: seq<Wrapped>, heads: seq<Wrapped>, tails: seq<Wrapped>)
    requires last != [] && multiset(front) == multiset(heads) + multiset(tails)
    ensures multiset(front + last) == multiset(heads + [last[0]]) + multiset(tails + last[1..])
  {
    assert last == [last[0]] + last[1..];
    assert multiset(last) == multiset{last[0]} + multiset(last[1..]);
    assert multiset(front + last) == multiset(heads) + multiset(tails) + multiset{last[0]} + multiset(last[1..]);
  }

  lemma {:induction false} HeadsAndTails(rs: seq<seq<Wrapped>>)
    requires forall i :: 0 <= i < |rs| ==> rs[i] != []
    ensures multiset(Flatten(rs)) == multiset(Recs(Heads(rs))) + multiset(Flatten(Tails(rs)))
  {
    if rs != [] {
      var n := |rs| - 1;
      var front, last := rs[..n], rs[n];
      HeadsAndTails(front);
      assert rs == front + [last];
      FlattenSnoc(front, last);
      assert Tails(rs) == Tails(front) + [last[1..]];
      FlattenSnoc(Tails(front), last[1..]);
      assert Recs(Heads(rs)) == Recs(Heads(front)) + [last[0]];
      hide Flatten, Heads, Tails, Recs;
      HeadAndTail(Flatten(front), last, Recs(Heads(front)), Flatten(Tails(front)));
    } else {
      assert Recs(Heads(rs)) == [];
    }
  }

  lemma StartOrdered(rs: seq<seq<Wrapped>>)
    requires forall i :: 0 <= i < |rs| ==> rs[i] != [] && Sorted(rs[i])
    ensures Ordered(Heads(rs), Tails(rs))
  {
    var heap, rest := Heads(rs), Tails(rs);
    forall i | 0 <= i < |rest|
      ensures Sorted(rest[i]) && (rest[i] != [] ==> Covered(heap, i, rest[i][0]))
    {
      assert Sorted(rs[i]);
      assert heap[i].run == i;
      if rest[i] != [] {
        assert rest[i][0] == rs[i][1];
      }
    }
  }

  /** Loading the first record of every run starts the merge. */
  lemma Started(rs: seq<seq<Wrapped>>)
    requires forall i :: 0 <= i < |rs| ==> rs[i] != [] && Sorted(rs[i])
    ensures Merging(Flatten(rs), [], [], Heads(rs), Tails(rs))
  {
    hide Ordered;
    HeadsAndTails(rs);
    StartOrdered(rs);
  }

  method LoadHeads(fanout: nat, runs: seq<Run>) returns (heap: seq<Node>, readers: seq<Reader>)
    requires RunsOk(fanout, runs)
    ensures ReadersOk(fanout, readers)
    ensures heap == Heads(Runs(fanout, runs)) && Rest(fanout, readers) == Tails(Runs(fanout, runs))
  {
    heap, readers := [], [];
    for i := 0 to |runs|
      invariant |heap| == |readers| == i && ReadersOk(fanout, readers)
      invariant forall j :: 0 <= j < i ==>
                  heap[j] == Node(RunRecords(fanout, runs[j])[0], j)
                  && Left(fanout, readers[j]) == RunRecords(fanout, runs[j])[1..]
    {
      var fresh' := Reader(runs[i], [], 0);
      assert Left(fanout, fresh') == RunRecords(fanout, runs[i]);
      var w, r := Take(fanout, fresh');
      heap, readers := heap + [Node(w, i)], readers + [r];
    }
  }

  // ---------------------------------------------------------------------------
  // Writing pages
  // ---------------------------------------------------------------------------

  /** Full pages written so far, and the page being filled, blank from `count` on. */
  datatype Writer = Writer(pages: seq<Page>, page: Page, count: nat)

  ghost predicate WriterOk(fanout: nat, blank: Wrapped, w: Writer) {
    && FullPages(fanout, w.pages) && |w.page| == fanout >= 1 && w.count <= fanout
    && (w.pages != [] ==> w.count > 0)
    && (forall i :: w.count <= i < fanout ==> w.page[i] == blank)
  }

  function WrittenTo(w: Writer): seq<Wrapped> {
    Flatten(w.pages) + if w.count <= |w.page| then w.page[..w.count] else []
  }

  function BlankPage(fanout: nat, blank: Wrapped): (p: Page)
    ensures |p| == fanout && forall i :: 0 <= i < fanout ==> p[i] == blank
  {
    seq(fanout, _ => blank)
  }

  method Put(fanout: nat, blank: Wrapped, w: Writer, rec: Wrapped) returns (w': Writer)
    requires WriterOk(fanout, blank, w)
    ensures WriterOk(fanout, blank, w') && WrittenTo(w') == WrittenTo(w) + [rec]
  {
    var pages, page, count := w.pages, w.page, w.count;
    if count == fanout {
      FlattenSnoc(pages, page);
      assert page[..count] == page;
      pages, page, count := pages + [page], BlankPage(fanout, blank), 0;
    }
    w' := Writer(pages, page[count := rec], count + 1);
    assert w'.page[..count + 1] == page[..count] + [rec];
  }

  /** `pages` hold `out`, `fanout` to a page, the last one filled up with blanks. */
  ghost predicate Paged(fanout: nat, blank: Wrapped, pages: seq<Page>, out: seq<Wrapped>) {
    && fanout >= 1 && FullPages(fanout, pages)
    && fanout * (|pages| - 1) < |out| <= fanout * |pages|
    && |Flatten(pages)| == fanout * |pages|
    && out == Flatten(pages)[..|out|]
    && (forall i :: |out| <= i < fanout * |pages| ==> Flatten(pages)[i] == blank)
  }

  method Finish(fanout: nat, blank: Wrapped, w: Writer) returns (pages: seq<Page>)
    requires WriterOk(fanout, blank, w)
    ensures WrittenTo(w) == [] ==> pages == []
    ensures WrittenTo(w) != [] ==> Paged(fanout, blank, pages, WrittenTo(w))
  {
    pages := w.pages;
    FlattenLength(fanout, w.pages);
    if w.count > 0 {
      pages := pages + [w.page];
      FlattenSnoc(w.pages, w.page);
      FlattenLength(fanout, pages);
      assert fanout * |pages| == fanout * |w.pages| + fanout;
    }
  }

  // ---------------------------------------------------------------------------
  // The merge sort
  // ---------------------------------------------------------------------------

  lemma FreshWriter(fanout: nat, blank: Wrapped)
    requires fanout >= 1
    ensures var w := Writer([], BlankPage(fanout, blank), 0); WriterOk(fanout, blank, w) && WrittenTo(w) == []
  {
  }

  lemma StartedRuns(fanout: nat, runs: seq<Run>)
    requires RunsOk(fanout, runs)
    ensures var rs := Runs(fanout, runs);
            && (forall i :: 0 <= i < |rs| ==> rs[i] != [])
            && Merging(Flatten(rs), [], [], Heads(rs), Tails(rs))
  {
    var rs := Runs(fanout, runs);
    forall i | 0 <= i < |rs| ensures rs[i] != [] && Sorted(rs[i]) { assert RunOk(fanout, runs[i]); }
    Started(rs);
  }

  lemma InBounds(all: seq<Wrapped>, out: seq<Wrapped>, gone: seq<Wrapped>, heap: seq<Node>, rest: seq<seq<Wrapped>>,
        k: nat)
    requires Merging(all, out, gone, heap, rest) && IsTop(heap, k)
    ensures Ordered(heap, rest) && heap[k].run < |rest|
    ensures forall j :: 0 <= j < |Refilled(heap, rest, k)| ==> Refilled(heap, rest, k)[j].run < |rest|
  {
    TopIsLeast(heap, rest, k);
    RefillKeepsOrder(heap, rest, k, heap[k].rec);
  }

  lemma {:induction false} FlattenOfNothing(rest: seq<seq<Wrapped>>)
    requires forall i :: 0 <= i < |rest| ==> rest[i] == []
    ensures Flatten(rest) == []
  {
    if rest != [] {
      FlattenOfNothing(rest[1..]);
    }
  }

  /** With the heap empty the runs are used up. */
  lemma UsedUp(all: seq<Wrapped>, out: seq<Wrapped>, gone: seq<Wrapped>, rest: seq<seq<Wrapped>>)
    requires Merging(all, out, gone, [], rest)
    ensures Sorted(out) && Pairs(gone) && multiset(all) == multiset(out) + multiset(gone)
  {
    forall i | 0 <= i < |rest| ensures rest[i] == [] {
      assert !Covered([], i, if rest[i] != [] then rest[i][0] else Wrapped(Record(0, 0), false, false, 0));
    }
    FlattenOfNothing(rest);
    assert Recs([]) == [];
  }

  lemma Drained(all: seq<Wrapped>, out: seq<Wrapped>, gone: seq<Wrapped>, rest: seq<seq<Wrapped>>)
    requires Merging(all, out, gone, [], rest) && Meeting(all, gone, [], rest)
    ensures Sorted(out) && Cancelling(all, out) && PairedOff(all, out)
    ensures gone == [] <==> forall r :: !BothKinds(all, r)
    ensures |all| == |out| + |gone| && Tombstones(all) == Tombstones(out) + |gone| / 2
  {
    UsedUp(all, out, gone, rest);
    CancellingCounts(all, out, gone);
    NothingPending(all, gone, rest);
    AllMet(all, out, gone);
  }

  lemma NothingPending(all: seq<Wrapped>, gone: seq<Wrapped>, rest: seq<seq<Wrapped>>)
    requires Ordered([], rest) && Meeting(all, gone, [], rest)
    ensures forall r :: HasBoth(multiset(all), r) ==> HasKind(multiset(gone), r, false)
  {
    forall r ensures !HasBoth(Pending([], rest), r) {
      if HasBoth(Pending([], rest), r) {
        var w :| w in Pending([], rest) && w.rec == r && w.tombstone == false;
        PendingHasTop([], rest, w);
      }
    }
  }

  lemma NothingGone(rs: seq<seq<Wrapped>>)
    requires forall i :: 0 <= i < |rs| ==> rs[i] != []
    ensures Meeting(Flatten(rs), [], Heads(rs), Tails(rs))
  {
    HeadsAndTails(rs);
  }

  /** One iteration without a pair. */
  lemma StaysMeeting(all: seq<Wrapped>, out: seq<Wrapped>, gone: seq<Wrapped>, heap: seq<Node>,
                     rest: seq<seq<Wrapped>>, k: nat, k1: nat)
    requires Merging(all, out, gone, heap, rest) && Meeting(all, gone, heap, rest) && IsTop(heap, k)
    requires heap[k].run < |rest|
    requires var heap1 := Refilled(heap, rest, k);
             heap1 != [] ==> IsTop(heap1, k1) && !Cancels(heap[k].rec, heap1[k1].rec)
    ensures Meeting(all, gone, Refilled(heap, rest, k), Pulled(heap, rest, k))
  {
    hide Ordered, Refilled, Pulled;
    TopIsLeast(heap, rest, k);
    RefillKeepsOrder(heap, rest, k, heap[k].rec);
    StillMeeting(all, gone, heap, rest, k, Refilled(heap, rest, k), Pulled(heap, rest, k), k1);
  }

  /** Merges the runs into pages. The output is sorted, it is the input without the cancelled
      pairs, and each of those took one insert and one tombstone with it. Whatever equal entry
      the heap shows, a record with both kinds loses a pair. */
  method MergeRuns(fanout: nat, blank: Wrapped, runs: seq<Run>)
      returns (pages: seq<Page>, cancelled: nat, ghost out: seq<Wrapped>)
    requires fanout >= 1 && RunsOk(fanout, runs)
    ensures var all := Flatten(Runs(fanout, runs));
            && Sorted(out) && Cancelling(all, out)
            && |all| == |out| + 2 * cancelled && Tombstones(all) == Tombstones(out) + cancelled
            && PairedOff(all, out) && (cancelled == 0 <==> forall r :: !BothKinds(all, r))
    ensures out == [] ==> pages == []
    ensures out != [] ==> Paged(fanout, blank, pages, out)
  {
    ghost var all := Flatten(Runs(fanout, runs));
    StartedRuns(fanout, runs);
    hide Merging, Refilled, Pulled, WriterOk, Ordered, Paged, ReaderOk, PagesOk, RunRecords, Left, WrittenTo, Sorted,
         Cancelling, Meeting, PairedOff, BothKinds;
    NothingGone(Runs(fanout, runs));
    var heap, readers := LoadHeads(fanout, runs);
    cancelled := 0;
    ghost var gone: seq<Wrapped> := [];
    out := [];
    var w := Writer([], BlankPage(fanout, blank), 0);
    FreshWriter(fanout, blank);
    while heap != []
      invariant ReadersOk(fanout, readers) && Merging(all, out, gone, heap, Rest(fanout, readers))
      invariant |gone| == 2 * cancelled && Meeting(all, gone, heap, Rest(fanout, readers))
      invariant WriterOk(fanout, blank, w) && WrittenTo(w) == out
      decreases |heap| + |Flatten(Rest(fanout, readers))|
    {
      ghost var rest := Rest(fanout, readers);
      var k := Top(heap);
      var top := heap[k].rec;
      InBounds(all, out, gone, heap, rest, k);
      var heap1, readers1 := TakeTop(fanout, heap, readers, k);
      RefillShrinks(heap, rest, k);
      ghost var rest1 := Rest(fanout, readers1);
      var again := false;
      var k1: nat := 0;
      if heap1 != [] {
        k1 := Top(heap1);
        if Cancels(top, heap1[k1].rec) {
          var heap2, readers2 := TakeTop(fanout, heap1, readers1, k1);
          Cancelled(all, out, gone, heap, rest, k, heap1, rest1, k1);
          PairMeets(all, gone, heap, rest, k, heap1, rest1, k1);
          RefillShrinks(heap1, rest1, k1);
          gone := gone + [top, heap1[k1].rec];
          cancelled := cancelled + 1;
          heap, readers := heap2, readers2;
          again := true;
        }
      }
      if !again {
        StaysMeeting(all, out, gone, heap, rest, k, k1);
        Written(all, out, gone, heap, rest, k);
        w := Put(fanout, blank, w, top);
        out := out + [top];
        heap, readers := heap1, readers1;
      }
    }
    pages := Finish(fanout, blank, w);
    Drained(all, out, gone, Rest(fanout, readers));
  }
}
