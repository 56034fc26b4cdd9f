/** The external ISAM tree: a shard whose records live in the pages of one file. */
module ExternalISAMTrees {
  import opened Records
  import opened Paging
  import opened MergeBag
  import opened ExternalMerge
  import opened ExternalIndex
  import opened ExternalBuild
  import opened ExternalSearch

  // ---------------------------------------------------------------------------
  // Sorted runs from the buffer
  // ---------------------------------------------------------------------------

  /** Sorts by record; equal records may come out in any order. */
  method SortRecords(s: seq<Wrapped>) returns (t: seq<Wrapped>)
    ensures Sorted(t) && multiset(t) == multiset(s)
  {
    t := [];
    for i := 0 to |s|
      invariant Sorted(t) && multiset(t) == multiset(s[..i])
    {
      var k := |t|;
      while k > 0 && Less(s[i].rec, t[k - 1].rec)
        invariant 0 <= k <= |t| && forall j :: k <= j < |t| ==> Less(s[i].rec, t[j].rec)
      {
        k := k - 1;
      }
      InsertSorted(t, k, s[i]);
      assert s[..i + 1] == s[..i] + [s[i]];
      t := t[..k] + [s[i]] + t[k..];
    }
    assert s[..|s|] == s;
  }

  lemma InsertSorted(t: seq<Wrapped>, k: nat, w: Wrapped)
    requires Sorted(t) && k <= |t|
    requires forall j :: k <= j < |t| ==> Less(w.rec, t[j].rec)
    requires k > 0 ==> !Less(w.rec, t[k - 1].rec)
    ensures Sorted(t[..k] + [w] + t[k..])
    ensures multiset(t[..k] + [w] + t[k..]) == multiset(t) + multiset{w}
  {
    InsertBag(t, k, w);
    var u := t[..k] + [w] + t[k..];
    forall i, j | 0 <= i < j < |u|
      ensures !Less(u[j].rec, u[i].rec)
    {
      if i < k && j == k {
        assert i < k - 1 ==> !Less(t[k - 1].rec, t[i].rec);
      }
    }
  }

  function Padded(fanout: nat, blank: Wrapped, s: seq<Wrapped>): (p: Page)
    requires |s| <= fanout
    ensures |p| == fanout && p[..|s|] == s
  {
    s + BlankPage(fanout - |s|, blank)
  }

  lemma OnePageRun(fanout: nat, page: Page, n: nat)
    requires fanout >= 1 && |page| == fanout && n <= fanout
    ensures PagesOk(fanout, Run([page], 0, n)) && RunRecords(fanout, Run([page], 0, n)) == page[..n]
  {
    forall j: nat | j < n
      ensures PageOf(fanout, j) == 0 && SlotOf(fanout, j) == j
    {
      Locate(fanout, 0, j);
    }
  }

  method SortChunk(fanout: nat, blank: Wrapped, chunk: seq<Wrapped>) returns (run: Run)
    requires 1 <= |chunk| <= fanout
    ensures RunOk(fanout, run) && multiset(RunRecords(fanout, run)) == multiset(chunk)
  {
    var sorted := SortRecords(chunk);
    SameLength(sorted, chunk);
    run := Run([Padded(fanout, blank, sorted)], 0, |chunk|);
    OnePageRun(fanout, run.pages[0], |chunk|);
  }

  lemma RunsSnoc(fanout: nat, runs: seq<Run>, run: Run)
    requires RunsOk(fanout, runs) && RunOk(fanout, run)
    ensures RunsOk(fanout, runs + [run])
    ensures Flatten(Runs(fanout, runs + [run])) == Flatten(Runs(fanout, runs)) + RunRecords(fanout, run)
  {
    assert Runs(fanout, runs + [run]) == Runs(fanout, runs) + [RunRecords(fanout, run)];
    FlattenSnoc(Runs(fanout, runs), RunRecords(fanout, run));
  }

  lemma NoRuns(fanout: nat)
    ensures RunsOk(fanout, []) && Flatten(Runs(fanout, [])) == []
  {
  }

  /** Cuts the buffer into sorted runs of one page each. */
  method CreateSortedRuns(fanout: nat, blank: Wrapped, buffer: seq<Wrapped>) returns (runs: seq<Run>)
    requires fanout >= 1
    ensures RunsOk(fanout, runs) && multiset(Flatten(Runs(fanout, runs))) == multiset(buffer)
  {
    hide RunsOk, RunOk, Runs, RunRecords, PagesOk, Flatten;
    runs := [];
    NoRuns(fanout);
    var start := 0;
    while start < |buffer|
      invariant start <= |buffer| && RunsOk(fanout, runs)
      invariant multiset(Flatten(Runs(fanout, runs))) == multiset(buffer[..start])
    {
      var n := if |buffer| - start < fanout then |buffer| - start else fanout;
      var chunk := buffer[start..start + n];
      var run := SortChunk(fanout, blank, chunk);
      RunsSnoc(fanout, runs, run);
      assert buffer[..start + n] == buffer[..start] + chunk;
      runs := runs + [run];
      start := start + n;
    }
    assert buffer[..start] == buffer;
  }

  lemma SameLength(a: seq<Wrapped>, b: seq<Wrapped>)
    requires multiset(a) == multiset(b)
    ensures |a| == |b|
  {
    assert |multiset(a)| == |multiset(b)|;
  }

  // ---------------------------------------------------------------------------
  // The tree
  // ---------------------------------------------------------------------------

  /** Page `root` is the root of an index over all data pages. */
  ghost predicate Indexes(l: Layout, pages: seq<FilePage>, root: nat) {
    DataOk(l, pages) && root < |pages| && Wf(l, pages, root) && Low(l, pages, root) == 1
        && High(l, pages, root) == l.last
  }

  /** The data pages alone are the lowest level. */
  lemma DataLevel(l: Layout, pages: seq<FilePage>)
    requires DataOk(l, pages)
    ensures LevelOk(l, pages, 1, l.last, 1, l.last)
  {
  }

  lemma RootLevel(l: Layout, pages: seq<FilePage>, p: nat)
    requires LevelOk(l, pages, p, p, 1, l.last)
    ensures Indexes(l, pages, p)
  {
  }

  lemma LevelSep(l: Layout, pages: seq<FilePage>, first: nat, last: nat, p: nat)
    requires LevelOk(l, pages, first, last, 1, l.last) && first <= p <= last
    ensures DataOk(l, pages) && Wf(l, pages, p) && 1 <= p < |pages|
    ensures p <= l.last ==> pages[p].Data? && 1 <= RecordsOn(l, p) <= |pages[p].recs|
                            && Separator(l, pages, p) == pages[p].recs[RecordsOn(l, p) - 1].rec.key
    ensures p > l.last ==> pages[p].Internal? && 1 <= Used(pages[p].child) <= |pages[p].keys|
                           && Separator(l, pages, p) == pages[p].keys[Used(pages[p].child) - 1]
  {
    if p <= l.last {
      assert pages[p].Data?;
    }
  }

  lemma FanoutOk(l: Layout, pages: seq<FilePage>)
    requires DataOk(l, pages)
    ensures l.fanout >= 2 && l.leaf >= 1 && 1 <= l.last < |pages|
  {
  }

  /** Fills one node with children from page c on. */
  method BuildNode(l: Layout, pages: seq<FilePage>, ghost first: nat, last: nat, c: nat)
        returns (node: FilePage, next: nat)
    requires LevelOk(l, pages, first, last, 1, l.last) && DataOk(l, pages) && first <= c <= last
    ensures c < next <= last + 1 && (next - c < l.fanout ==> next == last + 1)
    ensures NodeFor(l, pages, node, c, next - c)
  {
    hide Wf, Separator, DataOk, LevelOk, RecordsOn, Used;
    FanoutOk(l, pages);
    LevelOrder(l, pages, first, last);
    var keys, child := seq(l.fanout, _ => 0), seq(l.fanout, _ => 0);
    next := c;
    var i := 0;
    while i < l.fanout && next <= last
      invariant 0 <= i <= l.fanout && next == c + i <= last + 1
      invariant |keys| == |child| == l.fanout
      invariant forall j :: 0 <= j < i ==> child[j] == c + j
      invariant forall j :: i <= j < l.fanout ==> child[j] == 0
      invariant forall j :: 0 <= j < i ==> KeyFor(l, pages, c + j, keys[j])
    {
      LevelSep(l, pages, first, last, next);
      var key := if next <= l.last then pages[next].recs[RecordsOn(l, next) - 1].rec.key
                 else pages[next].keys[Used(pages[next].child) - 1];
      ghost var before := keys;
      keys, child := keys[i := key], child[i := next];
      forall j | 0 <= j <= i
        ensures KeyFor(l, pages, c + j, keys[j])
      {
        if j < i {
          assert KeyFor(l, pages, c + j, before[j]);
        }
      }
      next, i := next + 1, i + 1;
    }
    node := Internal(keys, child);
  }

  /** The child that the search settles on: the first whose separator reaches the key, or
      the last used one. */
  method ChooseChild(keys: seq<int>, child: seq<nat>, key: int) returns (next: nat, ghost i: nat)
    requires |keys| == |child| && Used(child) >= 1
    ensures Chosen(keys, Used(child), key, i) && next == child[i]
  {
    ghost var n := Used(child);
    next, i := child[0], 0;
    var j := 0;
    while j < |child|
      invariant 0 <= j <= n
      invariant forall m :: 0 <= m < j ==> keys[m] < key
      invariant if j == 0 then i == 0 else i == j - 1
      invariant next == child[i]
    {
      if child[j] == 0 {
        break;
      }
      next, i := child[j], j;
      if key <= keys[j] {
        break;
      }
      j := j + 1;
    }
  }

  /** The records with a key of at least `key`, in order. */
  function KeysFrom(s: seq<Wrapped>, key: int): seq<Wrapped> {
    if s == [] then []
    else if s[0].rec.key >= key then [s[0]] + KeysFrom(s[1..], key)
    else KeysFrom(s[1..], key)
  }

  /** Enumerating from the lower bound on is what a linear scan would find. */
  lemma {:induction false} BoundIsScan(s: seq<Wrapped>, key: int, at: nat)
    requires IsLowerBound(s, key, at)
    ensures (if at <= |s| then s[at..] else []) == KeysFrom(s, key)
  {
    if s != [] {
      var rest, at' := s[1..], if at == 0 then 0 else at - 1;
      forall j | 0 <= j < |rest| ensures rest[j].rec.key >= key <==> at' <= j { assert rest[j] == s[j + 1]; }
      BoundIsScan(rest, key, at');
      if at == 0 {
        assert s[0].rec.key >= key;
        assert s == [s[0]] + rest;
      } else {
        assert s[0].rec.key < key;
        assert at <= |s| ==> s[at..] == rest[at'..];
      }
    }
  }

  class Iterator {
    const leaf: nat
    const pages: seq<FilePage>
    const end: nat
    var idx: nat
    var page: Page
    var pageNum: nat
    ghost const recs: seq<Wrapped>

    ghost predicate Valid()
      reads this
    {
      && end == |recs| && leaf >= 1
      && (forall j: nat :: j < end ==>
            PageOf(leaf, j) + 1 < |pages| && pages[PageOf(leaf, j) + 1].Data?
            && SlotOf(leaf, j) < |pages[PageOf(leaf, j) + 1].recs|
            && pages[PageOf(leaf, j) + 1].recs[SlotOf(leaf, j)] == recs[j])
      && (pageNum >= 1 ==> pageNum < |pages| && pages[pageNum] == Data(page))
    }

    /** What is still to come. */
    ghost function Remaining(): seq<Wrapped>
      reads this
    {
      if idx <= |recs| then recs[idx..] else []
    }

    constructor (leaf: nat, pages: seq<FilePage>, start: nat, end: nat, ghost recs: seq<Wrapped>)
      requires leaf >= 1 && end == |recs|
      requires forall j: nat :: j < end ==>
                 PageOf(leaf, j) + 1 < |pages| && pages[PageOf(leaf, j) + 1].Data?
                 && SlotOf(leaf, j) < |pages[PageOf(leaf, j) + 1].recs|
                 && pages[PageOf(leaf, j) + 1].recs[SlotOf(leaf, j)] == recs[j]
      ensures Valid() && this.recs == recs && idx == start
    {
      this.leaf, this.pages, this.end, this.recs := leaf, pages, end, recs;
      idx, page, pageNum := start, [], 0;
    }

    /** The next record, read through the one cached page. */
    method GetCurrent() returns (w: Option<Wrapped>)
      requires Valid()
      modifies this
      ensures Valid() && idx == old(idx)
      ensures w == if Remaining() == [] then None else Some(Remaining()[0])
    {
      if idx >= end {
        return None;
      }
      var p := PageOf(leaf, idx) + 1;
      if p != pageNum {
        page := pages[p].recs;
        pageNum := p;
      }
      w := Some(page[SlotOf(leaf, idx)]);
    }

    method GetNext() returns (more: bool)
      requires Valid()
      modifies this`idx
      ensures Valid() && idx == old(idx) + 1 && more == (Remaining() != [])
      ensures old(Remaining()) != [] ==> Remaining() == old(Remaining())[1..]
    {
      idx := idx + 1;
      more := idx < end;
    }
  }

  class ISAMTree {
    const nodeSize: nat
    const recSize: nat
    const fanout: nat
    const blank: Wrapped
    var pages: seq<FilePage>
    var rootPage: nat
    var lastDataPage: nat
    var reccnt: nat
    var tombstoneCnt: int
    /** The records of the shard, as the data pages hold them. */
    ghost var recs: seq<Wrapped>

    predicate Sizes() {
      1 <= recSize <= nodeSize && fanout >= 2
    }

    function Leaf(): nat
      requires Sizes()
    {
      nodeSize / recSize
    }

    function Shape(): Layout
      requires Sizes()
      reads this
    {
      Layout(Leaf(), fanout, lastDataPage, reccnt)
    }

    /** The data pages are in place. */
    ghost predicate Loaded()
      reads this
    {
      Sizes() && Sorted(recs) && |recs| == reccnt && (reccnt > 0 ==> Holds(Shape(), pages, recs))
    }

    /** Data pages and index are in place. */
    ghost predicate Valid()
      reads this
    {
      Loaded() && (reccnt > 0 ==> Indexes(Shape(), pages, rootPage))
    }

    /** Builds a shard from the records of a buffer. `tombstones` is the buffer's own count
        of them, which may be off. */
    constructor (nodeSize: nat, recSize: nat, fanout: nat, blank: Wrapped, buffer: seq<Wrapped>, tombstones: nat)
      requires 1 <= recSize <= nodeSize && fanout >= 2
      ensures Valid() && this.nodeSize == nodeSize && this.recSize == recSize && this.fanout == fanout
      ensures Cancelling(buffer, recs) && (Untagged(buffer) ==> SameNet(buffer, recs) && Untagged(recs))
      ensures PairedOff(buffer, recs) && (reccnt == |buffer| <==> forall r :: !BothKinds(buffer, r))
      ensures tombstoneCnt - Tombstones(recs) == tombstones - Tombstones(buffer)
    {
      this.nodeSize, this.recSize, this.fanout, this.blank := nodeSize, recSize, fanout, blank;
      pages, rootPage, lastDataPage, reccnt, tombstoneCnt, recs := [Header], 0, 0, |buffer|, tombstones, [];
      new;
      LeafOk(nodeSize, recSize);
      var runs := CreateSortedRuns(Leaf(), blank, buffer);
      ghost var all := Flatten(Runs(Leaf(), runs));
      SameLength(all, buffer);
      TombstonesPermutation(all, buffer);
      ExternalMergeSort(runs);
      SameCancelling(buffer, all, recs);
      SamePairedOff(buffer, all, recs);
      Index();
      if Untagged(buffer) {
        CancellingKeepsNet(buffer, recs);
      }
    }

    /** Merges shards into a new one. Every shard must have records: the merge reads the
        first record of each. */
    constructor FromShards(nodeSize: nat, recSize: nat, fanout: nat, blank: Wrapped, shards: seq<ISAMTree>)
      requires 1 <= recSize <= nodeSize && fanout >= 2
      requires forall t :: t in shards ==> t.Valid() && t.reccnt > 0 && t.nodeSize == nodeSize && t.recSize == recSize
      ensures Valid() && this.nodeSize == nodeSize && this.recSize == recSize && this.fanout == fanout
      ensures Cancelling(Flatten(Contents(shards)), recs) && PairedOff(Flatten(Contents(shards)), recs)
      ensures reccnt == |Flatten(Contents(shards))| <==> forall r :: !BothKinds(Flatten(Contents(shards)), r)
      ensures Untagged(Flatten(Contents(shards))) ==> SameNet(Flatten(Contents(shards)), recs) && Untagged(recs)
      ensures (forall t :: t in shards ==> t.tombstoneCnt == Tombstones(t.recs)) ==> tombstoneCnt == Tombstones(recs)
    {
      hide Valid, Loaded, RunsOk, Runs, Flatten, Tombstones, Contents, Cancelling, Untagged, SameNet, PairedOff,
           BothKinds;
      var runs, total, tombstones := GatherRuns(nodeSize, recSize, shards);
      this.nodeSize, this.recSize, this.fanout, this.blank := nodeSize, recSize, fanout, blank;
      pages, rootPage, lastDataPage, reccnt, tombstoneCnt, recs := [Header], 0, 0, total, tombstones, [];
      new;
      ExternalMergeSort(runs);
      Index();
      if Untagged(Flatten(Contents(shards))) {
        CancellingKeepsNet(Flatten(Contents(shards)), recs);
      }
    }

    /** Merges the runs into the data pages of this file. */
    method ExternalMergeSort(runs: seq<Run>)
      requires Sizes() && RunsOk(Leaf(), runs) && reccnt == |Flatten(Runs(Leaf(), runs))| && pages == [Header]
      modifies this
      ensures Loaded()
      ensures Cancelling(Flatten(Runs(Leaf(), runs)), recs) && reccnt <= old(reccnt)
      ensures PairedOff(Flatten(Runs(Leaf(), runs)), recs)
      ensures reccnt == old(reccnt) <==> forall r :: !BothKinds(Flatten(Runs(Leaf(), runs)), r)
      ensures tombstoneCnt - Tombstones(recs) == old(tombstoneCnt) - Tombstones(Flatten(Runs(Leaf(), runs)))
      ensures reccnt > 0 ==> |pages| == lastDataPage + 1
    {
      LeafOk(nodeSize, recSize);
      var dp, cancelled, out := MergeRuns(Leaf(), blank, runs);
      pages := pages + DataPages(dp);
      reccnt := reccnt - 2 * cancelled;
      tombstoneCnt := tombstoneCnt - cancelled;
      lastDataPage := if reccnt > 0 then |dp| else 0;
      recs := out;
      if reccnt > 0 {
        PagedHolds(Leaf(), fanout, blank, dp, out);
      }
    }

    method Index()
      requires Loaded() && (reccnt > 0 ==> |pages| == lastDataPage + 1)
      modifies this`pages, this`rootPage
      ensures Valid()
    {
      if reccnt > 0 {
        HoldsData(Shape(), pages, recs);
        FanoutOk(Shape(), pages);
        DataLevel(Shape(), pages);
        ghost var before := pages;
        BuildInternalLevels(1, lastDataPage);
        HoldsFrame(Shape(), before, pages, recs);
      }
    }

    /** Adds levels of internal nodes until one page is left, which becomes the root. */
    method BuildInternalLevels(first: nat, last: nat)
      requires Sizes() && LevelOk(Shape(), pages, first, last, 1, lastDataPage) && |pages| == last + 1
      requires lastDataPage <= last
      modifies this`pages, this`rootPage
      ensures Extends(old(pages), pages) && Indexes(Shape(), pages, rootPage)
      decreases last - first
    {
      hide Wf, Low, High, DataOk, LevelOk, NodeFor, Indexes;
      LevelOrder(Shape(), pages, first, last);
      if first == last {
        rootPage := first;
        RootLevel(Shape(), pages, first);
        return;
      }
      var c := first;
      ghost var l := Shape();
      WritingStart(l, pages, first, last);
      while c <= last
        invariant Shape() == l && first <= c <= last + 1 && Writing(l, pages, first, last, last + 1, c)
        invariant Extends(old(pages), pages)
        decreases last + 1 - c
      {
        WritingLevel(l, pages, first, last, last + 1, c);
        var node, next := BuildNode(Shape(), pages, first, last, c);
        WritingStep(l, pages, node, first, last, last + 1, c, next - c);
        pages := pages + [node];
        c := next;
      }
      WritingDone(l, pages, first, last, last + 1);
      BuildInternalLevels(last + 1, |pages| - 1);
    }

    /** Descends to the data page where a linear search over the pages would stop. */
    method Descend(key: int) returns (now: nat)
      requires Valid() && reccnt > 0
      ensures DataOk(Shape(), pages) && IsTarget(Shape(), pages, key, now)
    {
      ghost var l := Shape();
      HoldsData(l, pages, recs);
      MaximaAscend(l, pages, recs);
      ghost var d := FindTarget(l, pages, key);
      hide Holds, Sorted, Ascending, IsTarget, Low, High, Chosen, DataOk;
      TargetBelowRoot(l, pages, key, rootPage, d);
      now := rootPage;
      while now > lastDataPage
        invariant 1 <= now < |pages| && Wf(l, pages, now)
        invariant Low(l, pages, now) <= d <= High(l, pages, now)
        decreases now
      {
        var next, i := ChooseChild(pages[now].keys, pages[now].child, key);
        DescendKeepsTarget(l, pages, key, now, i, d);
        now := next;
      }
      LeafReached(l, pages, now, d);
    }

    /** The byte offset of the first record with a key of at least `key`. */
    method GetLowerBound(key: int) returns (offset: nat)
      requires Valid() && reccnt > 0
      ensures IsLowerBound(recs, key, RecordIndex(nodeSize, recSize, offset))
    {
      hide Holds, Sorted, IsTarget, DataOk, RecordIndex, IsLowerBound, Indexes, First;
      var now := Descend(key);
      ghost var l := Shape();
      TargetInRange(l, pages, key, now);
      FanoutOk(l, pages);
      PageSpan(l, pages, recs, now);
      var slot := ScanPage(pages[now].recs, key);
      TargetIsBound(l, pages, recs, key, now, slot);
      FirstIs(l, now, slot);
      offset := now * nodeSize + slot * recSize;
      OffsetDecodes(nodeSize, recSize, now, slot);
    }

    /** Reads all records through an iterator. */
    method ReadAll() returns (out: seq<Wrapped>)
      requires Valid()
      ensures out == recs
    {
      hide Holds, Sorted, Indexes, PageOf, SlotOf;
      LeafOk(nodeSize, recSize);
      if reccnt > 0 {
        HoldsSlots(Shape(), pages, recs);
      }
      var it := new Iterator(Leaf(), pages, 0, reccnt, recs);
      out := [];
      while it.idx < reccnt
        invariant fresh(it) && it.Valid() && it.recs == recs && it.idx <= reccnt && out == recs[..it.idx]
        decreases reccnt - it.idx
      {
        var w := it.GetCurrent();
        assert w == Some(recs[it.idx]);
        out := out + [w.value];
        var _ := it.GetNext();
      }
    }

    /** An iterator over exactly the records that a linear scan would find at or above
        `lower`. */
    method GetIterator(lower: int) returns (it: Iterator)
      requires Valid()
      ensures fresh(it) && it.Valid() && it.Remaining() == KeysFrom(recs, lower)
    {
      hide Holds, Sorted, RecordIndex, IsLowerBound, Indexes, PageOf, SlotOf;
      LeafOk(nodeSize, recSize);
      if reccnt == 0 {
        it := new Iterator(Leaf(), pages, 0, 0, recs);
        return;
      }
      var offset := GetLowerBound(lower);
      var start := RecordIndex(nodeSize, recSize, offset);
      HoldsSlots(Shape(), pages, recs);
      it := new Iterator(Leaf(), pages, start, reccnt, recs);
      BoundIsScan(recs, lower, start);
    }
  }

  lemma SamePairedOff(a: seq<Wrapped>, b: seq<Wrapped>, out: seq<Wrapped>)
    requires multiset(a) == multiset(b) && PairedOff(b, out)
    ensures PairedOff(a, out) && forall r :: BothKinds(a, r) == BothKinds(b, r)
  {
    forall r, kind ensures CountOf(a, r, kind) == CountOf(b, r, kind) { CountPermutation(a, b, r, kind); }
  }

  lemma SameCancelling(a: seq<Wrapped>, b: seq<Wrapped>, out: seq<Wrapped>)
    requires multiset(a) == multiset(b) && Cancelling(b, out)
    ensures Cancelling(a, out)
  {
  }

  lemma LeafOk(nodeSize: nat, recSize: nat)
    requires 1 <= recSize <= nodeSize
    ensures nodeSize / recSize >= 1
  {
    var q := nodeSize / recSize;
    assert nodeSize < recSize * (q + 1);
  }

  /** The records of several shards, shard by shard. */
  ghost function Contents(shards: seq<ISAMTree>): (rs: seq<seq<Wrapped>>)
    reads set t | t in shards
    ensures |rs| == |shards| && forall i :: 0 <= i < |rs| ==> rs[i] == shards[i].recs
  {
    if shards == [] then [] else [shards[0].recs] + Contents(shards[1..])
  }

  lemma ContentsSnoc(shards: seq<ISAMTree>, i: nat)
    requires i < |shards|
    ensures Flatten(Contents(shards[..i + 1])) == Flatten(Contents(shards[..i])) + shards[i].recs
    ensures Tombstones(Flatten(Contents(shards[..i + 1])))
            == Tombstones(Flatten(Contents(shards[..i]))) + Tombstones(shards[i].recs)
    ensures forall t :: t in shards[..i + 1] <==> t in shards[..i] || t == shards[i]
  {
    assert shards[..i + 1] == shards[..i] + [shards[i]];
    assert Contents(shards[..i + 1]) == Contents(shards[..i]) + [shards[i].recs];
    FlattenSnoc(Contents(shards[..i]), shards[i].recs);
    TombstonesConcat(Flatten(Contents(shards[..i])), shards[i].recs);
  }

  /** The runs of several shards, with their total of records and of counted tombstones. */
  method GatherRuns(nodeSize: nat, recSize: nat, shards: seq<ISAMTree>)
        returns (runs: seq<Run>, total: nat, tombstones: int)
    requires 1 <= recSize <= nodeSize
    requires forall t :: t in shards ==> t.Valid() && t.reccnt > 0 && t.nodeSize == nodeSize && t.recSize == recSize
    ensures RunsOk(nodeSize / recSize, runs)
    ensures Flatten(Runs(nodeSize / recSize, runs)) == Flatten(Contents(shards)) && total == |Flatten(Contents(shards))|
    ensures (forall t :: t in shards ==> t.tombstoneCnt == Tombstones(t.recs)) ==>
              tombstones == Tombstones(Flatten(Contents(shards)))
  {
    var leaf := nodeSize / recSize;
    hide RunsOk, RunOk, Runs, RunRecords, PagesOk, Holds, Indexes, Flatten, Sorted, Tombstones;
    runs, total, tombstones := [], 0, 0;
    NoRuns(leaf);
    NoContents();
    for i := 0 to |shards|
      invariant RunsOk(leaf, runs) && Flatten(Runs(leaf, runs)) == Flatten(Contents(shards[..i]))
      invariant total == |Flatten(Contents(shards[..i]))|
      invariant (forall t :: t in shards[..i] ==> t.tombstoneCnt == Tombstones(t.recs)) ==>
                  tombstones == Tombstones(Flatten(Contents(shards[..i])))
    {
      var run := AsRun(shards[i]);
      RunsSnoc(leaf, runs, run);
      ContentsSnoc(shards, i);
      runs := runs + [run];
      total, tombstones := total + shards[i].reccnt, tombstones + shards[i].tombstoneCnt;
    }
    assert shards[..|shards|] == shards;
  }

  lemma NoContents()
    ensures Flatten(Contents([])) == [] && Tombstones([]) == 0
  {
  }

  /** A shard read as a run: its data starts at page 1. */
  method AsRun(t: ISAMTree) returns (run: Run)
    requires t.Valid() && t.reccnt > 0
    ensures RunOk(t.Leaf(), run) && RunRecords(t.Leaf(), run) == t.recs
  {
    LeafOk(t.nodeSize, t.recSize);
    HoldsData(t.Shape(), t.pages, t.recs);
    FanoutOk(t.Shape(), t.pages);
    var leaf, pages, last, blank := t.Leaf(), t.pages, t.lastDataPage, t.blank;
    run := Run(seq(last + 1, p requires 0 <= p <= last =>
                 if p >= 1 && p < |pages| && pages[p].Data? then pages[p].recs else BlankPage(leaf, blank)),
               1, t.reccnt);
    forall p | 0 <= p <= last ensures |run.pages[p]| == leaf { var page := pages[p]; }
    HoldsSlots(t.Shape(), t.pages, t.recs);
    assert RunRecords(leaf, run) == t.recs;
  }

  lemma HoldsSlots(l: Layout, pages: seq<FilePage>, out: seq<Wrapped>)
    requires Holds(l, pages, out)
    ensures forall j: nat :: j < |out| ==>
              PageOf(l.leaf, j) + 1 <= l.last < |pages| && pages[PageOf(l.leaf, j) + 1].Data?
              && SlotOf(l.leaf, j) < |pages[PageOf(l.leaf, j) + 1].recs|
              && pages[PageOf(l.leaf, j) + 1].recs[SlotOf(l.leaf, j)] == out[j]
  {
    forall j: nat | j < |out|
      ensures PageOf(l.leaf, j) + 1 <= l.last < |pages| && pages[PageOf(l.leaf, j) + 1].Data?
      ensures SlotOf(l.leaf, j) < |pages[PageOf(l.leaf, j) + 1].recs|
      ensures pages[PageOf(l.leaf, j) + 1].recs[SlotOf(l.leaf, j)] == out[j]
    {
      var w := out[j];
    }
  }

  lemma HoldsFrame(l: Layout, a: seq<FilePage>, b: seq<FilePage>, out: seq<Wrapped>)
    requires Holds(l, a, out) && Extends(a, b)
    ensures Holds(l, b, out)
  {
    DataFrame(l, a, b);
    HoldsSlots(l, a, out);
  }

  lemma LevelOrder(l: Layout, pages: seq<FilePage>, first: nat, last: nat)
    requires LevelOk(l, pages, first, last, 1, l.last)
    ensures 1 <= first <= last < |pages| && DataOk(l, pages)
  {
  }

  lemma WritingStart(l: Layout, pages: seq<FilePage>, first: nat, last: nat)
    requires LevelOk(l, pages, first, last, 1, l.last) && l.last <= last && |pages| == last + 1
    ensures Writing(l, pages, first, last, last + 1, first)
  {
  }

  lemma WritingLevel(l: Layout, pages: seq<FilePage>, first: nat, last: nat, start: nat, c: nat)
    requires Writing(l, pages, first, last, start, c)
    ensures LevelOk(l, pages, first, last, 1, l.last) && DataOk(l, pages)
  {
  }

  /** The level just written is shorter than the one below it. */
  lemma WritingDone(l: Layout, pages: seq<FilePage>, first: nat, last: nat, start: nat)
    requires Writing(l, pages, first, last, start, last + 1) && first < last
    ensures LevelOk(l, pages, start, |pages| - 1, 1, l.last) && l.last <= |pages| - 1
    ensures |pages| - 1 - start < last - first
  {
  }

  /** Linear search over the data pages. */
  lemma FindTarget(l: Layout, pages: seq<FilePage>, key: int) returns (d: nat)
    requires DataOk(l, pages)
    ensures IsTarget(l, pages, key, d)
  {
    d := 1;
    while d < l.last && DataMax(l, pages, d) < key
      invariant 1 <= d <= l.last && forall e :: 1 <= e < d ==> DataMax(l, pages, e) < key
    {
      d := d + 1;
    }
  }

  lemma TargetBelowRoot(l: Layout, pages: seq<FilePage>, key: int, root: nat, d: nat)
    requires Indexes(l, pages, root) && IsTarget(l, pages, key, d)
    ensures 1 <= root < |pages| && Wf(l, pages, root) && Low(l, pages, root) <= d <= High(l, pages, root)
  {
  }

  lemma LeafReached(l: Layout, pages: seq<FilePage>, now: nat, d: nat)
    requires DataOk(l, pages) && 1 <= now <= l.last && Low(l, pages, now) <= d <= High(l, pages, now)
    ensures d == now && pages[now].Data? && |pages[now].recs| == l.leaf
  {
    var p := pages[now];
  }

  lemma FirstIs(l: Layout, d: nat, s: nat)
    requires d >= 1
    ensures First(l, d) + s == (d - 1) * l.leaf + s
  {
  }

  /** The first slot whose key reaches `key`, blanks included. */
  method ScanPage(recs: Page, key: int) returns (s: nat)
    ensures Stops(recs, key, s)
  {
    s := 0;
    while s < |recs| && recs[s].rec.key < key
      invariant s <= |recs| && forall i :: 0 <= i < s ==> recs[i].rec.key < key
    {
      s := s + 1;
    }
  }
}
