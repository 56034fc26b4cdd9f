/** From pages to records: the data pages of an index file hold one sorted sequence, and the
    page search plus the slot search is the lower bound in it. */
module ExternalSearch {
  import opened Records
  import opened Paging
  import opened Numerals
  import opened ExternalMerge
  import opened ExternalIndex

  /** The data pages hold `out`, in order, from page 1 on. */
  ghost predicate Holds(l: Layout, pages: seq<FilePage>, out: seq<Wrapped>) {
    && DataOk(l, pages) && l.reccnt == |out|
    && l.leaf * (l.last - 1) < l.reccnt <= l.leaf * l.last
    && (forall j: nat {:trigger out[j]} :: j < l.reccnt ==>
          PageOf(l.leaf, j) < l.last && pages[PageOf(l.leaf, j) + 1].recs[SlotOf(l.leaf, j)] == out[j])
  }

  function DataPages(pages: seq<Page>): (f: seq<FilePage>)
    ensures |f| == |pages| && forall p :: 0 <= p < |f| ==> f[p] == Data(pages[p])
  {
    seq(|pages|, p requires 0 <= p < |pages| => Data(pages[p]))
  }

  lemma PageBelow(leaf: nat, j: nat, n: nat)
    requires leaf >= 1 && j < leaf * n
    ensures PageOf(leaf, j) < n
  {
    Position(leaf, j);
    var p := PageOf(leaf, j);
    if p >= n {
      MulLess(leaf, n, p);
    }
  }

  /** The number of the first record of data page d. */
  function First(l: Layout, d: nat): nat
    requires d >= 1
  {
    l.leaf * (d - 1)
  }

  lemma FirstNext(l: Layout, d: nat, e: nat)
    requires 1 <= d <= e
    ensures First(l, d) <= First(l, e) && First(l, d + 1) == First(l, d) + l.leaf
  {
    MulLess(l.leaf, d - 1, e - 1);
  }

  lemma PositiveFactor(a: nat, b: nat)
    requires a * b > 0
    ensures b > 0
  {
  }

  lemma MulLess(leaf: nat, a: nat, b: nat)
    requires a <= b
    ensures leaf * a <= leaf * b
  {
    assert leaf * b == leaf * a + leaf * (b - a);
  }

  /** What the merge wrote is what the file holds. */
  lemma PagedHolds(leaf: nat, fanout: nat, blank: Wrapped, dp: seq<Page>, out: seq<Wrapped>)
    requires fanout >= 2 && out != [] && Paged(leaf, blank, dp, out)
    ensures Holds(Layout(leaf, fanout, |dp|, |out|), [Header] + DataPages(dp), out)
  {
    var l, pages := Layout(leaf, fanout, |dp|, |out|), [Header] + DataPages(dp);
    PositiveFactor(leaf, |dp|);
    forall d | 1 <= d <= l.last
      ensures pages[d].Data? && |pages[d].recs| == l.leaf && RecordsOn(l, d) >= 1
    {
      assert pages[d] == Data(dp[d - 1]);
      MulLess(leaf, d - 1, |dp| - 1);
    }
    forall j: nat | j < l.reccnt
      ensures PageOf(leaf, j) < l.last && pages[PageOf(leaf, j) + 1].recs[SlotOf(leaf, j)] == out[j]
    {
      PageBelow(leaf, j, |dp|);
      Position(leaf, j);
      FlattenAt(leaf, dp, PageOf(leaf, j), SlotOf(leaf, j));
      assert pages[PageOf(leaf, j) + 1] == Data(dp[PageOf(leaf, j)]);
    }
  }

  /** The records at or above `key` are those from position `at` on. */
  ghost predicate IsLowerBound(out: seq<Wrapped>, key: int, at: nat) {
    forall j :: 0 <= j < |out| ==> (out[j].rec.key >= key <==> at <= j)
  }

  /** Slot s of data page d is record number First(d) + s. */
  lemma SlotRecord(l: Layout, pages: seq<FilePage>, out: seq<Wrapped>, d: nat, s: nat)
    requires Holds(l, pages, out) && 1 <= d <= l.last && s < RecordsOn(l, d)
    ensures First(l, d) + s < |out| && pages[d].Data? && s < |pages[d].recs| && pages[d].recs[s] == out[First(l, d) + s]
  {
    var j := l.leaf * (d - 1) + s;
    Locate(l.leaf, d - 1, s);
    assert out[j] == pages[PageOf(l.leaf, j) + 1].recs[SlotOf(l.leaf, j)];
  }

  /** A data page holds the records from its first one up to the next page's, or the end. */
  lemma PageSpan(l: Layout, pages: seq<FilePage>, out: seq<Wrapped>, d: nat)
    requires Holds(l, pages, out) && 1 <= d <= l.last
    ensures 1 <= RecordsOn(l, d) <= l.leaf && pages[d].Data? && |pages[d].recs| == l.leaf
    ensures d < l.last ==> RecordsOn(l, d) == l.leaf && First(l, d + 1) == First(l, d) + l.leaf < |out|
    ensures d == l.last ==> First(l, d) + RecordsOn(l, d) == |out|
  {
    assert pages[d].Data?;
    FirstNext(l, d, d);
    if d < l.last {
      MulLess(l.leaf, d, l.last - 1);
    }
  }

  lemma MaxRecord(l: Layout, pages: seq<FilePage>, out: seq<Wrapped>, d: nat) returns (m: nat)
    requires Holds(l, pages, out) && 1 <= d <= l.last
    ensures First(l, d) <= m == First(l, d) + RecordsOn(l, d) - 1 < |out| && DataMax(l, pages, d) == out[m].rec.key
  {
    PageSpan(l, pages, out, d);
    SlotRecord(l, pages, out, d, RecordsOn(l, d) - 1);
    m := First(l, d) + RecordsOn(l, d) - 1;
  }

  lemma SortedKeys(out: seq<Wrapped>, i: nat, j: nat)
    requires Sorted(out) && i <= j < |out|
    ensures out[i].rec.key <= out[j].rec.key
  {
    if i < j {
      assert !Less(out[j].rec, out[i].rec);
    }
  }

  lemma MaximaAscend(l: Layout, pages: seq<FilePage>, out: seq<Wrapped>)
    requires Holds(l, pages, out) && Sorted(out)
    ensures Ascending(l, pages)
  {
    forall d, e | 1 <= d <= e <= l.last
      ensures DataMax(l, pages, d) <= DataMax(l, pages, e)
    {
      hide Holds, First, Sorted, RecordsOn, DataMax;
      HoldsData(l, pages, out);
      var m := MaxRecord(l, pages, out, d);
      var n := MaxRecord(l, pages, out, e);
      PageSpan(l, pages, out, d);
      if d < e {
        FirstNext(l, d + 1, e);
      }
      SortedKeys(out, m, n);
    }
  }

  lemma HoldsData(l: Layout, pages: seq<FilePage>, out: seq<Wrapped>)
    requires Holds(l, pages, out)
    ensures DataOk(l, pages) && l.reccnt == |out| > 0
  {
  }

  /** The slot where the scan of a data page stops: blanks are looked at like records. */
  ghost predicate Stops(recs: Page, key: int, s: nat) {
    && s <= |recs|
    && (forall i :: 0 <= i < s ==> recs[i].rec.key < key)
    && (s < |recs| ==> recs[s].rec.key >= key)
  }

  /** Records on earlier pages than the target are smaller than the key. */
  lemma BelowTarget(l: Layout, pages: seq<FilePage>, out: seq<Wrapped>, key: int, d: nat, j: nat)
    requires Holds(l, pages, out) && DataOk(l, pages) && Sorted(out) && IsTarget(l, pages, key, d)
    requires j < |out| && j < First(l, d)
    ensures out[j].rec.key < key
  {
    hide Holds, Sorted, RecordsOn, DataMax, PageOf, SlotOf, DataOk;
    var e := d - 1;
    FirstNext(l, e, e);
    var m := MaxRecord(l, pages, out, e);
    PageSpan(l, pages, out, e);
    SortedKeys(out, j, m);
  }

  /** The target page and the slot where its scan stops make the lower bound. */
  lemma TargetIsBound(l: Layout, pages: seq<FilePage>, out: seq<Wrapped>, key: int, d: nat, s: nat)
    requires Holds(l, pages, out) && DataOk(l, pages) && Sorted(out) && IsTarget(l, pages, key, d)
    requires pages[d].Data? && Stops(pages[d].recs, key, s)
    ensures IsLowerBound(out, key, First(l, d) + s)
  {
    forall j | 0 <= j < |out|
      ensures out[j].rec.key >= key <==> First(l, d) + s <= j
    {
      if j < First(l, d) {
        BelowTarget(l, pages, out, key, d, j);
      } else if j < First(l, d) + s {
        BeforeStop(l, pages, out, key, d, s, j);
      } else {
        AfterStop(l, pages, out, key, d, s, j);
      }
    }
  }

  /** The scan of the target page goes past its last record only on the last page. */
  lemma StopsInTime(l: Layout, pages: seq<FilePage>, out: seq<Wrapped>, key: int, d: nat, s: nat)
    requires Holds(l, pages, out) && DataOk(l, pages) && IsTarget(l, pages, key, d)
    requires pages[d].Data? && Stops(pages[d].recs, key, s)
    ensures s < RecordsOn(l, d) || d == l.last
  {
    PageSpan(l, pages, out, d);
    assert d < l.last ==> key <= pages[d].recs[RecordsOn(l, d) - 1].rec.key;
  }

  lemma BeforeStop(l: Layout, pages: seq<FilePage>, out: seq<Wrapped>, key: int, d: nat, s: nat, j: nat)
    requires Holds(l, pages, out) && DataOk(l, pages) && Sorted(out) && IsTarget(l, pages, key, d)
    requires pages[d].Data? && Stops(pages[d].recs, key, s) && First(l, d) <= j < First(l, d) + s && j < |out|
    ensures out[j].rec.key < key
  {
    hide Holds, Sorted, RecordsOn, First, DataOk, IsTarget;
    StopsInTime(l, pages, out, key, d, s);
    TargetInRange(l, pages, key, d);
    PageSpan(l, pages, out, d);
    SlotRecord(l, pages, out, d, j - First(l, d));
  }

  lemma TargetInRange(l: Layout, pages: seq<FilePage>, key: int, d: nat)
    requires DataOk(l, pages) && IsTarget(l, pages, key, d)
    ensures 1 <= d <= l.last
  {
  }

  lemma AfterStop(l: Layout, pages: seq<FilePage>, out: seq<Wrapped>, key: int, d: nat, s: nat, j: nat)
    requires Holds(l, pages, out) && DataOk(l, pages) && Sorted(out) && IsTarget(l, pages, key, d)
    requires pages[d].Data? && Stops(pages[d].recs, key, s) && First(l, d) + s <= j < |out|
    ensures out[j].rec.key >= key
  {
    hide Holds, Sorted, RecordsOn, First, DataOk, IsTarget;
    StopsInTime(l, pages, out, key, d, s);
    TargetInRange(l, pages, key, d);
    PageSpan(l, pages, out, d);
    SlotRecord(l, pages, out, d, s);
    SortedKeys(out, First(l, d) + s, j);
  }

  function Slots(pages: nat, leaf: nat): nat {
    pages * leaf
  }

  /** The record number that the iterator makes of a byte offset. */
  function RecordIndex(nodeSize: nat, recSize: nat, offset: nat): nat
    requires 1 <= recSize <= nodeSize
  {
    if offset / nodeSize == 0 then 0
    else Slots(offset / nodeSize - 1, nodeSize / recSize) + (offset % nodeSize) / recSize
  }

  /** The byte offset that the search returns, taken apart again by the iterator. A bound
      past the last slot is the first slot of the next page, whether or not the records fill
      the page exactly. */
  lemma OffsetDecodes(nodeSize: nat, recSize: nat, page: nat, slot: nat)
    requires 1 <= recSize <= nodeSize && page >= 1 && slot <= nodeSize / recSize
    ensures RecordIndex(nodeSize, recSize, page * nodeSize + slot * recSize) == (page - 1) * (nodeSize / recSize) + slot
  {
    var offset, leaf := page * nodeSize + slot * recSize, nodeSize / recSize;
    assert leaf * recSize <= nodeSize;
    if slot * recSize < nodeSize {
      DivUnique(nodeSize, offset, page, slot * recSize);
      DivUnique(recSize, slot * recSize, slot, 0);
    } else {
      FullPage(nodeSize, recSize, slot);
      assert offset == (page + 1) * nodeSize + 0;
      DivUnique(nodeSize, offset, page + 1, 0);
      DivUnique(recSize, 0, 0, 0);
      assert page * leaf == (page - 1) * leaf + leaf;
    }
  }

  lemma FullPage(nodeSize: nat, recSize: nat, slot: nat)
    requires 1 <= recSize <= nodeSize && slot <= nodeSize / recSize && slot * recSize >= nodeSize
    ensures slot == nodeSize / recSize && slot * recSize == nodeSize
  {
    var leaf := nodeSize / recSize;
    assert leaf * recSize <= nodeSize;
    assert leaf * recSize == slot * recSize + (leaf - slot) * recSize;
  }
}
