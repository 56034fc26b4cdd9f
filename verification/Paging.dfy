/** Records laid out in pages of equal size. */
module Paging {
  import opened Records
  import opened Numerals

  type Page = seq<Wrapped>

  function PageOf(fanout: nat, j: nat): nat
    requires fanout >= 1
  {
    j / fanout
  }

  function SlotOf(fanout: nat, j: nat): (s: nat)
    requires fanout >= 1
    ensures s < fanout
  {
    j % fanout
  }

  lemma Locate(fanout: nat, p: nat, s: nat)
    requires s < fanout
    ensures PageOf(fanout, fanout * p + s) == p && SlotOf(fanout, fanout * p + s) == s
  {
    DivUnique(fanout, fanout * p + s, p, s);
  }

  lemma Position(fanout: nat, j: nat)
    requires fanout >= 1
    ensures j == fanout * PageOf(fanout, j) + SlotOf(fanout, j)
  {
  }

  /** Within a page the page number stays; past its last slot comes the next page. */
  lemma NextSlot(fanout: nat, j: nat)
    requires fanout >= 1
    ensures SlotOf(fanout, j) + 1 < fanout ==>
              PageOf(fanout, j + 1) == PageOf(fanout, j) && SlotOf(fanout, j + 1) == SlotOf(fanout, j) + 1
    ensures SlotOf(fanout, j) + 1 == fanout ==>
              PageOf(fanout, j + 1) == PageOf(fanout, j) + 1 && SlotOf(fanout, j + 1) == 0
  {
    hide PageOf, SlotOf;
    var p, s := PageOf(fanout, j), SlotOf(fanout, j);
    Position(fanout, j);
    if s + 1 < fanout {
      Locate(fanout, p, s + 1);
    } else {
      assert fanout * (p + 1) + 0 == j + 1;
      Locate(fanout, p + 1, 0);
    }
  }

  lemma PageMonotone(fanout: nat, i: nat, j: nat)
    requires fanout >= 1 && i <= j
    ensures PageOf(fanout, i) <= PageOf(fanout, j)
    decreases j - i
  {
    if i < j {
      PageMonotone(fanout, i, j - 1);
      NextSlot(fanout, j - 1);
    }
  }

  ghost predicate FullPages(fanout: nat, pages: seq<Page>) {
    forall p :: 0 <= p < |pages| ==> |pages[p]| == fanout
  }

  /** Full pages, read one after the other, have record j at page j / fanout. */
  lemma {:induction false} FlattenAt(fanout: nat, pages: seq<Page>, p: nat, s: nat)
    requires FullPages(fanout, pages) && p < |pages| && s < fanout
    ensures |Flatten(pages)| == fanout * |pages| && fanout * p + s < |Flatten(pages)|
    ensures Flatten(pages)[fanout * p + s] == pages[p][s]
  {
    FlattenLength(fanout, pages);
    FlattenLength(fanout, pages[..p]);
    FlattenLength(fanout, pages[p + 1..]);
    FlattenSplit(pages, p);
    assert fanout * |pages| == fanout * p + (fanout + fanout * (|pages| - p - 1));
  }

  lemma {:induction false} FlattenLength(fanout: nat, pages: seq<Page>)
    requires FullPages(fanout, pages)
    ensures |Flatten(pages)| == fanout * |pages|
  {
    if pages != [] {
      assert forall p :: 0 <= p < |pages[1..]| ==> pages[1..][p] == pages[p + 1];
      FlattenLength(fanout, pages[1..]);
    }
  }
}
