/** The static index over sorted data pages: what a well-formed index file says, and why
    descending it agrees with looking at every page. */
module ExternalIndex {
  import opened Paging

  /** A page of the index file. Unused entries of an internal node are zero. */
  datatype FilePage =
    | Header
    | Data(recs: Page)
    | Internal(keys: seq<int>, child: seq<nat>)

  /** The sizes of a file: records to a data page, children to a node, the number of the
      last data page (the first is 1) and the number of records. */
  datatype Layout = Layout(leaf: nat, fanout: nat, last: nat, reccnt: nat)

  /** How many records data page d really holds. */
  function RecordsOn(l: Layout, d: nat): nat
    requires 1 <= d <= l.last
  {
    var before := l.leaf * (d - 1);
    if before >= l.reccnt then 0 else if l.reccnt - before < l.leaf then l.reccnt - before else l.leaf
  }

  ghost predicate DataOk(l: Layout, pages: seq<FilePage>) {
    && 1 <= l.last < |pages| && l.leaf >= 1 && l.fanout >= 2
    && forall d {:trigger pages[d]} :: 1 <= d <= l.last ==>
         pages[d].Data? && |pages[d].recs| == l.leaf && RecordsOn(l, d) >= 1
  }

  /** The largest key on a data page: that of its last real record. */
  function DataMax(l: Layout, pages: seq<FilePage>, d: nat): int
    requires DataOk(l, pages) && 1 <= d <= l.last
  {
    pages[d].recs[RecordsOn(l, d) - 1].rec.key
  }

  function Used(child: seq<nat>): (n: nat)
    ensures n <= |child| && (forall i :: 0 <= i < n ==> child[i] != 0) && (n < |child| ==> child[n] == 0)
  {
    if child == [] || child[0] == 0 then 0 else 1 + Used(child[1..])
  }

  /** The node on page p has children only on earlier pages. */
  ghost predicate NodeOk(l: Layout, pages: seq<FilePage>, p: nat) {
    && l.last < p < |pages| && pages[p].Internal?
    && |pages[p].keys| == |pages[p].child| == l.fanout && Used(pages[p].child) >= 1
    && forall i :: 0 <= i < Used(pages[p].child) ==> 1 <= pages[p].child[i] < p
  }

  /** The first and the last data page below page p. */
  ghost function Low(l: Layout, pages: seq<FilePage>, p: nat): nat {
    if p <= l.last || !NodeOk(l, pages, p) then p else Low(l, pages, pages[p].child[0])
  }

  ghost function High(l: Layout, pages: seq<FilePage>, p: nat): nat {
    if p <= l.last || !NodeOk(l, pages, p) then p else High(l, pages, pages[p].child[Used(pages[p].child) - 1])
  }

  /** The key that stands for page p in its parent. */
  function Separator(l: Layout, pages: seq<FilePage>, p: nat): int
    requires DataOk(l, pages) && 1 <= p
  {
    if p <= l.last then DataMax(l, pages, p)
    else if p < |pages| && pages[p].Internal? && 1 <= Used(pages[p].child) <= |pages[p].keys| then
      pages[p].keys[Used(pages[p].child) - 1]
    else 0
  }

  /** Page p is the root of a well-formed subtree. */
  ghost predicate Wf(l: Layout, pages: seq<FilePage>, p: nat)
    requires DataOk(l, pages)
    decreases p
  {
    && 1 <= p
    && (p > l.last ==>
          && NodeOk(l, pages, p)
          && var node := pages[p];
             var n := Used(node.child);
             && (forall i :: 0 <= i < n ==>
                   1 <= node.child[i] && Wf(l, pages, node.child[i])
                   && node.keys[i] == Separator(l, pages, node.child[i]))
             && (forall i :: 0 <= i < n - 1 ==> High(l, pages, node.child[i]) + 1 == Low(l, pages, node.child[i + 1])))
  }

  /** Every separator is the maximum key of the pages below. */
  lemma {:induction false} SeparatorIsMax(l: Layout, pages: seq<FilePage>, p: nat)
    requires DataOk(l, pages) && Wf(l, pages, p)
    ensures 1 <= High(l, pages, p) <= l.last && 1 <= Low(l, pages, p) <= l.last
    ensures Separator(l, pages, p) == DataMax(l, pages, High(l, pages, p))
    decreases p
  {
    if p > l.last {
      var n := Used(pages[p].child);
      SeparatorIsMax(l, pages, pages[p].child[n - 1]);
      SeparatorIsMax(l, pages, pages[p].child[0]);
    }
  }

  // ---------------------------------------------------------------------------
  // Growing the file
  // ---------------------------------------------------------------------------

  ghost predicate Extends(a: seq<FilePage>, b: seq<FilePage>) {
    |a| <= |b| && forall p :: 0 <= p < |a| ==> b[p] == a[p]
  }

  lemma DataFrame(l: Layout, a: seq<FilePage>, b: seq<FilePage>)
    requires DataOk(l, a) && Extends(a, b)
    ensures DataOk(l, b)
  {
    forall d | 1 <= d <= l.last
      ensures b[d].Data? && |b[d].recs| == l.leaf && RecordsOn(l, d) >= 1
    {
      assert b[d] == a[d];
    }
  }

  /** Pages appended later do not change a subtree. */
  lemma {:induction false} WfFrame(l: Layout, a: seq<FilePage>, b: seq<FilePage>, p: nat)
    requires DataOk(l, a) && DataOk(l, b) && Extends(a, b) && Wf(l, a, p) && p < |a|
    ensures Wf(l, b, p) && Low(l, a, p) == Low(l, b, p) && High(l, a, p) == High(l, b, p)
    ensures Separator(l, a, p) == Separator(l, b, p)
    decreases p
  {
    if p > l.last {
      var n := Used(a[p].child);
      forall i | 0 <= i < n
        ensures Wf(l, b, a[p].child[i]) && Separator(l, a, a[p].child[i]) == Separator(l, b, a[p].child[i])
        ensures Low(l, a, a[p].child[i]) == Low(l, b, a[p].child[i])
        ensures High(l, a, a[p].child[i]) == High(l, b, a[p].child[i])
      {
        WfFrame(l, a, b, a[p].child[i]);
      }
    }
  }

  /** The pages first, ..., last of one level cover the data pages from..to in order. */
  ghost predicate LevelOk(l: Layout, pages: seq<FilePage>, first: nat, last: nat, from: nat, to: nat) {
    && DataOk(l, pages) && 1 <= first <= last < |pages|
    && (forall p :: first <= p <= last ==> Wf(l, pages, p))
    && (forall p :: first <= p < last ==> High(l, pages, p) + 1 == Low(l, pages, p + 1))
    && Low(l, pages, first) == from && High(l, pages, last) == to
  }

  lemma LevelFrame(l: Layout, a: seq<FilePage>, b: seq<FilePage>, first: nat, last: nat, from: nat, to: nat)
    requires LevelOk(l, a, first, last, from, to) && Extends(a, b)
    ensures LevelOk(l, b, first, last, from, to)
  {
    DataFrame(l, a, b);
    forall p | first <= p <= last
      ensures Wf(l, b, p) && Low(l, a, p) == Low(l, b, p) && High(l, a, p) == High(l, b, p)
    {
      WfFrame(l, a, b, p);
    }
  }

  // ---------------------------------------------------------------------------
  // Descending
  // ---------------------------------------------------------------------------

  /** Data pages in order: the maxima do not decrease. */
  ghost predicate Ascending(l: Layout, pages: seq<FilePage>)
    requires DataOk(l, pages)
  {
    forall d, e :: 1 <= d <= e <= l.last ==> DataMax(l, pages, d) <= DataMax(l, pages, e)
  }

  /** The page where a linear search for `key` stops: the first whose maximum reaches it,
      or the last page of all. */
  ghost predicate IsTarget(l: Layout, pages: seq<FilePage>, key: int, d: nat)
    requires DataOk(l, pages)
  {
    && 1 <= d <= l.last
    && (forall e :: 1 <= e < d ==> DataMax(l, pages, e) < key)
    && (d < l.last ==> key <= DataMax(l, pages, d))
  }

  /** The child that the search loop settles on. */
  ghost predicate Chosen(keys: seq<int>, n: nat, key: int, i: nat) {
    && i < n <= |keys|
    && (forall j :: 0 <= j < i ==> keys[j] < key)
    && (i < n - 1 ==> key <= keys[i])
  }

  /** Descending into the chosen child keeps the target page below. */
  lemma DescendKeepsTarget(l: Layout, pages: seq<FilePage>, key: int, p: nat, i: nat, d: nat)
    requires DataOk(l, pages) && Ascending(l, pages) && Wf(l, pages, p) && p > l.last
    requires IsTarget(l, pages, key, d) && Low(l, pages, p) <= d <= High(l, pages, p)
    requires Chosen(pages[p].keys, Used(pages[p].child), key, i)
    ensures Wf(l, pages, pages[p].child[i]) && 1 <= pages[p].child[i] < p
    ensures Low(l, pages, pages[p].child[i]) <= d <= High(l, pages, pages[p].child[i])
  {
    var node := pages[p];
    var n := Used(node.child);
    var c := node.child[i];
    SeparatorIsMax(l, pages, c);
    if i > 0 {
      var b := node.child[i - 1];
      SeparatorIsMax(l, pages, b);
      assert node.keys[i - 1] < key;
      assert d > High(l, pages, b);
    }
    if i < n - 1 {
      assert key <= DataMax(l, pages, High(l, pages, c));
    }
  }
}
