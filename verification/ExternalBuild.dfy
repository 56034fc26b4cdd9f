/** Building the internal levels of an index file, one page at a time. */
module ExternalBuild {
  import opened ExternalIndex

  /** `key` stands for the subtree at page p. */
  ghost predicate KeyFor(l: Layout, pages: seq<FilePage>, p: nat, key: int)
    requires DataOk(l, pages)
  {
    1 <= p && Wf(l, pages, p) && key == Separator(l, pages, p)
  }

  /** `node` has the n children c, c + 1, ... and their separators, and is zero beyond. */
  ghost predicate NodeFor(l: Layout, pages: seq<FilePage>, node: FilePage, c: nat, n: nat)
    requires DataOk(l, pages)
  {
    && node.Internal? && |node.keys| == |node.child| == l.fanout && 1 <= n <= l.fanout && 1 <= c
    && (forall i :: 0 <= i < n ==> node.child[i] == c + i)
    && (n < l.fanout ==> node.child[n] == 0)
    && (forall i :: 0 <= i < n ==> KeyFor(l, pages, c + i, node.keys[i]))
  }

  lemma {:induction false} UsedIs(child: seq<nat>, n: nat)
    requires n <= |child| && (forall i :: 0 <= i < n ==> child[i] != 0) && (n < |child| ==> child[n] == 0)
    ensures Used(child) == n
  {
    if n > 0 {
      UsedIs(child[1..], n - 1);
    }
  }

  lemma ChildFrame(l: Layout, a: seq<FilePage>, node: FilePage, c: nat, n: nat, i: nat)
    requires DataOk(l, a) && NodeFor(l, a, node, c, n) && c + n - 1 < |a| && i < n
    ensures var b := a + [node];
            && DataOk(l, b) && Wf(l, b, node.child[i]) && node.keys[i] == Separator(l, b, node.child[i])
            && Low(l, b, c + i) == Low(l, a, c + i) && High(l, b, c + i) == High(l, a, c + i)
  {
    hide Wf, Low, High, DataOk, Separator, DataMax;
    var b := a + [node];
    DataFrame(l, a, b);
    assert KeyFor(l, a, c + i, node.keys[i]);
    WfFrame(l, a, b, c + i);
  }

  /** Appending a node for consecutive pages of a level gives a subtree over what they
      cover. */
  lemma NodeIsWf(l: Layout, a: seq<FilePage>, node: FilePage, c: nat, n: nat)
    requires DataOk(l, a) && NodeFor(l, a, node, c, n) && c + n - 1 < |a| && l.last < |a|
    requires forall p :: c <= p < c + n - 1 ==> High(l, a, p) + 1 == Low(l, a, p + 1)
    ensures var b := a + [node];
            DataOk(l, b) && Wf(l, b, |a|) && Low(l, b, |a|) == Low(l, a, c) && High(l, b, |a|) == High(l, a, c + n - 1)
  {
    hide Wf, Low, High, DataOk, Separator, DataMax;
    var b, w := a + [node], |a|;
    UsedIs(node.child, n);
    assert b[w] == node;
    forall i | 0 <= i < n
      ensures DataOk(l, b) && Wf(l, b, node.child[i]) && node.keys[i] == Separator(l, b, node.child[i])
      ensures Low(l, b, c + i) == Low(l, a, c + i) && High(l, b, c + i) == High(l, a, c + i)
    {
      ChildFrame(l, a, node, c, n, i);
    }
    ChildFrame(l, a, node, c, n, 0);
    assert NodeOk(l, b, w);
    forall i | 0 <= i < n - 1
      ensures High(l, b, node.child[i]) + 1 == Low(l, b, node.child[i + 1])
    {
      assert High(l, a, c + i) + 1 == Low(l, a, c + i + 1);
    }
    RootOf(l, b, w);
  }

  /** The definition of a well-formed node, from its children. */
  lemma RootOf(l: Layout, b: seq<FilePage>, w: nat)
    requires DataOk(l, b) && w > l.last && NodeOk(l, b, w)
    requires forall i :: 0 <= i < Used(b[w].child) ==>
               Wf(l, b, b[w].child[i]) && b[w].keys[i] == Separator(l, b, b[w].child[i])
    requires forall i :: 0 <= i < Used(b[w].child) - 1 ==> High(l, b, b[w].child[i]) + 1 == Low(l, b, b[w].child[i + 1])
    ensures Wf(l, b, w) && Low(l, b, w) == Low(l, b, b[w].child[0])
    ensures High(l, b, w) == High(l, b, b[w].child[Used(b[w].child) - 1])
  {
  }

  /** The level being written: pages from `start` on, covering what the children before `c`
      cover. */
  ghost predicate Writing(l: Layout, pages: seq<FilePage>, first: nat, last: nat, start: nat, c: nat) {
    && LevelOk(l, pages, first, last, 1, l.last) && l.last <= last < start <= |pages|
    && first <= c <= last + 1
    && (start < |pages| ==> c > first && LevelOk(l, pages, start, |pages| - 1, 1, High(l, pages, c - 1)))
    && (start == |pages| ==> c == first)
    && 2 * (|pages| - start) <= (c - first) + (if c > last then 1 else 0)
  }

  lemma WritingStep(l: Layout, a: seq<FilePage>, node: FilePage, first: nat, last: nat, start: nat, c: nat, n: nat)
    requires DataOk(l, a) && Writing(l, a, first, last, start, c) && c <= last
    requires NodeFor(l, a, node, c, n) && c + n <= last + 1 && (n < l.fanout ==> c + n == last + 1)
    ensures Writing(l, a + [node], first, last, start, c + n)
  {
    hide Wf, Low, High, DataOk, Separator, NodeFor;
    var b, w := a + [node], |a|;
    NodeSize(l, a, node, c, n);
    NodeIsWf(l, a, node, c, n);
    LevelFrame(l, a, b, first, last, 1, l.last);
    SameHigh(l, a, b, c + n - 1);
    if start < w {
      LevelFrame(l, a, b, start, w - 1, 1, High(l, a, c - 1));
      LevelSnoc(l, b, start, w, 1);
    } else {
      assert LevelOk(l, b, w, w, 1, High(l, b, w));
    }
  }

  lemma NodeSize(l: Layout, a: seq<FilePage>, node: FilePage, c: nat, n: nat)
    requires DataOk(l, a) && NodeFor(l, a, node, c, n)
    ensures 1 <= n <= l.fanout && l.fanout >= 2
  {
  }

  lemma SameHigh(l: Layout, a: seq<FilePage>, b: seq<FilePage>, p: nat)
    requires DataOk(l, a) && Extends(a, b) && Wf(l, a, p) && p < |a|
    ensures High(l, a, p) == High(l, b, p)
  {
    DataFrame(l, a, b);
    WfFrame(l, a, b, p);
  }

  /** A level grows by a page that covers what comes next. */
  lemma LevelSnoc(l: Layout, pages: seq<FilePage>, first: nat, p: nat, from: nat)
    requires 1 <= p && LevelOk(l, pages, first, p - 1, from, High(l, pages, p - 1)) && p < |pages|
    requires Wf(l, pages, p) && High(l, pages, p - 1) + 1 == Low(l, pages, p)
    ensures LevelOk(l, pages, first, p, from, High(l, pages, p))
  {
    hide Wf, Low, High, DataOk;
  }
}
