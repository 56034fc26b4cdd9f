/** The in-memory ISAM tree: a sorted array with a static index built over it bottom-up. */
module IsamTrees {
  import opened Records
  import opened Numerals
  import opened SortedMerge
  import opened IsamGeometry

  function Keys(data: seq<Wrapped>): (keys: seq<int>)
    ensures |keys| == |data| && forall i :: 0 <= i < |data| ==> keys[i] == data[i].rec.key
  {
    seq(|data|, i requires 0 <= i < |data| => data[i].rec.key)
  }

  lemma SortedKeys(data: seq<Wrapped>, leaf: nat, fan: nat)
    requires Sorted(data) && data != [] && leaf >= 1 && fan >= 2
    ensures Fits(Geometry(Keys(data), leaf, fan))
  {
    forall i, j | 0 <= i <= j < |data| ensures data[i].rec.key <= data[j].rec.key {
      assert i < j ==> !Less(data[j].rec, data[i].rec);
    }
  }

  function Blank(fan: nat): InternalNode {
    InternalNode(seq(fan, _ => 0), seq(fan, _ => Null))
  }

  /** The number of nodes to allocate. */
  method SizeNodes(leaves: nat, fan: nat) returns (nodeCnt: nat)
    requires leaves >= 1 && fan >= 2
    ensures nodeCnt == Sizing(leaves, fan)
  {
    var level := leaves;
    nodeCnt := 0;
    var more := true;
    while more
      invariant level >= 1 && (!more ==> level == 1)
      invariant nodeCnt + (if more then Sizing(level, fan) else 0) == Sizing(leaves, fan)
      decreases more, level
    {
      CeilBounds(level, fan);
      level := level / fan + if level % fan != 0 then 1 else 0;
      nodeCnt := nodeCnt + level;
      more := level > 1;
    }
  }

  // ---------------------------------------------------------------------------
  // Filling nodes
  // ---------------------------------------------------------------------------

  /** A node filled up to slot n, blank from there on. */
  ghost predicate Filling(g: Geometry, node: InternalNode, h: nat, j: nat, base: nat, n: nat) {
    && |node.keys| == |node.child| == g.fan && n <= g.fan
    && (forall i :: 0 <= i < n ==> node.child[i] == LinkIfAny(g, h, base, Kid(g, j, i)))
    && (forall i :: 0 <= i < n ==> SeparatorOk(g, h, Kid(g, j, i), node.keys[i]))
    && (forall i :: n <= i < g.fan ==> node.child[i] == Null)
  }

  function Put(node: InternalNode, i: nat, key: int, child: Ptr): InternalNode
    requires i < |node.keys| == |node.child|
  {
    InternalNode(node.keys[i := key], node.child[i := child])
  }

  lemma FillingStep(g: Geometry, node: InternalNode, h: nat, j: nat, base: nat, n: nat, key: int, child: Ptr)
    requires Filling(g, node, h, j, base, n) && n < g.fan
    requires child == LinkIfAny(g, h, base, Kid(g, j, n)) && SeparatorOk(g, h, Kid(g, j, n), key)
    ensures Filling(g, Put(node, n, key, child), h, j, base, n + 1)
  {
  }

  /** Past the last node of the level below, the slots stay blank. */
  lemma FillingDone(g: Geometry, node: InternalNode, h: nat, j: nat, base: nat, n: nat)
    requires Fits(g) && Filling(g, node, h, j, base, n) && (n < g.fan ==> !Exists(g, h, Kid(g, j, n)))
    ensures NodeOk(g, node, h, j, base)
  {
    hide Start;
    forall i | n <= i < g.fan
      ensures !Exists(g, h, Kid(g, j, i)) && SeparatorOk(g, h, Kid(g, j, i), node.keys[i])
    {
      StartMonotone(g, h, Kid(g, j, n), Kid(g, j, i));
      StartNext(g, h, Kid(g, j, i));
    }
  }

  lemma BlankFilling(g: Geometry, h: nat, j: nat, base: nat)
    ensures Filling(g, Blank(g.fan), h, j, base, 0)
  {
  }

  lemma KidStart(g: Geometry, j: nat, i: nat)
    ensures Start(g, 0, Kid(g, j, i)) == Start(g, 1, j) + g.leaf * i && Kid(g, j, i) + 1 == Kid(g, j, i + 1)
  {
    assert Pow(g.fan, 0) == 1 && Pow(g.fan, 1) == g.fan;
    var l, f := g.leaf, g.fan;
    assert Start(g, 0, Kid(g, j, i)) == (j * f + i) * l;
    assert Start(g, 1, j) == j * (l * f);
    assert (j * f + i) * l == (j * f) * l + i * l;
    assert (j * f) * l == j * (l * f);
  }

  /** One node over the leaves from record `leafBase` on; `fanout` of them. */
  method LeafNode(g: Geometry, ghost j: nat, leafBase: nat, blank: InternalNode)
        returns (node: InternalNode, fanout: nat)
    requires Fits(g) && leafBase == Start(g, 1, j) < |g.keys| && blank == Blank(g.fan)
    ensures NodeOk(g, node, 0, j, 0)
    ensures 1 <= fanout <= g.fan
    ensures leafBase + g.leaf * fanout == Start(g, 1, j + 1)
            || (leafBase + g.leaf * fanout >= |g.keys| && Start(g, 1, j + 1) >= |g.keys|)
  {
    hide Start, Kid, Filling, SeparatorOk;
    node, fanout := blank, 0;
    BlankFilling(g, 0, j, 0);
    while fanout < g.fan
      invariant fanout <= g.fan && Filling(g, node, 0, j, 0, fanout)
      invariant |node.keys| == |node.child| == g.fan
    {
      var rec := leafBase + g.leaf * fanout;
      KidStart(g, j, fanout);
      if rec >= |g.keys| {
        break;
      }
      var sep := if rec + g.leaf - 1 < |g.keys| - 1 then rec + g.leaf - 1 else |g.keys| - 1;
      LeafSeparator(g, Kid(g, j, fanout), sep);
      FillingStep(g, node, 0, j, 0, fanout, g.keys[sep], ToRec(rec));
      node := Put(node, fanout, g.keys[sep], ToRec(rec));
      fanout := fanout + 1;
    }
    FillingDone(g, node, 0, j, 0, fanout);
    KidStart(g, j, fanout);
    KidStart(g, j, 0);
    StartDown(g, 0, j + 1);
    StartDown(g, 0, j);
    KidMonotone(g, j, fanout, g.fan);
    StartMonotone(g, 0, Kid(g, j, fanout), Kid(g, j, g.fan));
  }

  lemma LeafSeparator(g: Geometry, m: nat, sep: nat)
    requires Fits(g) && Exists(g, 0, m)
    requires sep == if Start(g, 0, m) + g.leaf - 1 < |g.keys| - 1 then Start(g, 0, m) + g.leaf - 1 else |g.keys| - 1
    ensures SeparatorOk(g, 0, m, g.keys[sep])
  {
    StartNext(g, 0, m);
  }

  /** One node over the nodes of the level below, from `now` on. The code counts one child
      too many on a partial node, which only takes it past the end. */
  method InnerNode(g: Geometry, nodes: seq<InternalNode>, ghost h: nat, ghost base: nat, band: Band, ghost j: nat,
        now: nat, blank: InternalNode)
    returns (node: InternalNode, childCnt: nat)
    requires Fits(g) && h >= 1 && LevelOk(g, nodes, h - 1, band, base) && blank == Blank(g.fan)
    requires now == band.start + Kid(g, j, 0) < band.start + band.count
    ensures NodeOk(g, node, h, j, band.start)
    ensures now + childCnt == band.start + Kid(g, j + 1, 0)
            || (now + childCnt >= band.start + band.count && Kid(g, j + 1, 0) >= band.count)
  {
    hide Start, Filling, SeparatorOk, NodesOk, NodeOk;
    node, childCnt := blank, 0;
    BlankFilling(g, h, j, band.start);
    var i := 0;
    assert Kid(g, j, g.fan) == Kid(g, j + 1, 0) by { StartDown(g, h, j); }
    while i < g.fan
      invariant i <= g.fan && Filling(g, node, h, j, band.start, i)
      invariant childCnt == i && |node.keys| == |node.child| == g.fan
    {
      var p := now + i;
      childCnt := childCnt + 1;
      ExistsIff(g, h, band.count, Kid(g, j, i));
      if p >= band.start + band.count {
        break;
      }
      LastKey(g, nodes, h, base, band, Kid(g, j, i));
      var key := nodes[p].keys[g.fan - 1];
      FillingStep(g, node, h, j, band.start, i, key, ToNode(p));
      node := Put(node, i, key, ToNode(p));
      i := i + 1;
    }
    FillingDone(g, node, h, j, band.start, i);
  }

  /** A full node's last separator is the separator of the whole node. */
  lemma LastKey(g: Geometry, nodes: seq<InternalNode>, h: nat, base: nat, band: Band, m: nat)
    requires Fits(g) && h >= 1 && LevelOk(g, nodes, h - 1, band, base) && m < band.count
    ensures band.start + m < |nodes| && |nodes[band.start + m].keys| == g.fan
    ensures SeparatorOk(g, h, m, nodes[band.start + m].keys[g.fan - 1])
  {
    hide Start, Kid;
    assert StoredOk(g, nodes, h - 1, band.start, m, base);
    var node := nodes[band.start + m];
    NodeAt(g, node, h - 1, m, base, g.fan - 1);
    NextKid(g, m, g.fan - 1);
    StartDown(g, h - 1, m);
    StartDown(g, h - 1, m + 1);
  }

  // ---------------------------------------------------------------------------
  // Filling levels
  // ---------------------------------------------------------------------------

  /** Cells from `from` on are still blank. */
  ghost predicate BlankFrom(nodes: seq<InternalNode>, fan: nat, from: nat) {
    forall k :: from <= k < |nodes| ==> nodes[k] == Blank(fan)
  }

  lemma NodesFrame(g: Geometry, a: seq<InternalNode>, b: seq<InternalNode>, h: nat, band: Band, base: nat)
    requires NodesOk(g, a, h, band, base) && |b| == |a| && forall k :: 0 <= k < band.start + band.count ==> a[k] == b[k]
    ensures NodesOk(g, b, h, band, base)
  {
    forall j | 0 <= j < band.count ensures StoredOk(g, b, h, band.start, j, base) {
      assert StoredOk(g, a, h, band.start, j, base);
    }
  }

  lemma NodesSnoc(g: Geometry, a: seq<InternalNode>, h: nat, band: Band, base: nat, node: InternalNode)
    requires NodesOk(g, a, h, band, base) && band.start + band.count < |a| && NodeOk(g, node, h, band.count, base)
    ensures NodesOk(g, a[band.start + band.count := node], h, Band(band.start, band.count + 1), base)
  {
    hide NodeOk;
    var b := a[band.start + band.count := node];
    NodesFrame(g, a, b, h, band, base);
    forall j | 0 <= j < band.count + 1 ensures StoredOk(g, b, h, band.start, j, base) {
      if j < band.count {
        assert StoredOk(g, b, h, band.start, j, base);
      }
    }
  }

  /** Builds the nodes over the leaves. */
  method FillLeafLevel(g: Geometry, nodes: array<InternalNode>) returns (count: nat)
    requires Fits(g) && BlankFrom(nodes[..], g.fan, 0) && !Exists(g, 1, nodes.Length)
    modifies nodes
    ensures LevelOk(g, nodes[..], 0, Band(0, count), 0) && BlankFrom(nodes[..], g.fan, count)
  {
    hide Start, NodeOk, NodesOk;
    count := 0;
    var leafBase := 0;
    StartNext(g, 1, 0);
    NoNodes(g, nodes[..], 0, 0, 0);
    while leafBase < |g.keys|
      invariant count <= nodes.Length && NodesOk(g, nodes[..], 0, Band(0, count), 0)
                && BlankFrom(nodes[..], g.fan, count)
      invariant leafBase == Start(g, 1, count) || (leafBase >= |g.keys| && Start(g, 1, count) >= |g.keys|)
      invariant leafBase > 0 ==> count >= 1
      invariant count >= 1 ==> Exists(g, 1, count - 1)
      decreases |g.keys| - leafBase
    {
      Below(g, 1, count, nodes.Length);
      var node, fanout := LeafNode(g, count, leafBase, nodes[count]);
      NodesSnoc(g, nodes[..], 0, Band(0, count), 0, node);
      ghost var before := nodes[..];
      nodes[count] := node;
      assert nodes[..] == before[count := node];
      Multiples(g.leaf, fanout);
      leafBase := leafBase + fanout * g.leaf;
      assert fanout * g.leaf == g.leaf * fanout;
      count := count + 1;
    }
  }

  lemma Below(g: Geometry, h: nat, a: nat, b: nat)
    requires Fits(g) && Exists(g, h, a) && !Exists(g, h, b)
    ensures a < b
  {
    hide Start;
    if b <= a {
      StartMonotone(g, h, b, a);
    }
  }

  lemma NoNodes(g: Geometry, nodes: seq<InternalNode>, h: nat, start: nat, base: nat)
    requires start <= |nodes|
    ensures NodesOk(g, nodes, h, Band(start, 0), base)
  {
  }

  lemma Stored(g: Geometry, nodes: seq<InternalNode>, h: nat, band: Band, base: nat)
    requires LevelOk(g, nodes, h, band, base)
    ensures band.start + band.count <= |nodes| && Counted(g, h + 1, band.count)
  {
  }

  lemma LevelFrame(g: Geometry, a: seq<InternalNode>, b: seq<InternalNode>, h: nat, band: Band, base: nat)
    requires LevelOk(g, a, h, band, base) && |b| == |a| && forall k :: 0 <= k < band.start + band.count ==> a[k] == b[k]
    ensures LevelOk(g, b, h, band, base)
  {
    NodesFrame(g, a, b, h, band, base);
  }

  /** Builds the level over the nodes of `band`, behind it. */
  method FillLevel(g: Geometry, nodes: array<InternalNode>, ghost h: nat, ghost base: nat, band: Band)
        returns (count: nat)
    requires Fits(g) && h >= 1 && LevelOk(g, nodes[..], h - 1, band, base)
    requires band.start + band.count + CeilDiv(band.count, g.fan) <= nodes.Length
    requires BlankFrom(nodes[..], g.fan, band.start + band.count)
    modifies nodes
    ensures count == CeilDiv(band.count, g.fan)
    ensures LevelOk(g, nodes[..], h, Band(band.start + band.count, count), band.start)
    ensures BlankFrom(nodes[..], g.fan, band.start + band.count + count)
    ensures forall k :: 0 <= k < band.start + band.count ==> nodes[k] == old(nodes[k])
  {
    hide Start, NodeOk, NodesOk, LevelOk, CeilDiv, Kid;
    var stop := band.start + band.count;
    count := 0;
    var now := band.start;
    Stored(g, nodes[..], h - 1, band, base);
    CeilBounds(band.count, g.fan);
    NoNodes(g, nodes[..], h, stop, band.start);
    KidIs(g, 0);
    while now < stop
      invariant stop + count <= nodes.Length && NodesOk(g, nodes[..], h, Band(stop, count), band.start)
      invariant LevelOk(g, nodes[..], h - 1, band, base) && BlankFrom(nodes[..], g.fan, stop + count)
      invariant forall k :: 0 <= k < stop ==> nodes[k] == old(nodes[k])
      invariant now == band.start + Kid(g, count, 0) || (now >= stop && Kid(g, count, 0) >= band.count)
      invariant count >= 1 ==> Kid(g, count - 1, 0) < band.count
      decreases CeilDiv(band.count, g.fan) - count
    {
      Early(g, band.count, count);
      var node, childCnt := InnerNode(g, nodes[..], h, base, band, count, now, nodes[stop + count]);
      NodesSnoc(g, nodes[..], h, Band(stop, count), band.start, node);
      ghost var before := nodes[..];
      nodes[stop + count] := node;
      assert nodes[..] == before[stop + count := node];
      LevelFrame(g, before, nodes[..], h - 1, band, base);
      now := now + childCnt;
      count := count + 1;
    }
    LevelDone(g, nodes[..], h, band, count);
  }

  lemma KidIs(g: Geometry, j: nat)
    ensures Kid(g, j, 0) == j * g.fan
  {
  }

  lemma Early(g: Geometry, below: nat, count: nat)
    requires g.fan >= 1 && below >= 1 && Kid(g, count, 0) < below
    ensures count < CeilDiv(below, g.fan)
  {
    CeilBounds(below, g.fan);
    var d := count - CeilDiv(below, g.fan);
    assert count * g.fan == CeilDiv(below, g.fan) * g.fan + d * g.fan;
    assert d >= 0 ==> d * g.fan >= 0;
  }

  lemma LevelDone(g: Geometry, nodes: seq<InternalNode>, h: nat, band: Band, count: nat)
    requires Fits(g) && h >= 1 && Counted(g, h, band.count)
             && NodesOk(g, nodes, h, Band(band.start + band.count, count), band.start)
    requires count >= 1 && Kid(g, count - 1, 0) < band.count <= Kid(g, count, 0)
    ensures count == CeilDiv(band.count, g.fan)
    ensures LevelOk(g, nodes, h, Band(band.start + band.count, count), band.start)
  {
    hide NodesOk;
    CeilUnique(band.count, g.fan, count);
    NextCounted(g, h, band.count);
  }

  // ---------------------------------------------------------------------------
  // The whole index
  // ---------------------------------------------------------------------------

  lemma LevelsFrame(g: Geometry, a: seq<InternalNode>, b: seq<InternalNode>, levels: seq<Band>, stop: nat)
    requires LevelsOk(g, a, levels) && |b| == |a| && forall k :: 0 <= k < stop ==> k < |a| && a[k] == b[k]
    requires forall h :: 0 <= h < |levels| ==> levels[h].start + levels[h].count <= stop
    ensures LevelsOk(g, b, levels)
  {
    hide LevelOk;
    forall h: nat | h < |levels| ensures LevelAt(g, b, levels, h) {
      assert LevelAt(g, a, levels, h);
      LevelFrame(g, a, b, h, levels[h], Base(levels, h));
    }
  }

  lemma LevelsSnoc(g: Geometry, nodes: seq<InternalNode>, levels: seq<Band>, band: Band)
    requires LevelsOk(g, nodes, levels)
    requires LevelOk(g, nodes, |levels|, band, Base(levels, |levels|))
    ensures LevelsOk(g, nodes, levels + [band])
  {
    hide LevelOk;
    var more := levels + [band];
    forall h: nat | h < |more| ensures LevelAt(g, nodes, more, h) {
      assert Base(more, h) == Base(levels, h);
      if h < |levels| {
        assert LevelAt(g, nodes, levels, h);
      }
    }
  }

  lemma TopLevel(g: Geometry, nodes: seq<InternalNode>, levels: seq<Band>)
    requires LevelsOk(g, nodes, levels) && levels != []
    ensures var n := |levels| - 1;
            LevelOk(g, nodes, n, levels[n], Base(levels, n))
  {
    assert LevelAt(g, nodes, levels, |levels| - 1);
  }

  /** The allocation is large enough for the level over the leaves. */
  lemma RoomForLeaves(g: Geometry, size: nat)
    requires Fits(g) && size == Sizing(CeilDiv(|g.keys|, g.leaf), g.fan)
    ensures !Exists(g, 1, size) && Counted(g, 1, CeilDiv(CeilDiv(|g.keys|, g.leaf), g.fan))
    ensures size == Above(CeilDiv(CeilDiv(|g.keys|, g.leaf), g.fan), g.fan)
  {
    var leaves := CeilDiv(|g.keys|, g.leaf);
    LeavesCounted(g);
    NextCounted(g, 0, leaves);
    CeilBounds(leaves, g.fan);
    ExistsIff(g, 1, CeilDiv(leaves, g.fan), size);
  }

  /** How many nodes there are from a level of `count` nodes upwards, itself included. */
  function Above(count: nat, fan: nat): nat
    requires fan >= 2
  {
    if count <= 1 then count else count + Sizing(count, fan)
  }

  lemma AboveStep(count: nat, fan: nat)
    requires fan >= 2 && count > 1
    ensures 1 <= CeilDiv(count, fan) < count && Above(count, fan) == count + Above(CeilDiv(count, fan), fan)
  {
    CeilBounds(count, fan);
  }

  lemma AboveAtLeast(count: nat, fan: nat)
    requires fan >= 2
    ensures Above(count, fan) >= count
  {
  }

  /** Builds all inner levels into freshly allocated, zeroed nodes. The build writes exactly
      as many nodes as the sizing loop allocates. */
  method BuildInternalLevels(g: Geometry) returns (nodes: array<InternalNode>, root: nat, ghost levels: seq<Band>)
    requires Fits(g)
    ensures fresh(nodes) && IndexOk(g, nodes[..], levels, root)
    ensures nodes.Length == Sizing(CeilDiv(|g.keys|, g.leaf), g.fan) == root + 1
  {
    LeavesCounted(g);
    hide LevelOk, Start, CeilDiv, Sizing, Above, Fits, Counted, BlankFrom;
    var leaves := CountLeaves(g);
    var nodeCnt := SizeNodes(leaves, g.fan);
    nodes := new InternalNode[nodeCnt](_ => Blank(g.fan));
    AllBlank(nodes, g.fan);
    RoomForLeaves(g, nodeCnt);
    var count := FillLeafLevel(g, nodes);
    var start := 0;
    levels := [];
    LevelsSnoc(g, nodes[..], levels, Band(0, count));
    levels := [Band(0, count)];
    Stored(g, nodes[..], 0, Band(0, count), 0);
    CountedUnique(g, 1, count, CeilDiv(leaves, g.fan));
    while count > 1
      invariant count >= 1 && levels != [] && levels[|levels| - 1] == Band(start, count)
                && LevelsOk(g, nodes[..], levels)
      invariant start + Above(count, g.fan) == nodeCnt && BlankFrom(nodes[..], g.fan, start + count)
      invariant forall h :: 0 <= h < |levels| ==> levels[h].start + levels[h].count <= start + count <= nodeCnt
      decreases count
    {
      TopLevel(g, nodes[..], levels);
      AboveStep(count, g.fan);
      AboveAtLeast(CeilDiv(count, g.fan), g.fan);
      ghost var base := Base(levels, |levels| - 1);
      ghost var before := nodes[..];
      var next := FillLevel(g, nodes, |levels|, base, Band(start, count));
      LevelsFrame(g, before, nodes[..], levels, start + count);
      LevelsSnoc(g, nodes[..], levels, Band(start + count, next));
      levels := levels + [Band(start + count, next)];
      start, count := start + count, next;
    }
    root := start;
    assert Above(1, g.fan) == 1 by { OneAbove(g.fan); }
  }

  lemma OneAbove(fan: nat)
    requires fan >= 2
    ensures Above(1, fan) == 1
  {
  }

  lemma AllBlank(nodes: array<InternalNode>, fan: nat)
    requires forall k :: 0 <= k < nodes.Length ==> nodes[k] == Blank(fan)
    ensures BlankFrom(nodes[..], fan, 0)
  {
  }

  method CountLeaves(g: Geometry) returns (leaves: nat)
    requires Fits(g)
    ensures leaves == CeilDiv(|g.keys|, g.leaf) >= 1 && g.fan >= 2 && g.leaf >= 1
  {
    CeilBounds(|g.keys|, g.leaf);
    leaves := |g.keys| / g.leaf + if |g.keys| % g.leaf != 0 then 1 else 0;
  }

  // ---------------------------------------------------------------------------
  // Search
  // ---------------------------------------------------------------------------

  /** The loop over the separators of one node. */
  method ChooseChild(node: InternalNode, fan: nat, key: int, upper: bool) returns (next: Ptr, ghost i: nat)
    requires fan >= 2 && |node.keys| == |node.child| == fan && node.child[0] != Null
    ensures Chosen(node, fan, key, upper, i) && next == node.child[i]
  {
    next, i := Null, 0;
    var m := 0;
    while m < fan - 1
      invariant m <= fan - 1 && i == m && next == Null
      invariant forall k: nat :: k < m ==> Passes(node, key, upper, k)
    {
      if node.child[m + 1] == Null || !Before(node.keys[m], key, upper) {
        assert m == 0 || Passes(node, key, upper, m - 1);
        next := node.child[m];
        break;
      }
      m := m + 1;
      i := m;
    }
    if next == Null {
      next := node.child[fan - 1];
    }
  }

  /** Descends to the leaf in which a linear search would end. */
  method Descend(g: Geometry, nodes: array<InternalNode>, root: nat, ghost levels: seq<Band>, key: int, upper: bool)
    returns (leaf: nat)
    requires IndexOk(g, nodes[..], levels, root)
    ensures leaf < |g.keys| && Bracket(g, key, upper, leaf, leaf + g.leaf)
  {
    hide Start, NodeOk, Chosen, LevelOk, Kid, Bracket;
    ghost var h: nat, j: nat := |levels|, 0;
    var now := ToNode(root);
    StartTop(g, nodes[..], levels, root, key, upper);
    while now.ToNode?
      invariant Exists(g, h, j) && Bracket(g, key, upper, Start(g, h, j), Start(g, h, j + 1))
      invariant h <= |levels| && (h >= 1 ==> now == ToNode(levels[h - 1].start + j) && j < levels[h - 1].count)
      invariant h == 0 ==> now == ToRec(Start(g, 0, j))
      decreases h
    {
      ghost var base := Base(levels, h - 1);
      NodeInLevel(g, nodes[..], levels, h, j);
      var next, i := ChooseChild(nodes[now.node], g.fan, key, upper);
      StepDown(g, nodes[now.node], h - 1, j, base, key, upper, i);
      if h >= 2 {
        BelowExists(g, nodes[..], levels, h - 1, Kid(g, j, i));
      }
      h, j := h - 1, Kid(g, j, i);
      now := next;
    }
    leaf := now.rec;
    StartNext(g, 0, j);
  }

  lemma StartTop(g: Geometry, nodes: seq<InternalNode>, levels: seq<Band>, root: nat, key: int, upper: bool)
    requires IndexOk(g, nodes, levels, root)
    ensures Exists(g, |levels|, 0) && Bracket(g, key, upper, Start(g, |levels|, 0), Start(g, |levels|, 1))
  {
    TopLevel(g, nodes, levels);
    StartNext(g, |levels|, 0);
  }

  lemma NodeInLevel(g: Geometry, nodes: seq<InternalNode>, levels: seq<Band>, h: nat, j: nat)
    requires Fits(g) && LevelsOk(g, nodes, levels) && 1 <= h <= |levels| && j < levels[h - 1].count && Exists(g, h, j)
    ensures var p := levels[h - 1].start + j;
            && p < |nodes| && NodeOk(g, nodes[p], h - 1, j, Base(levels, h - 1))
            && |nodes[p].keys| == |nodes[p].child| == g.fan >= 2 && nodes[p].child[0] != Null
  {
    hide Start;
    var base := Base(levels, h - 1);
    assert LevelAt(g, nodes, levels, h - 1);
    assert StoredOk(g, nodes, h - 1, levels[h - 1].start, j, base);
    StartDown(g, h - 1, j);
    NodeAt(g, nodes[levels[h - 1].start + j], h - 1, j, base, 0);
  }

  lemma BelowExists(g: Geometry, nodes: seq<InternalNode>, levels: seq<Band>, h: nat, j: nat)
    requires Fits(g) && LevelsOk(g, nodes, levels) && 1 <= h <= |levels| && Exists(g, h, j)
    ensures j < levels[h - 1].count
  {
    hide Start, NodesOk;
    assert LevelAt(g, nodes, levels, h - 1);
    ExistsIff(g, h, levels[h - 1].count, j);
  }

  /** An in-memory shard. */
  class ISAMTree {
    const leafFanout: nat
    const fanout: nat
    const data: seq<Wrapped>
    const reccnt: nat
    const tombstoneCnt: nat
    var nodes: array<InternalNode>
    var root: nat
    ghost var levels: seq<Band>

    ghost function Shape(): Geometry {
      Geometry(Keys(data), leafFanout, fanout)
    }

    ghost predicate Valid()
      reads this, nodes
    {
      && leafFanout >= 1 && fanout >= 2 && Sorted(data) && Untagged(data)
      && reccnt == |data| && tombstoneCnt == Tombstones(data)
      && (reccnt > 0 ==> IndexOk(Shape(), nodes[..], levels, root))
    }

    /** Builds a shard from the records of a buffer. */
    constructor (leafFanout: nat, fanout: nat, view: seq<Wrapped>)
      requires leafFanout >= 1 && fanout >= 2
      ensures Valid()
      ensures Untagged(view) || Tombstones(view) == 0 ==> SameNet(view, data)
      ensures Tombstones(view) == 0 ==> multiset(data) == multiset(Cleared(Live(view)))
      ensures SameNet(view, data) <==> TagsHarmless(SortedView(view))
      ensures forall r :: Net(data, r) >= Net(view, r) && (OneKindAt(view, r) ==> Net(data, r) == Net(view, r))
    {
      hide IndexOk, Fits, TagsHarmless, SortedView, OneKindAt, Net, Pass, Live;
      var out, info := SortedArrayFromBufferView(view);
      this.leafFanout, this.fanout := leafFanout, fanout;
      data, reccnt, tombstoneCnt := out, info.recordCount, info.tombstoneCount;
      root, levels := 0, [];
      nodes := new InternalNode[0];
      new;
      if info.recordCount > 0 {
        SortedKeys(out, leafFanout, fanout);
        nodes, root, levels := BuildInternalLevels(Geometry(Keys(out), leafFanout, fanout));
      }
    }

    /** Merges the arrays of other shards, none of them empty. */
    constructor FromShards(leafFanout: nat, fanout: nat, shards: seq<seq<Wrapped>>)
      requires leafFanout >= 1 && fanout >= 2
      requires forall i :: 0 <= i < |shards| ==> shards[i] != [] && Sorted(shards[i])
      ensures Valid() && Survivors(Flatten(shards), data)
    {
      hide IndexOk, Fits;
      var out, info, _, _ := SortedArrayMerge(shards);
      this.leafFanout, this.fanout := leafFanout, fanout;
      data, reccnt, tombstoneCnt := out, info.recordCount, info.tombstoneCount;
      root, levels := 0, [];
      nodes := new InternalNode[0];
      new;
      if info.recordCount > 0 {
        SortedKeys(out, leafFanout, fanout);
        nodes, root, levels := BuildInternalLevels(Geometry(Keys(out), leafFanout, fanout));
      }
    }

    /** The first record with a key of at least `key`. The search looks at the records of one
        leaf only. */
    method GetLowerBound(key: int) returns (at: nat, ghost from: nat)
      requires Valid() && reccnt > 0
      ensures IsBound(Keys(data), key, false, at) && from <= at <= from + leafFanout
    {
      hide IndexOk;
      at := DescendTo(key, false);
      from := at;
      while at < reccnt && data[at].rec.key < key
        invariant from <= at <= reccnt && forall k :: 0 <= k < at ==> Before(Keys(data)[k], key, false)
      {
        at := at + 1;
      }
      ScanEnds(Shape(), key, false, from, at);
    }

    /** The first record with a key above `key`. */
    method GetUpperBound(key: int) returns (at: nat, ghost from: nat)
      requires Valid() && reccnt > 0
      ensures IsBound(Keys(data), key, true, at) && from <= at <= from + leafFanout
    {
      hide IndexOk;
      at := DescendTo(key, true);
      from := at;
      while at < reccnt && data[at].rec.key <= key
        invariant from <= at <= reccnt && forall k :: 0 <= k < at ==> Before(Keys(data)[k], key, true)
      {
        at := at + 1;
      }
      ScanEnds(Shape(), key, true, from, at);
    }

    method DescendTo(key: int, upper: bool) returns (from: nat)
      requires Valid() && reccnt > 0
      ensures from < reccnt && Fits(Shape()) && Bracket(Shape(), key, upper, from, from + leafFanout)
    {
      assert Fits(Shape());
      from := Descend(Geometry(Keys(data), leafFanout, fanout), nodes, root, levels, key, upper);
    }
  }

  lemma ScanEnds(g: Geometry, key: int, upper: bool, from: nat, at: nat)
    requires Fits(g) && Bracket(g, key, upper, from, from + g.leaf) && from <= at <= |g.keys|
    requires forall k :: 0 <= k < at ==> Before(g.keys[k], key, upper)
    requires at < |g.keys| ==> !Before(g.keys[at], key, upper)
    ensures IsBound(g.keys, key, upper, at) && at <= from + g.leaf
  {
    forall k | at <= k < |g.keys| ensures !Before(g.keys[k], key, upper) { assert g.keys[at] <= g.keys[k]; }
    var last := if at == 0 then 0 else at - 1;
    assert at > 0 ==> Before(g.keys[last], key, upper);
  }
}
