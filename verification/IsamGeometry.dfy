/** The shape of the in-memory ISAM index: which records lie under which node, and what the
    nodes must say for a search to end at the right record. */
module IsamGeometry {
  import opened Numerals

  /** The keys of the data array, in order, and the fanouts of leaves and inner nodes. */
  datatype Geometry = Geometry(keys: seq<int>, leaf: nat, fan: nat)

  ghost predicate Fits(g: Geometry) {
    && g.keys != [] && g.leaf >= 1 && g.fan >= 2
    && (forall i, j :: 0 <= i <= j < |g.keys| ==> g.keys[i] <= g.keys[j])
  }

  /** How many records lie under a full node of level h; leaves are level 0. */
  function Span(g: Geometry, h: nat): nat {
    g.leaf * Pow(g.fan, h)
  }

  /** The first record under node j of level h. */
  function Start(g: Geometry, h: nat, j: nat): nat {
    j * Span(g, h)
  }

  /** Node j of a level has nodes Kid(j, 0), ..., Kid(j, fan - 1) of the level below. */
  function Kid(g: Geometry, j: nat, i: nat): nat {
    j * g.fan + i
  }

  predicate Exists(g: Geometry, h: nat, j: nat) {
    Start(g, h, j) < |g.keys|
  }

  lemma {:induction false} PowPositive(b: nat, e: nat)
    requires b >= 1
    ensures Pow(b, e) >= 1
  {
    if e > 0 {
      PowPositive(b, e - 1);
      Multiples(Pow(b, e - 1), b);
      assert Pow(b, e) == Pow(b, e - 1) * b;
    }
  }

  lemma SpanPositive(g: Geometry, h: nat)
    requires g.leaf >= 1 && g.fan >= 1
    ensures Span(g, h) >= 1 && Span(g, 0) == g.leaf
  {
    PowPositive(g.fan, h);
    Multiples(g.leaf, Pow(g.fan, h));
  }

  lemma StartNext(g: Geometry, h: nat, j: nat)
    requires g.leaf >= 1 && g.fan >= 1
    ensures Start(g, h, j + 1) == Start(g, h, j) + Span(g, h) > Start(g, h, j)
    ensures Start(g, 0, j + 1) == Start(g, 0, j) + g.leaf && Start(g, h, 0) == 0
  {
    hide Span;
    SpanPositive(g, h);
    SpanPositive(g, 0);
    var s, t := Span(g, h), Span(g, 0);
    assert (j + 1) * s == j * s + s;
    assert (j + 1) * t == j * t + t;
  }

  lemma StartMonotone(g: Geometry, h: nat, a: nat, b: nat)
    requires g.leaf >= 1 && g.fan >= 1 && a <= b
    ensures Start(g, h, a) <= Start(g, h, b)
    ensures Exists(g, h, b) ==> Exists(g, h, a)
  {
    hide Span;
    var s := Span(g, h);
    assert b * s == a * s + (b - a) * s;
  }

  /** A node starts where its first kid does, and the next one where its kids end. */
  lemma StartDown(g: Geometry, h: nat, j: nat)
    ensures Start(g, h + 1, j) == Start(g, h, Kid(g, j, 0)) && Kid(g, j, g.fan) == Kid(g, j + 1, 0)
  {
    var p := Pow(g.fan, h);
    assert Pow(g.fan, h + 1) == g.fan * p;
    assert g.leaf * (g.fan * p) == g.fan * (g.leaf * p);
    var s := g.leaf * p;
    assert j * (g.fan * s) == (j * g.fan) * s;
    assert (j + 1) * g.fan == j * g.fan + g.fan;
  }

  // ---------------------------------------------------------------------------
  // Nodes
  // ---------------------------------------------------------------------------

  datatype Ptr = Null | ToRec(rec: nat) | ToNode(node: nat)

  datatype InternalNode = InternalNode(keys: seq<int>, child: seq<Ptr>)

  /** The pointer to node m of level h, whose nodes are stored from `base` on. */
  function Link(g: Geometry, h: nat, base: nat, m: nat): Ptr {
    if h == 0 then ToRec(Start(g, 0, m)) else ToNode(base + m)
  }

  function LinkIfAny(g: Geometry, h: nat, base: nat, m: nat): Ptr {
    if Exists(g, h, m) then Link(g, h, base, m) else Null
  }

  /** The separator of a full subtree is its greatest key. Of the last, partial one nothing
      is said: on the upper levels the code leaves junk there. */
  ghost predicate SeparatorOk(g: Geometry, h: nat, m: nat, key: int) {
    0 < Start(g, h, m + 1) <= |g.keys| ==> key == g.keys[Start(g, h, m + 1) - 1]
  }

  /** Node j of level h + 1; the level below is stored from `base` on. */
  ghost predicate NodeOk(g: Geometry, node: InternalNode, h: nat, j: nat, base: nat) {
    && |node.keys| == |node.child| == g.fan
    && (forall i :: 0 <= i < g.fan ==> node.child[i] == LinkIfAny(g, h, base, Kid(g, j, i)))
    && (forall i :: 0 <= i < g.fan ==> SeparatorOk(g, h, Kid(g, j, i), node.keys[i]))
  }

  /** Where a level is stored. */
  datatype Band = Band(start: nat, count: nat)

  /** Nodes 0, ..., count - 1 are all there are of level h + 1. */
  ghost predicate LevelOk(g: Geometry, nodes: seq<InternalNode>, h: nat, band: Band, base: nat) {
    && band.count >= 1 && Exists(g, h + 1, band.count - 1) && !Exists(g, h + 1, band.count)
    && NodesOk(g, nodes, h, band, base)
  }

  ghost predicate NodesOk(g: Geometry, nodes: seq<InternalNode>, h: nat, band: Band, base: nat) {
    && band.start + band.count <= |nodes|
    && (forall j :: 0 <= j < band.count ==> StoredOk(g, nodes, h, band.start, j, base))
  }

  ghost predicate StoredOk(g: Geometry, nodes: seq<InternalNode>, h: nat, start: nat, j: nat, base: nat) {
    start + j < |nodes| && NodeOk(g, nodes[start + j], h, j, base)
  }

  /** `levels[h]` is where level h + 1 is stored. */
  ghost predicate LevelsOk(g: Geometry, nodes: seq<InternalNode>, levels: seq<Band>) {
    forall h: nat :: h < |levels| ==> LevelAt(g, nodes, levels, h)
  }

  ghost predicate LevelAt(g: Geometry, nodes: seq<InternalNode>, levels: seq<Band>, h: nat) {
    h < |levels| && LevelOk(g, nodes, h, levels[h], Base(levels, h))
  }

  /** Where the level below is stored; the leaves are not nodes. */
  function Base(levels: seq<Band>, h: nat): nat
    requires h <= |levels|
  {
    if h == 0 then 0 else levels[h - 1].start
  }

  /** The whole index, with a single node on top. */
  ghost predicate IndexOk(g: Geometry, nodes: seq<InternalNode>, levels: seq<Band>, root: nat) {
    Fits(g) && LevelsOk(g, nodes, levels) && levels != [] && levels[|levels| - 1] == Band(root, 1)
  }

  // ---------------------------------------------------------------------------
  // Search
  // ---------------------------------------------------------------------------

  /** Whether a key lies before the bound that is searched for. */
  predicate Before(k: int, key: int, upper: bool) {
    if upper then k <= key else k < key
  }

  /** `at` is the first position whose key does not lie before the bound: what a linear
      search over the whole array would return. */
  ghost predicate IsBound(keys: seq<int>, key: int, upper: bool, at: nat) {
    at <= |keys| && forall k :: 0 <= k < |keys| ==> (Before(keys[k], key, upper) <==> k < at)
  }

  /** The bound lies at or after record `a`, and at or before record `b`. */
  ghost predicate Bracket(g: Geometry, key: int, upper: bool, a: nat, b: nat) {
    && (forall k :: 0 <= k < |g.keys| && k < a ==> Before(g.keys[k], key, upper))
    && (forall k :: 0 <= k < |g.keys| && b <= k ==> !Before(g.keys[k], key, upper))
  }

  /** The loop over the separators goes past slot m. */
  ghost predicate Passes(node: InternalNode, key: int, upper: bool, m: nat) {
    m + 1 < |node.child| && m < |node.keys| && node.child[m + 1] != Null && Before(node.keys[m], key, upper)
  }

  /** What that loop settles on. */
  ghost predicate Chosen(node: InternalNode, fan: nat, key: int, upper: bool, i: nat) {
    && i < fan <= |node.keys| && fan <= |node.child|
    && (forall m: nat :: m < i ==> Passes(node, key, upper, m))
    && (i < fan - 1 ==> node.child[i + 1] == Null || !Before(node.keys[i], key, upper))
  }

  lemma NodeAt(g: Geometry, node: InternalNode, h: nat, j: nat, base: nat, i: nat)
    requires NodeOk(g, node, h, j, base) && i < g.fan
    ensures |node.keys| == |node.child| == g.fan
    ensures node.child[i] == LinkIfAny(g, h, base, Kid(g, j, i)) && SeparatorOk(g, h, Kid(g, j, i), node.keys[i])
  {
  }

  lemma LeftSide(g: Geometry, node: InternalNode, h: nat, j: nat, base: nat, key: int, upper: bool, i: nat)
    requires Fits(g) && NodeOk(g, node, h, j, base) && Chosen(node, g.fan, key, upper, i) && Exists(g, h + 1, j)
    requires Bracket(g, key, upper, Start(g, h + 1, j), Start(g, h + 1, j + 1))
    ensures Exists(g, h, Kid(g, j, i)) && node.child[i] == Link(g, h, base, Kid(g, j, i))
    ensures forall k :: 0 <= k < |g.keys| && k < Start(g, h, Kid(g, j, i)) ==> Before(g.keys[k], key, upper)
  {
    hide NodeOk, Start, Kid;
    StartDown(g, h, j);
    NodeAt(g, node, h, j, base, i);
    if i > 0 {
      NodeAt(g, node, h, j, base, i - 1);
      assert Passes(node, key, upper, i - 1);
      NextKid(g, j, i - 1);
      StartNext(g, h, Kid(g, j, i - 1));
    }
  }

  lemma KidMonotone(g: Geometry, j: nat, a: nat, b: nat)
    requires a <= b
    ensures Kid(g, j, a) <= Kid(g, j, b)
  {
  }

  lemma NextKid(g: Geometry, j: nat, i: nat)
    ensures Kid(g, j, i) + 1 == Kid(g, j, i + 1)
  {
  }

  lemma RightSide(g: Geometry, node: InternalNode, h: nat, j: nat, base: nat, key: int, upper: bool, i: nat)
    requires Fits(g) && NodeOk(g, node, h, j, base) && Chosen(node, g.fan, key, upper, i)
    requires Bracket(g, key, upper, Start(g, h + 1, j), Start(g, h + 1, j + 1))
    ensures forall k :: 0 <= k < |g.keys| && Start(g, h, Kid(g, j, i) + 1) <= k ==> !Before(g.keys[k], key, upper)
  {
    hide NodeOk, Start, Kid;
    NextKid(g, j, i);
    NodeAt(g, node, h, j, base, i);
    if i == g.fan - 1 {
      StartDown(g, h, j);
      StartDown(g, h, j + 1);
    } else {
      NodeAt(g, node, h, j, base, i + 1);
      var end := Start(g, h, Kid(g, j, i) + 1);
      StartNext(g, h, Kid(g, j, i));
      forall k | 0 <= k < |g.keys| && end <= k
        ensures !Before(g.keys[k], key, upper)
      {
        assert Exists(g, h, Kid(g, j, i + 1));
        assert node.child[i + 1] != Null && !Before(node.keys[i], key, upper);
        assert g.keys[end - 1] <= g.keys[k];
      }
    }
  }

  /** One step down keeps the bound in the bracket. */
  lemma StepDown(g: Geometry, node: InternalNode, h: nat, j: nat, base: nat, key: int, upper: bool, i: nat)
    requires Fits(g) && NodeOk(g, node, h, j, base) && Chosen(node, g.fan, key, upper, i) && Exists(g, h + 1, j)
    requires Bracket(g, key, upper, Start(g, h + 1, j), Start(g, h + 1, j + 1))
    ensures var m := Kid(g, j, i);
            && Exists(g, h, m) && node.child[i] == Link(g, h, base, m)
            && Bracket(g, key, upper, Start(g, h, m), Start(g, h, m + 1))
  {
    LeftSide(g, node, h, j, base, key, upper, i);
    RightSide(g, node, h, j, base, key, upper, i);
  }

  // ---------------------------------------------------------------------------
  // Sizes
  // ---------------------------------------------------------------------------

  function CeilDiv(a: nat, b: nat): nat
    requires b >= 1
  {
    a / b + if a % b != 0 then 1 else 0
  }

  lemma CeilBounds(a: nat, b: nat)
    requires b >= 1 && a >= 1
    ensures CeilDiv(a, b) >= 1 && (CeilDiv(a, b) - 1) * b < a <= CeilDiv(a, b) * b
    ensures b >= 2 && a >= 2 ==> CeilDiv(a, b) < a
  {
    var q, r := a / b, a % b;
    Rounded(a, b, q, r, CeilDiv(a, b));
  }

  lemma Rounded(a: nat, b: nat, q: nat, r: nat, c: nat)
    requires b >= 1 && a >= 1 && a == b * q + r && r < b && c == q + if r != 0 then 1 else 0
    ensures c >= 1 && (c - 1) * b < a <= c * b
    ensures b >= 2 && a >= 2 ==> c < a
  {
    var p := b * q;
    assert q * b == p && (q + 1) * b == p + b && (q - 1) * b == p - b;
    Multiples(q, b - 1);
    assert q * (b - 1) == p - q;
    if q == 0 {
      assert p == 0;
    }
  }

  lemma CeilUnique(a: nat, b: nat, c: nat)
    requires b >= 1 && c >= 1 && (c - 1) * b < a <= c * b
    ensures CeilDiv(a, b) == c
  {
    CeilBounds(a, b);
    var d := CeilDiv(a, b) - c;
    assert CeilDiv(a, b) * b == c * b + d * b;
    assert (CeilDiv(a, b) - 1) * b == (c - 1) * b + d * b;
    assert d * b == b * d;
    Multiples(b, d);
  }

  /** How many inner nodes an index over m leaves needs. */
  function Sizing(m: nat, fan: nat): nat
    requires fan >= 2
    decreases m
  {
    if m <= 1 then CeilDiv(m, fan)
    else
      CeilBounds(m, fan);
      var c := CeilDiv(m, fan);
      if c <= 1 then c else c + Sizing(c, fan)
  }

  /** `count` is the number of nodes of level h. */
  ghost predicate Counted(g: Geometry, h: nat, count: nat) {
    count >= 1 && Exists(g, h, count - 1) && !Exists(g, h, count)
  }

  /** The leaves are as many as the code computes. */
  lemma LeavesCounted(g: Geometry)
    requires Fits(g)
    ensures Counted(g, 0, CeilDiv(|g.keys|, g.leaf))
  {
    CeilBounds(|g.keys|, g.leaf);
    assert Span(g, 0) == g.leaf;
  }

  /** Each level has the number of nodes of the one below, divided by the fanout. */
  lemma NextCounted(g: Geometry, h: nat, count: nat)
    requires Fits(g) && Counted(g, h, count)
    ensures Counted(g, h + 1, CeilDiv(count, g.fan))
  {
    hide Start;
    var c := CeilDiv(count, g.fan);
    CeilBounds(count, g.fan);
    StartDown(g, h, c - 1);
    StartDown(g, h, c);
    StartMonotone(g, h, Kid(g, c - 1, 0), count - 1);
    StartMonotone(g, h, count, Kid(g, c, 0));
  }

  lemma CountedUnique(g: Geometry, h: nat, a: nat, b: nat)
    requires Fits(g) && Counted(g, h, a) && Counted(g, h, b)
    ensures a == b
  {
    hide Start;
    if a < b {
      StartMonotone(g, h, a, b - 1);
    } else if b < a {
      StartMonotone(g, h, b, a - 1);
    }
  }

  lemma ExistsIff(g: Geometry, h: nat, count: nat, j: nat)
    requires Fits(g) && Counted(g, h, count)
    ensures Exists(g, h, j) <==> j < count
  {
    hide Start;
    if j < count {
      StartMonotone(g, h, j, count - 1);
    } else {
      StartMonotone(g, h, count, j);
    }
  }
}
