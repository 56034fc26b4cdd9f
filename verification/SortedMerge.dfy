/** Building the sorted array of an in-memory shard: from a buffer, or by merging the arrays
    of other shards. Both cancel inserts against tombstones and drop tagged records. */
module SortedMerge {
  import opened Records
  import opened MergeBag
  import opened ExternalMerge
  import opened MergeQueue

  datatype MergeInfo = MergeInfo(recordCount: nat, tombstoneCount: nat)

  /** The records that are not tagged as deleted. */
  function Live(s: seq<Wrapped>): seq<Wrapped> {
    if s == [] then []
    else
      var n := |s| - 1;
      Live(s[..n]) + if s[n].deleted then [] else [s[n]]
  }

  /** The header reduced to the tombstone bit and the delete tag. */
  function Cleared(s: seq<Wrapped>): (t: seq<Wrapped>)
    ensures |t| == |s| && forall i :: 0 <= i < |s| ==> t[i] == s[i].(stamp := 0)
  {
    seq(|s|, i requires 0 <= i < |s| => s[i].(stamp := 0))
  }

  ghost predicate WrappedSorted(s: seq<Wrapped>) {
    forall i, j :: 0 <= i < j < |s| ==> !WrappedLess(s[j], s[i])
  }

  function Place(t: seq<Wrapped>, w: Wrapped): (u: seq<Wrapped>)
    requires WrappedSorted(t)
    ensures WrappedSorted(u) && multiset(u) == multiset(t) + multiset{w}
  {
    var n := |t| - 1;
    if t == [] || !WrappedLess(w, t[n]) then
      PlaceLast(t, w);
      t + [w]
    else
      assert t == t[..n] + [t[n]];
      var u := Place(t[..n], w);
      PlaceBefore(t, w, u);
      u + [t[n]]
  }

  lemma PlaceLast(t: seq<Wrapped>, w: Wrapped)
    requires WrappedSorted(t) && (t == [] || !WrappedLess(w, t[|t| - 1]))
    ensures WrappedSorted(t + [w])
  {
    hide Header;
    forall i | 0 <= i < |t| ensures !WrappedLess(w, t[i]) {
      assert i < |t| - 1 ==> !WrappedLess(t[|t| - 1], t[i]);
    }
  }

  lemma PlaceBefore(t: seq<Wrapped>, w: Wrapped, u: seq<Wrapped>)
    requires t != [] && WrappedSorted(t) && WrappedLess(w, t[|t| - 1])
    requires WrappedSorted(u) && multiset(u) == multiset(t[..|t| - 1]) + multiset{w}
    ensures WrappedSorted(u + [t[|t| - 1]])
  {
    hide Header;
    var n := |t| - 1;
    forall i | 0 <= i < |u| ensures !WrappedLess(t[n], u[i]) {
      assert u[i] in multiset(u);
      if u[i] != w {
        assert u[i] in multiset(t[..n]);
        var j :| 0 <= j < n && t[j] == u[i];
      }
    }
  }

  /** The records sorted by record and then by header. */
  function SortedView(s: seq<Wrapped>): (t: seq<Wrapped>)
    ensures WrappedSorted(t) && multiset(t) == multiset(s)
  {
    if s == [] then []
    else
      var n := |s| - 1;
      assert s == s[..n] + [s[n]];
      Place(SortedView(s[..n]), s[n])
  }

  /** Every way to sort gives it. */
  lemma {:induction false} SortedViewIsTheOne(s: seq<Wrapped>, t: seq<Wrapped>)
    requires WrappedSorted(t) && multiset(t) == multiset(s)
    ensures t == SortedView(s)
  {
    hide SortedView;
    SameWhenSorted(t, SortedView(s));
  }

  lemma {:induction false} SameWhenSorted(a: seq<Wrapped>, b: seq<Wrapped>)
    requires WrappedSorted(a) && WrappedSorted(b) && multiset(a) == multiset(b)
    ensures a == b
    decreases |a|
  {
    hide WrappedLess;
    NoElements(a, b);
    if a != [] {
      NoElements(b, a);
      SameFirst(a, b);
      SameRest(a, b);
      SameWhenSorted(a[1..], b[1..]);
    }
  }

  lemma SameRest(a: seq<Wrapped>, b: seq<Wrapped>)
    requires multiset(a) == multiset(b) && a != [] && b != [] && a[0] == b[0]
    ensures multiset(a[1..]) == multiset(b[1..]) && a == [a[0]] + a[1..] && b == [b[0]] + b[1..]
  {
    assert a == [a[0]] + a[1..] && b == [b[0]] + b[1..];
    assert multiset(a[1..]) == multiset(a) - multiset{a[0]};
    assert multiset(b[1..]) == multiset(b) - multiset{b[0]};
  }

  lemma SameFirst(a: seq<Wrapped>, b: seq<Wrapped>)
    requires WrappedSorted(a) && WrappedSorted(b) && multiset(a) == multiset(b) && a != [] && b != []
    ensures a[0] == b[0]
  {
    assert a[0] in multiset(b) && b[0] in multiset(a);
    var i :| 0 <= i < |b| && b[i] == a[0];
    var j :| 0 <= j < |a| && a[j] == b[0];
    assert !WrappedLess(a[0], b[0]) && !WrappedLess(b[0], a[0]);
    SameHeader(a[0], b[0]);
  }

  /** The header tells two copies of a record apart. */
  lemma SameHeader(v: Wrapped, w: Wrapped)
    requires Header(v) == Header(w) && v.rec == w.rec
    ensures v == w
  {
    assert Header(v) % 4 == (if v.tombstone then 1 else 0) + (if v.deleted then 2 else 0);
    assert Header(w) % 4 == (if w.tombstone then 1 else 0) + (if w.deleted then 2 else 0);
  }

  lemma WrappedSortedIsSorted(s: seq<Wrapped>)
    requires WrappedSorted(s)
    ensures Sorted(s)
  {
    forall i, j | 0 <= i < j < |s| ensures !Less(s[j].rec, s[i].rec) { assert !WrappedLess(s[j], s[i]); }
  }

  // ---------------------------------------------------------------------------
  // What survives
  // ---------------------------------------------------------------------------

  lemma {:induction false} LiveConcat(a: seq<Wrapped>, b: seq<Wrapped>)
    ensures Live(a + b) == Live(a) + Live(b)
  {
    if b == [] {
      assert a + b == a && Live(a) + [] == Live(a);
    } else {
      var n := |b| - 1;
      LiveConcat(a, b[..n]);
      assert (a + b)[..|a + b| - 1] == a + b[..n];
    }
  }

  lemma LiveRemoveAt(s: seq<Wrapped>, i: nat)
    requires i < |s|
    ensures multiset(Live(s)) == multiset(Live(s[..i] + s[i + 1..])) + multiset(Live([s[i]]))
  {
    hide Live;
    assert s == s[..i] + ([s[i]] + s[i + 1..]);
    LiveConcat(s[..i], [s[i]] + s[i + 1..]);
    LiveConcat([s[i]], s[i + 1..]);
    LiveConcat(s[..i], s[i + 1..]);
  }

  lemma {:induction false} LivePermutation(a: seq<Wrapped>, b: seq<Wrapped>)
    requires multiset(a) == multiset(b)
    ensures multiset(Live(a)) == multiset(Live(b))
    decreases |a|
  {
    hide Live;
    NoElements(a, b);
    if a != [] {
      var i := MatchFirst(a, b);
      LiveRemoveAt(a, 0);
      LiveRemoveAt(b, i);
      assert a[..0] + a[1..] == a[1..];
      LivePermutation(a[1..], b[..i] + b[i + 1..]);
    }
  }

  /** Dropping tagged records keeps the order and leaves nothing tagged. */
  lemma {:induction false} LiveSorted(s: seq<Wrapped>)
    requires Sorted(s)
    ensures Sorted(Live(s)) && Untagged(Live(s)) && |Live(s)| <= |s|
    ensures s != [] && Live(s) != [] ==> !Less(s[|s| - 1].rec, Live(s)[|Live(s)| - 1].rec)
  {
    LiveUntagged(s);
    if s != [] {
      hide Live, Untagged;
      var n := |s| - 1;
      LiveSorted(s[..n]);
      LiveStep(s);
      if Live(s[..n]) != [] {
        assert !Less(s[n].rec, s[n - 1].rec);
      }
      if !s[n].deleted {
        SortedSnoc(Live(s[..n]), s[n]);
      }
    }
  }

  lemma LiveStep(s: seq<Wrapped>)
    requires s != []
    ensures var n := |s| - 1; Live(s) == if s[n].deleted then Live(s[..n]) else Live(s[..n]) + [s[n]]
  {
  }

  lemma {:induction false} LiveOfUntagged(s: seq<Wrapped>)
    requires Untagged(s)
    ensures Live(s) == s
  {
    if s != [] {
      var n := |s| - 1;
      LiveOfUntagged(s[..n]);
      assert s == s[..n] + [s[n]];
    }
  }

  /** Tagged inserts weigh nothing. */
  lemma {:induction false} LiveNet(s: seq<Wrapped>, r: Record)
    requires Tombstones(s) == 0
    ensures Net(Live(s), r) == Net(s, r) && Tombstones(Live(s)) == 0
  {
    if s != [] {
      var n := |s| - 1;
      assert s == s[..n] + [s[n]];
      TombstonesConcat(s[..n], [s[n]]);
      LiveNet(s[..n], r);
      NetSnoc(s[..n], s[n], r);
      if s[n].deleted {
        assert Live(s) == Live(s[..n]);
      } else {
        NetSnoc(Live(s[..n]), s[n], r);
        TombstonesConcat(Live(s[..n]), [s[n]]);
      }
    }
  }

  /** The stamps carry no weight. */
  lemma {:induction false} ClearedSame(s: seq<Wrapped>, r: Record)
    ensures Net(Cleared(s), r) == Net(s, r) && Tombstones(Cleared(s)) == Tombstones(s)
    ensures Sorted(s) ==> Sorted(Cleared(s))
    ensures Untagged(s) ==> Untagged(Cleared(s))
  {
    if s != [] {
      assert Cleared(s)[1..] == Cleared(s[1..]);
      ClearedSame(s[1..], r);
    }
  }

  lemma ClearedRemoveAt(s: seq<Wrapped>, i: nat)
    requires i < |s|
    ensures multiset(Cleared(s)) == multiset(Cleared(s[..i] + s[i + 1..])) + multiset{s[i].(stamp := 0)}
  {
    var c := Cleared(s);
    assert Cleared(s[..i] + s[i + 1..]) == c[..i] + c[i + 1..];
    assert c == c[..i] + [c[i]] + c[i + 1..];
  }

  lemma {:induction false} ClearedPermutation(a: seq<Wrapped>, b: seq<Wrapped>)
    requires multiset(a) == multiset(b)
    ensures multiset(Cleared(a)) == multiset(Cleared(b))
    decreases |a|
  {
    hide Cleared;
    NoElements(a, b);
    if a != [] {
      var i := MatchFirst(a, b);
      ClearedRemoveAt(a, 0);
      ClearedRemoveAt(b, i);
      assert a[..0] + a[1..] == a[1..];
      ClearedPermutation(a[1..], b[..i] + b[i + 1..]);
    }
  }

  /** Every cancelled pair takes a tombstone with it. */
  lemma PairsHaveTombstones(gone: seq<Wrapped>)
    requires Pairs(gone)
    ensures gone != [] ==> Tombstones(gone) > 0
  {
    if gone != [] {
      assert gone == [gone[0], gone[1]] + gone[2..];
      TombstonesConcat([gone[0], gone[1]], gone[2..]);
      assert [gone[0], gone[1]][1..] == [gone[1]];
    }
  }

  /** What a cancelling pass must deliver: sorted, nothing tagged, no net count lower, the same
      ones unless tags and tombstones of a record meet, and without tombstones exactly the
      untagged records. */
  ghost predicate Survivors(all: seq<Wrapped>, out: seq<Wrapped>) {
    && Sorted(out) && Untagged(out) && |out| <= |all|
    && (Untagged(all) || Tombstones(all) == 0 ==> SameNet(all, out))
    && (Tombstones(all) == 0 ==> multiset(out) == multiset(Live(all)))
    && (forall r :: Net(out, r) >= Net(all, r) && (OneKindAt(all, r) ==> Net(out, r) == Net(all, r)))
  }

  lemma ClearedSurvive(all: seq<Wrapped>, out: seq<Wrapped>)
    requires Survivors(all, out)
    ensures Sorted(Cleared(out)) && Untagged(Cleared(out))
    ensures Untagged(all) || Tombstones(all) == 0 ==> SameNet(all, Cleared(out))
    ensures Tombstones(all) == 0 ==> multiset(Cleared(out)) == multiset(Cleared(Live(all)))
    ensures forall r ::
              Net(Cleared(out), r) >= Net(all, r) && (OneKindAt(all, r) ==> Net(Cleared(out), r) == Net(all, r))
  {
    ClearedSame(out, Record(0, 0));
    forall r ensures Net(Cleared(out), r) == Net(out, r) { ClearedSame(out, r); }
    if Tombstones(all) == 0 {
      ClearedPermutation(out, Live(all));
    }
  }

  // ---------------------------------------------------------------------------
  // Where tags and tombstones meet
  // ---------------------------------------------------------------------------

  /** How many tagged tombstones, or tagged inserts, of r there are. */
  function TaggedOf(s: seq<Wrapped>, tombstone: bool, r: Record): nat {
    if s == [] then 0
    else (if s[0].deleted && s[0].tombstone == tombstone
        && s[0].rec == r then 1 else 0) + TaggedOf(s[1..], tombstone, r)
  }

  ghost predicate NoTagged(s: seq<Wrapped>, tombstone: bool) {
    forall i :: 0 <= i < |s| ==> !(s[i].deleted && s[i].tombstone == tombstone)
  }

  lemma {:induction false} NoneTagged(s: seq<Wrapped>, tombstone: bool, r: Record)
    requires NoTagged(s, tombstone)
    ensures TaggedOf(s, tombstone, r) == 0
  {
    if s != [] {
      NoneTagged(s[1..], tombstone, r);
    }
  }

  lemma {:induction false} SomeTagged(s: seq<Wrapped>, tombstone: bool) returns (r: Record)
    requires !NoTagged(s, tombstone)
    ensures TaggedOf(s, tombstone, r) > 0
  {
    if s[0].deleted && s[0].tombstone == tombstone {
      r := s[0].rec;
    } else {
      assert s == [s[0]] + s[1..];
      r := SomeTagged(s[1..], tombstone);
    }
  }

  lemma {:induction false} LiveConsNet(s: seq<Wrapped>, r: Record)
    ensures Net(Live(s), r) == Net(s, r) + TaggedOf(s, true, r)
  {
    if s != [] {
      hide Live;
      LiveConsNet(s[1..], r);
      assert s == [s[0]] + s[1..];
      LiveConcat([s[0]], s[1..]);
      LiveOne(s[0]);
      NetConcat(Live([s[0]]), Live(s[1..]), r);
    }
  }

  lemma LiveOne(w: Wrapped)
    ensures Live([w]) == if w.deleted then [] else [w]
  {
    assert [w][..0] == [];
  }

  lemma {:induction false} PairsNet(gone: seq<Wrapped>, r: Record)
    requires Pairs(gone)
    ensures Net(gone, r) + TaggedOf(gone, false, r) == 0
  {
    if gone != [] {
      PairsNet(gone[2..], r);
      var rest := gone[1..];
      assert rest[0] == gone[1] && rest[1..] == gone[2..];
      assert Net(gone, r) == Weight(gone[0], r) + (Weight(gone[1], r) + Net(gone[2..], r));
    }
  }

  /** The pass changes no net count if and only if no cancelled pair has a tagged insert and no
      tagged tombstone is dropped. */
  lemma TagsIff(all: seq<Wrapped>, taken: seq<Wrapped>, gone: seq<Wrapped>)
    requires Pairs(gone) && multiset(all) == multiset(taken) + multiset(gone)
    ensures forall r :: Net(Live(taken), r) == Net(all, r) + TaggedOf(taken, true, r) + TaggedOf(gone, false, r)
    ensures SameNet(all, Live(taken)) <==> NoTagged(taken, true) && NoTagged(gone, false)
  {
    forall r ensures Net(Live(taken), r) == Net(all, r) + TaggedOf(taken, true, r) + TaggedOf(gone, false, r) {
      NetPermutation(all, taken + gone, r);
      NetConcat(taken, gone, r);
      LiveConsNet(taken, r);
      PairsNet(gone, r);
    }
    if NoTagged(taken, true) && NoTagged(gone, false) {
      forall r ensures Net(all, r) == Net(Live(taken), r) {
        NoneTagged(taken, true, r);
        NoneTagged(gone, false, r);
      }
    } else {
      var lost := if NoTagged(taken, true) then gone else taken;
      var r := SomeTagged(lost, NoTagged(gone, false) || !NoTagged(taken, true));
      assert Net(Live(taken), r) == Net(all, r) + TaggedOf(taken, true, r) + TaggedOf(gone, false, r);
    }
  }

  ghost predicate NoneAt(s: seq<Wrapped>, tagged: bool, tombstones: bool, r: Record) {
    forall i :: 0 <= i < |s| && s[i].rec == r ==> !(tagged && s[i].deleted) && !(tombstones && s[i].tombstone)
  }

  /** Of this record nothing is tagged, or nothing is a tombstone. */
  ghost predicate OneKindAt(s: seq<Wrapped>, r: Record) {
    NoneAt(s, true, false, r) || NoneAt(s, false, true, r)
  }

  lemma NoneInPart(all: seq<Wrapped>, part: seq<Wrapped>, tagged: bool, tombstones: bool, r: Record)
    requires multiset(part) <= multiset(all) && NoneAt(all, tagged, tombstones, r)
    ensures NoneAt(part, tagged, tombstones, r)
  {
    forall i | 0 <= i < |part| && part[i].rec == r
      ensures !(tagged && part[i].deleted) && !(tombstones && part[i].tombstone)
    {
      assert part[i] in multiset(part) && part[i] in multiset(all);
      var j :| 0 <= j < |all| && all[j] == part[i];
    }
  }

  lemma {:induction false} NoneTaggedAt(s: seq<Wrapped>, tombstone: bool, r: Record)
    requires NoneAt(s, true, false, r) || (tombstone && NoneAt(s, false, true, r))
    ensures TaggedOf(s, tombstone, r) == 0
  {
    if s != [] {
      NoneTaggedAt(s[1..], tombstone, r);
    }
  }

  /** An insert leaves with a tombstone of its record. */
  lemma {:induction false} NoPairAt(gone: seq<Wrapped>, r: Record)
    requires Pairs(gone) && NoneAt(gone, false, true, r)
    ensures TaggedOf(gone, false, r) == 0
  {
    if gone != [] {
      NoPairAt(gone[2..], r);
      assert gone[1..][1..] == gone[2..];
      assert gone[0].rec != r && gone[1].rec != r;
    }
  }

  /** The pass never lowers a net count, and keeps that of a record with one kind of delete. */
  lemma NeverLowers(all: seq<Wrapped>, taken: seq<Wrapped>, gone: seq<Wrapped>, r: Record)
    requires Pairs(gone) && multiset(all) == multiset(taken) + multiset(gone)
    ensures Net(Live(taken), r) >= Net(all, r) && (OneKindAt(all, r) ==> Net(Live(taken), r) == Net(all, r))
  {
    hide Net, Live, TaggedOf, NoneAt, Pairs;
    TagsIff(all, taken, gone);
    if NoneAt(all, true, false, r) {
      NoneInPart(all, taken, true, false, r);
      NoneInPart(all, gone, true, false, r);
      NoneTaggedAt(taken, true, r);
      NoneTaggedAt(gone, false, r);
    } else if NoneAt(all, false, true, r) {
      NoneInPart(all, taken, false, true, r);
      NoneInPart(all, gone, false, true, r);
      NoneTaggedAt(taken, true, r);
      NoPairAt(gone, r);
    }
  }

  /** `taken` left one by one and `gone` in pairs. */
  lemma TakenSurvive(all: seq<Wrapped>, taken: seq<Wrapped>, gone: seq<Wrapped>)
    requires Sorted(taken) && Pairs(gone) && multiset(all) == multiset(taken) + multiset(gone)
    ensures Survivors(all, Live(taken))
  {
    LiveSorted(taken);
    assert |multiset(all)| == |multiset(taken + gone)|;
    if Untagged(all) {
      CancellingKeepsNet(all, taken);
      LiveOfUntagged(taken);
    }
    if Tombstones(all) == 0 {
      TombstonesPermutation(all, taken + gone);
      TombstonesConcat(taken, gone);
      PairsHaveTombstones(gone);
      LivePermutation(all, taken);
      forall r ensures Net(all, r) == Net(Live(taken), r) {
        NetPermutation(all, taken, r);
        LiveNet(taken, r);
      }
    }
    forall r ensures Net(Live(taken), r) >= Net(all, r)
                  && (OneKindAt(all, r) ==> Net(Live(taken), r) == Net(all, r)) {
      NeverLowers(all, taken, gone, r);
    }
  }

  // ---------------------------------------------------------------------------
  // From the buffer
  // ---------------------------------------------------------------------------

  /** An insert stands right before a tombstone of the same record. */
  predicate PairAt(s: seq<Wrapped>, i: nat) {
    i + 1 < |s| && !s[i].tombstone && s[i].rec == s[i + 1].rec && s[i + 1].tombstone
  }

  /** The pass over the sorted view: what it takes one by one, and what it skips in pairs. */
  function Pass(s: seq<Wrapped>): (p: (seq<Wrapped>, seq<Wrapped>)) {
    if s == [] then ([], [])
    else if PairAt(s, 0) then
      var p := Pass(s[2..]);
      (p.0, [s[0], s[1]] + p.1)
    else
      var p := Pass(s[1..]);
      ([s[0]] + p.0, p.1)
  }

  /** It splits the view, keeps the order, and skips nothing but pairs. */
  lemma {:induction false} PassSplits(s: seq<Wrapped>)
    requires Sorted(s)
    ensures Sorted(Pass(s).0) && Pairs(Pass(s).1) && multiset(s) == multiset(Pass(s).0) + multiset(Pass(s).1)
    decreases |s|
  {
    hide Sorted, Pairs;
    if s == [] {
      NothingSplit();
    } else if PairAt(s, 0) {
      SortedTail(s, 2);
      PassSplits(s[2..]);
      PairsCons(s, Pass(s[2..]).0, Pass(s[2..]).1);
    } else {
      SortedTail(s, 1);
      PassSplits(s[1..]);
      SortedCons(s, Pass(s[1..]).0, Pass(s[1..]).1);
    }
  }

  lemma NothingSplit()
    ensures Sorted([]) && Pairs([])
  {
  }

  lemma SortedTail(s: seq<Wrapped>, n: nat)
    requires Sorted(s) && n <= |s|
    ensures Sorted(s[n..]) && s == s[..n] + s[n..]
  {
  }

  lemma PairsCons(s: seq<Wrapped>, taken: seq<Wrapped>, gone: seq<Wrapped>)
    requires PairAt(s, 0) && Pairs(gone) && multiset(s[2..]) == multiset(taken) + multiset(gone)
    ensures Pairs([s[0], s[1]] + gone) && multiset(s) == multiset(taken) + multiset([s[0], s[1]] + gone)
  {
    assert ([s[0], s[1]] + gone)[2..] == gone;
    assert s == [s[0], s[1]] + s[2..];
  }

  lemma SortedCons(s: seq<Wrapped>, taken: seq<Wrapped>, gone: seq<Wrapped>)
    requires s != [] && Sorted(s) && Sorted(taken) && multiset(s[1..]) == multiset(taken) + multiset(gone)
    ensures Sorted([s[0]] + taken) && multiset(s) == multiset([s[0]] + taken) + multiset(gone)
  {
    assert s == [s[0]] + s[1..];
    forall i | 0 <= i < |taken| ensures !Less(taken[i].rec, s[0].rec) {
      assert taken[i] in multiset(taken) && taken[i] in multiset(s[1..]);
      var j :| 0 <= j < |s[1..]| && s[1..][j] == taken[i];
    }
  }

  lemma PassPair(a: Wrapped, b: Wrapped, rest: seq<Wrapped>)
    requires !a.tombstone && b.tombstone && a.rec == b.rec
    ensures Pass([a, b] + rest) == (Pass(rest).0, [a, b] + Pass(rest).1)
  {
    assert ([a, b] + rest)[2..] == rest && PairAt([a, b] + rest, 0);
  }

  lemma PassOne(a: Wrapped, rest: seq<Wrapped>)
    requires a.tombstone || rest == [] || !rest[0].tombstone
    ensures Pass([a] + rest) == ([a] + Pass(rest).0, Pass(rest).1)
  {
    assert ([a] + rest)[1..] == rest && !PairAt([a] + rest, 0);
  }

  /** The entry at this position belongs to no pair. */
  predicate Single(s: seq<Wrapped>, i: nat) {
    i < |s| && !PairAt(s, i) && (i > 0 ==> !PairAt(s, i - 1))
  }

  /** `out` are the entries of s at these positions, in order. */
  ghost predicate ReadAt(s: seq<Wrapped>, at: seq<nat>, out: seq<Wrapped>) {
    && |out| == |at|
    && (forall k :: 0 <= k < |at| ==> at[k] < |s| && out[k] == s[at[k]])
    && (forall k, l :: 0 <= k < l < |at| ==> at[k] < at[l])
  }

  lemma ReadBehind(s: seq<Wrapped>, n: nat, at: seq<nat>, out: seq<Wrapped>) returns (moved: seq<nat>)
    requires n <= |s| && ReadAt(s[n..], at, out)
    ensures ReadAt(s, moved, out) && forall i: nat :: i in moved <==> i >= n && i - n in at
    ensures n > 0 ==> ReadAt(s, [0] + moved, [s[0]] + out)
  {
    moved := MovedBy(at, n);
  }

  lemma MovedBy(at: seq<nat>, n: nat) returns (moved: seq<nat>)
    ensures |moved| == |at| && forall k :: 0 <= k < |at| ==> moved[k] == at[k] + n
    ensures forall i: nat :: i in moved <==> i >= n && i - n in at
  {
    moved := seq(|at|, k requires 0 <= k < |at| => at[k] + n);
    forall i: nat | i >= n && i - n in at ensures i in moved {
      var k :| 0 <= k < |at| && at[k] == i - n;
      assert moved[k] == i;
    }
  }

  /** The pass takes exactly these, in their order. */
  lemma {:induction false} PassByPosition(s: seq<Wrapped>) returns (at: seq<nat>)
    ensures ReadAt(s, at, Pass(s).0) && forall i: nat :: i in at <==> Single(s, i)
    decreases |s|
  {
    at := [];
    if s != [] {
      var n := if PairAt(s, 0) then 2 else 1;
      var rest := PassByPosition(s[n..]);
      SinglesBehind(s, n);
      PassFrom(s, 0);
      assert s[0..] == s;
      hide Single, PairAt, Pass, ReadAt;
      at := ReadBehind(s, n, rest, Pass(s[n..]).0);
      if n == 1 {
        at := [0] + at;
      }
    }
  }

  lemma SinglesBehind(s: seq<Wrapped>, n: nat)
    requires s != [] && n == if PairAt(s, 0) then 2 else 1
    ensures n <= |s| && forall i: nat :: Single(s, i) <==> if i < n then n == 1 else Single(s[n..], i - n)
  {
    forall i: nat | i >= n ensures Single(s, i) <==> Single(s[n..], i - n) {
      assert PairAt(s, i) <==> PairAt(s[n..], i - n);
      assert i > n ==> (PairAt(s, i - 1) <==> PairAt(s[n..], i - n - 1));
    }
  }

  /** No insert before its tombstone is tagged, and no tombstone is, unless it has one. */
  ghost predicate TagsHarmless(s: seq<Wrapped>) {
    && (forall i: nat :: PairAt(s, i) ==> !s[i].deleted)
    && (forall i :: 0 <= i < |s| && s[i].tombstone && s[i].deleted ==> i > 0 && PairAt(s, i - 1))
  }

  lemma {:induction false} HarmlessIff(s: seq<Wrapped>)
    ensures TagsHarmless(s) <==> NoTagged(Pass(s).0, true) && NoTagged(Pass(s).1, false)
    decreases |s|
  {
    hide TagsHarmless, NoTagged;
    if s == [] {
      NothingHarms();
    } else if PairAt(s, 0) {
      HarmlessIff(s[2..]);
      HarmlessPair(s);
      NoTaggedConcat([s[0], s[1]], Pass(s[2..]).1, false);
    } else {
      HarmlessIff(s[1..]);
      HarmlessOne(s);
      NoTaggedConcat([s[0]], Pass(s[1..]).0, true);
    }
  }

  lemma NothingHarms()
    ensures TagsHarmless([]) && NoTagged([], true) && NoTagged([], false)
  {
  }

  lemma NoTaggedConcat(a: seq<Wrapped>, b: seq<Wrapped>, tombstone: bool)
    ensures NoTagged(a + b, tombstone) <==> NoTagged(a, tombstone) && NoTagged(b, tombstone)
  {
    assert forall i :: 0 <= i < |a| ==> (a + b)[i] == a[i];
    assert forall i :: 0 <= i < |b| ==> (a + b)[|a| + i] == b[i];
  }

  lemma HarmlessPair(s: seq<Wrapped>)
    requires PairAt(s, 0)
    ensures TagsHarmless(s) <==> NoTagged([s[0], s[1]], false) && TagsHarmless(s[2..])
  {
    var t := s[2..];
    assert forall i: nat :: PairAt(t, i) <==> PairAt(s, i + 2);
    assert forall i :: 0 <= i < |t| ==> t[i] == s[i + 2];
    var pair := [s[0], s[1]];
    assert pair[0] == s[0];
    assert NoTagged(pair, false) <==> !s[0].deleted;
    if TagsHarmless(t) && !s[0].deleted {
      forall i: nat | PairAt(s, i) ensures !s[i].deleted { assert i >= 2 ==> PairAt(t, i - 2); }
    }
  }

  lemma HarmlessOne(s: seq<Wrapped>)
    requires s != [] && !PairAt(s, 0)
    ensures TagsHarmless(s) <==> NoTagged([s[0]], true) && TagsHarmless(s[1..])
  {
    var t := s[1..];
    assert forall i: nat :: PairAt(t, i) <==> PairAt(s, i + 1);
    assert forall i :: 0 <= i < |t| ==> t[i] == s[i + 1];
    var one := [s[0]];
    assert one[0] == s[0];
    assert NoTagged(one, true) <==> !(s[0].deleted && s[0].tombstone);
    if TagsHarmless(t) && NoTagged(one, true) {
      forall i: nat | PairAt(s, i) ensures !s[i].deleted { assert i >= 1 ==> PairAt(t, i - 1); }
    }
  }

  lemma NothingPassed()
    ensures Pass([]) == ([], [])
  {
  }

  /** Where it matters: an insert, a tagged insert and a tombstone of one record, in this order.
      The tombstone leaves with the tagged insert, so that the other insert stays. */
  lemma TaggedInsertTakesTombstone(a: Wrapped, b: Wrapped, c: Wrapped)
    requires a.rec == b.rec == c.rec && !a.tombstone && !b.tombstone && c.tombstone
    requires !a.deleted && b.deleted && Header(a) <= Header(b) <= Header(c)
    ensures var out := Live(Pass(SortedView([a, b, c])).0);
            Net([a, b, c], a.rec) == 0 && out == [a] && Net(out, a.rec) == 1
  {
    hide Pass, SortedView, Header, WrappedSorted, Live, Net;
    var view := [a, b, c];
    InOrder(view);
    SortedViewIsTheOne(view, view);
    PassOfThree(a, b, c);
    LiveOne(a);
    NetOfThree(a, b, c);
  }

  lemma NetOfThree(a: Wrapped, b: Wrapped, c: Wrapped)
    ensures Net([a], a.rec) == Weight(a, a.rec)
    ensures Net([a, b, c], a.rec) == Weight(a, a.rec) + Weight(b, a.rec) + Weight(c, a.rec)
  {
    assert [a, b, c][1..] == [b, c] && [b, c][1..] == [c] && [c][1..] == [];
    assert Net([b, c], a.rec) == Weight(b, a.rec) + Net([c], a.rec);
  }

  lemma PassOfThree(a: Wrapped, b: Wrapped, c: Wrapped)
    requires b.rec == c.rec && !b.tombstone && c.tombstone
    ensures Pass([a, b, c]) == ([a], [b, c])
  {
    hide Pass;
    NothingPassed();
    PassPair(b, c, []);
    PassOne(a, [b, c]);
    assert [a, b, c] == [a] + [b, c] && [b, c] == [b, c] + [] && [a] + [] == [a];
  }

  lemma InOrder(s: seq<Wrapped>)
    requires forall i, j :: 0 <= i < j < |s| ==> s[i].rec == s[j].rec && Header(s[i]) <= Header(s[j])
    ensures WrappedSorted(s)
  {
    hide Header;
  }

  /** A pass need not cancel all that could be cancelled: of two inserts and two tombstones of
      one record, the inner pair leaves and the outer pair stays. */
  lemma PairStays(a: Wrapped, b: Wrapped, c: Wrapped, d: Wrapped)
    requires a.rec == b.rec == c.rec == d.rec && !a.tombstone && !b.tombstone && c.tombstone && d.tombstone
    requires Header(a) <= Header(b) <= Header(c) <= Header(d)
    ensures Pass(SortedView([a, b, c, d])) == ([a, d], [b, c])
  {
    hide Pass, SortedView, Header, WrappedSorted;
    var view := [a, b, c, d];
    InOrder(view);
    SortedViewIsTheOne(view, view);
    PassOfFour(a, b, c, d);
  }

  lemma PassOfFour(a: Wrapped, b: Wrapped, c: Wrapped, d: Wrapped)
    requires b.rec == c.rec && !b.tombstone && c.tombstone
    ensures Pass([a, b, c, d]) == ([a, d], [b, c])
  {
    hide Pass;
    NothingPassed();
    PassOne(d, []);
    PassPair(b, c, [d]);
    var rest := [b, c] + [d];
    PassOne(a, rest);
    assert [a, b, c, d] == [a] + rest && [d] == [d] + [] && [a] + [d] == [a, d] && [b, c] + [] == [b, c];
  }

  lemma TombstonesSnoc(s: seq<Wrapped>, w: Wrapped)
    ensures Tombstones(s + [w]) == Tombstones(s) + if w.tombstone then 1 else 0
  {
    TombstonesConcat(s, [w]);
  }

  /** The sorted array of a buffer's records. */
  method SortedArrayFromBufferView(view: seq<Wrapped>) returns (out: seq<Wrapped>, info: MergeInfo)
    ensures info == MergeInfo(|out|, Tombstones(out)) && out == Cleared(Live(Pass(SortedView(view)).0))
    ensures Sorted(out) && Untagged(out) && |out| <= |view|
    ensures Untagged(view) || Tombstones(view) == 0 ==> SameNet(view, out)
    ensures Tombstones(view) == 0 ==> multiset(out) == multiset(Cleared(Live(view)))
    ensures forall r :: Net(out, r) >= Net(view, r) && (OneKindAt(view, r) ==> Net(out, r) == Net(view, r))
    ensures SameNet(view, out) <==> TagsHarmless(SortedView(view))
  {
    hide Tombstones, Sorted, Untagged, Net, TagsHarmless, WrappedSorted, SortedView, Pass;
    var temp := SortedView(view);
    var base := 0;
    out, info := [], MergeInfo(0, 0);
    ghost var taken := [];
    NoTombstones();
    assert temp[0..] == temp;
    while base < |temp|
      invariant base <= |temp| && taken + Pass(temp[base..]).0 == Pass(temp).0
      invariant out == Cleared(Live(taken)) && info == MergeInfo(|out|, Tombstones(out))
    {
      PassFrom(temp, base);
      if !temp[base].tombstone && base + 1 < |temp| && temp[base].rec == temp[base + 1].rec
          && temp[base + 1].tombstone {
        base := base + 2;
      } else {
        var w := temp[base];
        assert (taken + [w])[..|taken|] == taken;
        if !w.deleted {
          var kept := w.(stamp := 0);
          assert Live(taken + [w]) == Live(taken) + [w];
          assert Cleared(Live(taken) + [w]) == Cleared(Live(taken)) + [kept];
          TombstonesSnoc(out, kept);
          out := out + [kept];
          info := MergeInfo(info.recordCount + 1, info.tombstoneCount + if kept.tombstone then 1 else 0);
        }
        taken := taken + [w];
        base := base + 1;
      }
    }
    assert temp[base..] == [];
    NothingPassed();
    assert taken + [] == taken;
    PassSurvives(view);
  }

  lemma PassFrom(s: seq<Wrapped>, i: nat)
    requires i < |s|
    ensures Pass(s[i..]).0 == if PairAt(s, i) then Pass(s[i + 2..]).0 else [s[i]] + Pass(s[i + 1..]).0
  {
    assert s[i..][1..] == s[i + 1..];
    if PairAt(s, i) {
      assert s[i..][2..] == s[i + 2..];
    }
  }

  lemma NoTombstones()
    ensures Tombstones([]) == 0
  {
  }

  lemma PassSurvives(view: seq<Wrapped>)
    ensures var out := Cleared(Live(Pass(SortedView(view)).0));
            && Sorted(out) && Untagged(out) && |out| <= |view|
            && (Untagged(view) || Tombstones(view) == 0 ==> SameNet(view, out))
            && (Tombstones(view) == 0 ==> multiset(out) == multiset(Cleared(Live(view))))
            && (forall r :: Net(out, r) >= Net(view, r) && (OneKindAt(view, r) ==> Net(out, r) == Net(view, r)))
            && (SameNet(view, out) <==> TagsHarmless(SortedView(view)))
  {
    hide Tombstones, Pairs, Sorted, Untagged, Net, NoTagged, TagsHarmless, WrappedSorted, SortedView, Pass, Live;
    var s := SortedView(view);
    WrappedSortedIsSorted(s);
    PassSplits(s);
    HarmlessIff(s);
    TakenSurvive(view, Pass(s).0, Pass(s).1);
    ClearedSurvive(view, Live(Pass(s).0));
    TagsIff(view, Pass(s).0, Pass(s).1);
    ClearedNet(view, Live(Pass(s).0));
  }

  lemma ClearedNet(all: seq<Wrapped>, out: seq<Wrapped>)
    ensures SameNet(all, Cleared(out)) <==> SameNet(all, out)
  {
    forall r ensures Net(Cleared(out), r) == Net(out, r) { ClearedSame(out, r); }
  }

  // ---------------------------------------------------------------------------
  // Merging arrays
  // ---------------------------------------------------------------------------

  /** A position in a sorted array. */
  datatype Cursor = Cursor(recs: seq<Wrapped>, at: nat)

  function Ahead(cursors: seq<Cursor>): (rest: seq<seq<Wrapped>>)
    ensures |rest| == |cursors|
    ensures forall i :: 0 <= i < |rest| ==>
              rest[i] == if cursors[i].at < |cursors[i].recs| then cursors[i].recs[cursors[i].at + 1..] else []
  {
    seq(|cursors|, i requires 0 <= i < |cursors| =>
      if cursors[i].at < |cursors[i].recs| then cursors[i].recs[cursors[i].at + 1..] else [])
  }

  lemma {:induction false} MinExists(heap: seq<Node>)
    requires heap != []
    ensures exists k: nat :: IsMin(heap, k)
  {
    hide Header;
    var n := |heap| - 1;
    if n == 0 {
      assert IsMin(heap, 0);
    } else {
      MinExists(heap[..n]);
      var k: nat :| IsMin(heap[..n], k);
      assert forall j :: 0 <= j < n ==> heap[j] == heap[..n][j];
      if WrappedLess(heap[n].rec, heap[k].rec) {
        assert IsMin(heap, n);
      } else {
        assert IsMin(heap, k);
      }
    }
  }

  /** The entry that the queue shows; which of several equal ones is left open. */
  method Peek(heap: seq<Node>) returns (k: nat)
    requires heap != []
    ensures IsMin(heap, k) && IsTop(heap, k)
  {
    MinExists(heap);
    k :| k < |heap| && forall j :: 0 <= j < |heap| ==> !WrappedLess(heap[j].rec, heap[k].rec);
    forall j | 0 <= j < |heap| ensures !Less(heap[j].rec.rec, heap[k].rec.rec) {
      assert !WrappedLess(heap[j].rec, heap[k].rec);
    }
  }

  /** Moves a cursor on and queues its next record, if there is one. */
  method AdvanceCursor(heap: seq<Node>, cursors: seq<Cursor>, i: nat) returns (heap': seq<Node>, cursors': seq<Cursor>)
    requires i < |cursors|
    ensures |cursors'| == |cursors|
    ensures Ahead(cursors') == if Ahead(cursors)[i]
            == [] then Ahead(cursors) else Ahead(cursors)[i := Ahead(cursors)[i][1..]]
    ensures heap' == if Ahead(cursors)[i] == [] then heap else heap + [Node(Ahead(cursors)[i][0], i)]
  {
    var c := cursors[i];
    cursors' := cursors[i := c.(at := c.at + 1)];
    heap' := heap;
    if c.at + 1 < |c.recs| {
      heap' := heap + [Node(c.recs[c.at + 1], i)];
      assert c.recs[c.at + 1..][1..] == c.recs[c.at + 2..];
      assert Ahead(cursors') == Ahead(cursors)[i := Ahead(cursors)[i][1..]];
    } else {
      assert Ahead(cursors') == Ahead(cursors);
    }
  }

  /** Popping two entries and then refilling for both is two steps of the merge. */
  lemma PopTwo(heap: seq<Node>, rest: seq<seq<Wrapped>>, k: nat, k1: nat)
    requires k < |heap| && k1 < |heap| - 1 && heap[k].run < |rest| && Without(heap, k)[k1].run < |rest|
    ensures var heap1, rest1 := Refilled(heap, rest, k), Pulled(heap, rest, k);
            && k1 < |heap1| && heap1[k1] == Without(heap, k)[k1]
            && (var both := Without(Without(heap, k), k1);
                var both1 := if rest[heap[k].run] == [] then both else both + [Node(rest[heap[k].run][0], heap[k].run)];
                var i := heap1[k1].run;
                Refilled(heap1, rest1, k1) == if rest1[i] == [] then both1 else both1 + [Node(rest1[i][0], i)])
  {
    var heap1 := Refilled(heap, rest, k);
    var both := Without(Without(heap, k), k1);
    if rest[heap[k].run] != [] {
      var n := Node(rest[heap[k].run][0], heap[k].run);
      assert heap1 == Without(heap, k) + [n];
      assert Without(heap1, k1) == both + [n];
    }
  }

  method StepOne(heap: seq<Node>, cursors: seq<Cursor>, k: nat) returns (heap': seq<Node>, cursors': seq<Cursor>)
    requires k < |heap| && heap[k].run < |cursors|
    ensures |cursors'| == |cursors|
    ensures heap' == Refilled(heap, Ahead(cursors), k) && Ahead(cursors') == Pulled(heap, Ahead(cursors), k)
  {
    heap', cursors' := AdvanceCursor(Without(heap, k), cursors, heap[k].run);
  }

  method StepTwo(heap: seq<Node>, cursors: seq<Cursor>, k: nat, k1: nat)
        returns (heap': seq<Node>, cursors': seq<Cursor>)
    requires k < |heap| && k1 < |heap| - 1 && heap[k].run < |cursors| && Without(heap, k)[k1].run < |cursors|
    ensures |cursors'| == |cursors|
    ensures var rest := Ahead(cursors);
            var heap1, rest1 := Refilled(heap, rest, k), Pulled(heap, rest, k);
            && k1 < |heap1| && heap1[k1] == Without(heap, k)[k1]
            && heap' == Refilled(heap1, rest1, k1) && Ahead(cursors') == Pulled(heap1, rest1, k1)
  {
    var popped := Without(Without(heap, k), k1);
    var next := Without(heap, k)[k1];
    PopTwo(heap, Ahead(cursors), k, k1);
    var heap1, cursors1 := AdvanceCursor(popped, cursors, heap[k].run);
    heap', cursors' := AdvanceCursor(heap1, cursors1, next.run);
  }

  lemma RunsInBounds(heap: seq<Node>, rest: seq<seq<Wrapped>>, k: nat)
    requires Ordered(heap, rest) && k < |heap|
    ensures heap[k].run < |rest| && forall j :: 0 <= j < |Without(heap, k)| ==> Without(heap, k)[j].run < |rest|
  {
  }

  /** Merges sorted arrays, none of them empty: the queue is loaded with the first record of
      each. */
  method SortedArrayMerge(runs: seq<seq<Wrapped>>)
      returns (out: seq<Wrapped>, info: MergeInfo, ghost taken: seq<Wrapped>, ghost gone: seq<Wrapped>)
    requires forall i :: 0 <= i < |runs| ==> runs[i] != [] && Sorted(runs[i])
    ensures info == MergeInfo(|out|, Tombstones(out))
    ensures Survivors(Flatten(runs), out)
    ensures Pairs(gone) && multiset(Flatten(runs)) == multiset(taken) + multiset(gone) && out == Live(taken)
    ensures SameNet(Flatten(runs), out) <==> NoTagged(taken, true) && NoTagged(gone, false)
    ensures PairedInQueue(runs, taken)
  {
    Started(runs);
    QueueStarts(runs);
    hide NoTagged, Pairs, Net, Merging, Ordered, Tombstones, Sorted, Survivors, Refilled, Pulled, WrappedLess, IsTop,
         IsMin, Queueing, PairedInQueue, Live, Flatten;
    var heap, cursors := Load(runs);
    ghost var all := Flatten(runs);
    taken, gone := [], [];
    out, info := [], MergeInfo(0, 0);
    NoTombstones();
    assert Live([]) == [] by { NothingLive(); }
    while heap != []
      invariant Merging(all, taken, gone, heap, Ahead(cursors))
      invariant Queueing(runs, gone, heap, Ahead(cursors))
      invariant out == Live(taken) && info == MergeInfo(|out|, Tombstones(out))
      decreases |heap| + |Flatten(Ahead(cursors))|
    {
      ghost var rest := Ahead(cursors);
      StillMerging(all, taken, gone, heap, rest);
      var k := Peek(heap);
      TopInside(heap, k);
      RunsInBounds(heap, rest, k);
      RefillShrinks(heap, rest, k);
      var now := heap[k].rec;
      var next := PeekNext(heap, k);
      if !now.tombstone && next.Some? && now.rec == Without(heap, k)[next.value].rec.rec
          && Without(heap, k)[next.value].rec.tombstone {
        var k1 := next.value;
        ghost var heap1, rest1 := Refilled(heap, rest, k), Pulled(heap, rest, k);
        var heap', cursors' := StepTwo(heap, cursors, k, k1);
        TwoTaken(runs, taken, gone, heap, rest, k, heap1, rest1, k1);
        RefillShrinks(heap1, rest1, k1);
        gone := gone + [now, heap1[k1].rec];
        heap, cursors := heap', cursors';
      } else {
        OneTaken(runs, taken, gone, heap, rest, k, if next.Some? then next.value else 0);
        LiveSnoc(taken, now);
        out, info := Emit(out, info, now);
        taken := taken + [now];
        heap, cursors := StepOne(heap, cursors, k);
      }
    }
    MergeEnds(runs, taken, gone, Ahead(cursors));
  }

  lemma NothingLive()
    ensures Live([]) == []
  {
  }

  lemma LiveSnoc(s: seq<Wrapped>, w: Wrapped)
    ensures Live(s + [w]) == if w.deleted then Live(s) else Live(s) + [w]
  {
    assert (s + [w])[..|s|] == s;
  }

  /** Writes an entry, unless it is tagged, and counts it. */
  method Emit(out: seq<Wrapped>, info: MergeInfo, w: Wrapped) returns (out': seq<Wrapped>, info': MergeInfo)
    requires info == MergeInfo(|out|, Tombstones(out))
    ensures out' == (if w.deleted then out else out + [w]) && info' == MergeInfo(|out'|, Tombstones(out'))
  {
    out', info' := out, info;
    if !w.deleted {
      TombstonesSnoc(out, w);
      out' := out + [w];
      info' := MergeInfo(info.recordCount + 1, info.tombstoneCount + if w.tombstone then 1 else 0);
    }
  }

  lemma MergeEnds(runs: seq<seq<Wrapped>>, taken: seq<Wrapped>, gone: seq<Wrapped>, rest: seq<seq<Wrapped>>)
    requires Merging(Flatten(runs), taken, gone, [], rest) && Queueing(runs, gone, [], rest)
    ensures Survivors(Flatten(runs), Live(taken)) && PairedInQueue(runs, taken)
    ensures Pairs(gone) && multiset(Flatten(runs)) == multiset(taken) + multiset(gone)
    ensures SameNet(Flatten(runs), Live(taken)) <==> NoTagged(taken, true) && NoTagged(gone, false)
  {
    hide Merging, Queueing, Survivors, PairedInQueue, Pairs, Sorted, NoTagged, Net, Flatten, Live;
    UsedUp(Flatten(runs), taken, gone, rest);
    QueueEnds(runs, taken, gone, rest);
    TakenSurvive(Flatten(runs), taken, gone);
    TagsIff(Flatten(runs), taken, gone);
  }

  lemma TopInside(heap: seq<Node>, k: nat)
    requires IsTop(heap, k)
    ensures k < |heap|
  {
  }

  /** The entry below the top, if there is one. */
  method PeekNext(heap: seq<Node>, k: nat) returns (next: Option<nat>)
    requires k < |heap|
    ensures next.Some? <==> |heap| > 1
    ensures next.Some? ==> next.value < |heap| - 1 && IsMin(Without(heap, k), next.value)
  {
    next := None;
    if |heap| > 1 {
      var k1 := Peek(Without(heap, k));
      next := Some(k1);
    }
  }

  method Load(runs: seq<seq<Wrapped>>) returns (heap: seq<Node>, cursors: seq<Cursor>)
    requires forall i :: 0 <= i < |runs| ==> runs[i] != []
    ensures heap == Heads(runs) && Ahead(cursors) == Tails(runs)
  {
    heap, cursors := [], [];
    for i := 0 to |runs|
      invariant |heap| == |cursors| == i
      invariant forall j :: 0 <= j < i ==> heap[j] == Node(runs[j][0], j) && cursors[j] == Cursor(runs[j], 0)
    {
      heap, cursors := heap + [Node(runs[i][0], i)], cursors + [Cursor(runs[i], 0)];
    }
  }

  // ---------------------------------------------------------------------------
  // Any tree of merges
  // ---------------------------------------------------------------------------

  /** How a shard came about: from a buffer, or from other shards. */
  datatype Origin = FromView(view: seq<Wrapped>) | FromShards(parts: seq<Origin>)

  /** All operations that went into it. */
  function Operations(o: Origin): seq<Wrapped> {
    match o
    case FromView(view) => view
    case FromShards(parts) => OperationsOf(parts)
  }

  function OperationsOf(parts: seq<Origin>): seq<Wrapped> {
    if parts == [] then [] else Operations(parts[0]) + OperationsOf(parts[1..])
  }

  /** No buffer mixes tags and tombstones. */
  ghost predicate OneKindOfDelete(o: Origin) {
    match o
    case FromView(view) => Untagged(view) || Tombstones(view) == 0
    case FromShards(parts) => OneKindOfDeleteIn(parts)
  }

  ghost predicate OneKindOfDeleteIn(parts: seq<Origin>) {
    parts == [] || (OneKindOfDelete(parts[0]) && OneKindOfDeleteIn(parts[1..]))
  }

  /** The operations of every part below a merge leave some record with a net count other
      than zero. */
  ghost predicate PartsWeigh(o: Origin) {
    match o
    case FromView(_) => true
    case FromShards(parts) => AllWeigh(parts)
  }

  ghost predicate AllWeigh(parts: seq<Origin>) {
    parts == [] || (!SameNet(Operations(parts[0]), []) && PartsWeigh(parts[0]) && AllWeigh(parts[1..]))
  }

  /** Builds the whole tree; `None` where a merge would meet an empty input. */
  method Build(o: Origin) returns (out: Option<seq<Wrapped>>, info: MergeInfo)
    ensures out.Some? ==> info == MergeInfo(|out.value|, Tombstones(out.value))
    ensures out.Some? ==> Sorted(out.value) && Untagged(out.value)
    ensures out.Some? && OneKindOfDelete(o) ==> SameNet(Operations(o), out.value)
    ensures out.Some? && Tombstones(Operations(o)) == 0 ==>
            multiset(out.value) == multiset(Cleared(Live(Operations(o))))
    ensures o.FromView? || (OneKindOfDelete(o) && PartsWeigh(o)) ==> out.Some?
    ensures Tombstones(Operations(o)) == 0 ==> (out.Some? <==> PartsWeigh(o))
    decreases o
  {
    match o
    case FromView(view) =>
      var s, i := SortedArrayFromBufferView(view);
      out, info := Some(s), i;
    case FromShards(parts) =>
      var runs := BuildAll(parts);
      info := MergeInfo(0, 0);
      if runs.None? {
        return None, info;
      }
      var s, i, _, _ := SortedArrayMerge(runs.value);
      MergedParts(parts, runs.value, s);
      out, info := Some(s), i;
  }

  ghost predicate RunsOf(parts: seq<Origin>, runs: seq<seq<Wrapped>>) {
    && Untagged(Flatten(runs))
    && (OneKindOfDeleteIn(parts) ==> SameNet(OperationsOf(parts), Flatten(runs)))
    && (Tombstones(OperationsOf(parts)) == 0 ==>
          multiset(Flatten(runs)) == multiset(Cleared(Live(OperationsOf(parts)))))
  }

  method BuildAll(parts: seq<Origin>) returns (runs: Option<seq<seq<Wrapped>>>)
    ensures runs.Some? ==> forall i :: 0 <= i < |runs.value| ==> runs.value[i] != [] && Sorted(runs.value[i])
    ensures runs.Some? ==> RunsOf(parts, runs.value)
    ensures OneKindOfDeleteIn(parts) && AllWeigh(parts) ==> runs.Some?
    ensures Tombstones(OperationsOf(parts)) == 0 ==> (runs.Some? <==> AllWeigh(parts))
    decreases parts
  {
    hide Sorted, Net, Cleared, SameNet, Tombstones, RunsOf, Live;
    if parts == [] {
      NoParts();
      return Some([]);
    }
    TombstonesConcat(Operations(parts[0]), OperationsOf(parts[1..]));
    var first, _ := Build(parts[0]);
    if first.None? {
      return None;
    }
    BuiltEmpty(parts[0], first.value);
    if first.value == [] {
      return None;
    }
    var others := BuildAll(parts[1..]);
    if others.None? {
      return None;
    }
    runs := Some([first.value] + others.value);
    OneMorePart(parts, first.value, others.value);
  }

  /** A part without records weighs nothing, and without tombstones the converse holds. */
  lemma BuiltEmpty(o: Origin, out: seq<Wrapped>)
    requires OneKindOfDelete(o) ==> SameNet(Operations(o), out)
    requires Tombstones(Operations(o)) == 0 ==> multiset(out) == multiset(Cleared(Live(Operations(o))))
    ensures OneKindOfDelete(o) && out == [] ==> SameNet(Operations(o), [])
    ensures Tombstones(Operations(o)) == 0 ==> (out == [] <==> SameNet(Operations(o), []))
  {
    var ops := Operations(o);
    if Tombstones(ops) == 0 {
      var live := Live(ops);
      forall r ensures Net(live, r) == Net(ops, r) && Tombstones(live) == 0 { LiveNet(ops, r); }
      assert |multiset(out)| == |multiset(Cleared(live))|;
      if live != [] {
        LiveUntagged(ops);
        LiveNet(ops, live[0].rec);
        InsertsWeigh(live, live[0].rec);
      }
    }
  }

  lemma {:induction false} LiveUntagged(s: seq<Wrapped>)
    ensures Untagged(Live(s))
  {
    if s != [] {
      LiveUntagged(s[..|s| - 1]);
    }
  }

  lemma {:induction false} InsertsWeigh(s: seq<Wrapped>, r: Record)
    requires Untagged(s) && Tombstones(s) == 0
    ensures Net(s, r) >= 0 && (s != [] && s[0].rec == r ==> Net(s, r) > 0)
  {
    if s != [] {
      InsertsWeigh(s[1..], r);
    }
  }

  lemma NoParts()
    ensures RunsOf([], [])
  {
  }

  lemma OneMorePart(parts: seq<Origin>, first: seq<Wrapped>, others: seq<seq<Wrapped>>)
    requires parts != [] && Untagged(first) && RunsOf(parts[1..], others)
    requires OneKindOfDelete(parts[0]) ==> SameNet(Operations(parts[0]), first)
    requires Tombstones(Operations(parts[0])) == 0 ==> multiset(first) == multiset(Cleared(Live(Operations(parts[0]))))
    ensures RunsOf(parts, [first] + others)
  {
    var a, b := Operations(parts[0]), OperationsOf(parts[1..]);
    assert ([first] + others)[1..] == others;
    assert Flatten([first] + others) == first + Flatten(others);
    TombstonesConcat(a, b);
    forall r ensures Net(a + b, r) == Net(a, r) + Net(b, r)
        && Net(first + Flatten(others), r) == Net(first, r) + Net(Flatten(others), r) {
      NetConcat(a, b, r);
      NetConcat(first, Flatten(others), r);
    }
    LiveConcat(a, b);
    assert Cleared(Live(a) + Live(b)) == Cleared(Live(a)) + Cleared(Live(b));
  }

  lemma MergedParts(parts: seq<Origin>, runs: seq<seq<Wrapped>>, out: seq<Wrapped>)
    requires RunsOf(parts, runs) && Survivors(Flatten(runs), out)
    ensures Sorted(out) && Untagged(out)
    ensures OneKindOfDeleteIn(parts) ==> SameNet(OperationsOf(parts), out)
    ensures Tombstones(OperationsOf(parts)) == 0 ==> multiset(out) == multiset(Cleared(Live(OperationsOf(parts))))
  {
    var ops := OperationsOf(parts);
    if OneKindOfDeleteIn(parts) {
      forall r ensures Net(ops, r) == Net(out, r) { assert Net(Flatten(runs), r) == Net(out, r); }
    }
    if Tombstones(ops) == 0 {
      LiveNet(ops, Record(0, 0));
      ClearedSame(Live(ops), Record(0, 0));
      TombstonesPermutation(Flatten(runs), Cleared(Live(ops)));
      LiveOfUntagged(Flatten(runs));
    }
  }
}
