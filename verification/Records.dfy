/** Records, their wrapped form, and the net count that every other module preserves.

    A wrapped record is an insert or a tombstone. What the framework means by its
    contents is one number per record: inserts minus tombstones. */
module Records {

  /** A key-value record, ordered by key and then by value. */
  datatype Record = Record(key: int, value: int)

  /** A record with its header. The header word is split into the tombstone bit, the
      delete tag and the remaining bits (visibility and timestamp), called the stamp. */
  datatype Wrapped = Wrapped(rec: Record, tombstone: bool, deleted: bool, stamp: nat)

  datatype Option<+T> = None | Some(value: T)

  predicate Less(a: Record, b: Record) {
    a.key < b.key || (a.key == b.key && a.value < b.value)
  }

  /** The header as the number that the wrapped order compares. */
  function Header(w: Wrapped): nat {
    (if w.tombstone then 1 else 0) + (if w.deleted then 2 else 0) + 4 * w.stamp
  }

  predicate WrappedLess(a: Wrapped, b: Wrapped) {
    Less(a.rec, b.rec) || (a.rec == b.rec && Header(a) < Header(b))
  }

  /** Sorted by record; equal records may stand in any order. */
  ghost predicate Sorted(s: seq<Wrapped>) {
    forall i, j :: 0 <= i < j < |s| ==> !Less(s[j].rec, s[i].rec)
  }

  ghost predicate Untagged(s: seq<Wrapped>) {
    forall i :: 0 <= i < |s| ==> !s[i].deleted
  }

  /** What one entry adds to the count of `r`. */
  function Weight(w: Wrapped, r: Record): int {
    if w.rec != r then 0 else if w.tombstone then -1 else if w.deleted then 0 else 1
  }

  /** Inserts of `r` minus tombstones of `r`. */
  function Net(s: seq<Wrapped>, r: Record): int {
    if s == [] then 0 else Weight(s[0], r) + Net(s[1..], r)
  }

  function Tombstones(s: seq<Wrapped>): nat {
    if s == [] then 0 else (if s[0].tombstone then 1 else 0) + Tombstones(s[1..])
  }

  function Flatten(runs: seq<seq<Wrapped>>): seq<Wrapped> {
    if runs == [] then [] else runs[0] + Flatten(runs[1..])
  }

  ghost predicate SameNet(a: seq<Wrapped>, b: seq<Wrapped>) {
    forall r :: Net(a, r) == Net(b, r)
  }

  /** `after` holds what `before` held plus the operations of `batch`. */
  ghost predicate AddsNet(before: seq<Wrapped>, batch: seq<Wrapped>, after: seq<Wrapped>) {
    forall r :: Net(after, r) == Net(before, r) + Net(batch, r)
  }

  lemma {:induction false} NetConcat(a: seq<Wrapped>, b: seq<Wrapped>, r: Record)
    ensures Net(a + b, r) == Net(a, r) + Net(b, r)
  {
    if a == [] {
      assert a + b == b;
    } else {
      NetConcat(a[1..], b, r);
      assert (a + b)[1..] == a[1..] + b;
    }
  }

  lemma NetSnoc(a: seq<Wrapped>, w: Wrapped, r: Record)
    ensures Net(a + [w], r) == Net(a, r) + Weight(w, r)
  {
    NetConcat(a, [w], r);
  }

  lemma NetRemoveAt(s: seq<Wrapped>, i: nat, r: Record)
    requires i < |s|
    ensures Net(s[..i] + s[i + 1..], r) == Net(s, r) - Weight(s[i], r)
  {
    assert s == s[..i] + ([s[i]] + s[i + 1..]);
    NetConcat(s[..i], [s[i]] + s[i + 1..], r);
    NetConcat(s[..i], s[i + 1..], r);
  }

  lemma MultisetRemoveAt<T>(s: seq<T>, i: nat)
    requires i < |s|
    ensures multiset(s) - multiset{s[i]} == multiset(s[..i] + s[i + 1..])
  {
    assert s == s[..i] + [s[i]] + s[i + 1..];
    assert multiset(s) == multiset(s[..i] + s[i + 1..]) + multiset{s[i]};
  }

  lemma InsertBag<T>(t: seq<T>, k: nat, w: T)
    requires k <= |t|
    ensures multiset(t[..k] + [w] + t[k..]) == multiset(t) + multiset{w}
  {
    assert t == t[..k] + t[k..];
  }

  /** The induction step for permutations: the first element of one, found in the other. */
  lemma MatchFirst<T>(a: seq<T>, b: seq<T>) returns (i: nat)
    requires multiset(a) == multiset(b) && a != []
    ensures i < |b| && b[i] == a[0] && multiset(a[1..]) == multiset(b[..i] + b[i + 1..])
  {
    assert a[0] in multiset(b);
    i :| 0 <= i < |b| && b[i] == a[0];
    MultisetRemoveAt(b, i);
    assert a == [a[0]] + a[1..];
    assert multiset(a) - multiset{a[0]} == multiset(a[1..]);
  }

  lemma NoElements<T>(a: seq<T>, b: seq<T>)
    requires multiset(a) == multiset(b)
    ensures a == [] ==> b == []
  {
    assert |multiset(a)| == |multiset(b)|;
  }

  lemma {:induction false} NetPermutation(a: seq<Wrapped>, b: seq<Wrapped>, r: Record)
    requires multiset(a) == multiset(b)
    ensures Net(a, r) == Net(b, r)
    decreases |a|
  {
    NoElements(a, b);
    if a != [] {
      var i := MatchFirst(a, b);
      NetRemoveAt(b, i, r);
      NetPermutation(a[1..], b[..i] + b[i + 1..], r);
    }
  }

  lemma {:induction false} TombstonesConcat(a: seq<Wrapped>, b: seq<Wrapped>)
    ensures Tombstones(a + b) == Tombstones(a) + Tombstones(b)
  {
    if a == [] {
      assert a + b == b;
    } else {
      TombstonesConcat(a[1..], b);
      assert (a + b)[1..] == a[1..] + b;
    }
  }

  lemma {:induction false} FlattenConcat(a: seq<seq<Wrapped>>, b: seq<seq<Wrapped>>)
    ensures Flatten(a + b) == Flatten(a) + Flatten(b)
  {
    if a == [] {
      assert a + b == b;
    } else {
      FlattenConcat(a[1..], b);
      assert (a + b)[1..] == a[1..] + b;
    }
  }

  /** Replacing one run changes the flattened sequence in that place only. */
  lemma {:induction false} FlattenSplit(runs: seq<seq<Wrapped>>, i: nat)
    requires i < |runs|
    ensures Flatten(runs) == Flatten(runs[..i]) + (runs[i] + Flatten(runs[i + 1..]))
  {
    assert runs[i..] == [runs[i]] + runs[i + 1..];
    assert runs == runs[..i] + runs[i..];
    FlattenConcat(runs[..i], runs[i..]);
  }

  lemma FlattenUpdate(runs: seq<seq<Wrapped>>, i: nat, s: seq<Wrapped>)
    requires i < |runs|
    ensures Flatten(runs[i := s]) == Flatten(runs[..i]) + (s + Flatten(runs[i + 1..]))
  {
    FlattenSplit(runs[i := s], i);
    assert runs[i := s][..i] == runs[..i];
    assert runs[i := s][i + 1..] == runs[i + 1..];
  }
}
