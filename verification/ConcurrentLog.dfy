/** Durability when operations arrive while a flush is under way, and runs go on after crashes.
    The flush takes its window on the buffer first and writes its begin marker only after the
    checkpoint; whatever is logged in between is in neither. A crash between marker and
    truncation leaves the marker in the log, and the next truncation keeps everything behind
    it. */
module ConcurrentLog {
  import opened Records
  import opened WriteAheadLogs

  /** Where the flush stands. The log is locked from the complete marker to the end of the
      rewriting. */
  datatype Phase =
    | Quiet
    | Windowed(tail: nat)
    | Saved
    | Begun
    | Moved
    | Completed
    | Rewriting(remaining: seq<Entry>)

  /** `ops` are the operations since the last restart, in the order of the buffer and of the
      log: those that the restart read back from the log, `given` in number, and then every
      acknowledged one. Of the `given` only the first `fits` found room in the buffer. `base` is
      the checkpoint that the restart found. Since then the operations before `cut` went into
      the checkpoint, the buffer's head moved to `head`, and the log was cut back to begin with
      operation `from`; `mark` of them precede the first begin marker in the log.

      The rest is history: all acknowledged operations, and what crashes lost and what they
      brought back although it was in the checkpoint or had been lost. */
  datatype State = State(
    hwm: nat,
    acked: seq<Wrapped>,
    lost: seq<Wrapped>,
    extra: seq<Wrapped>,
    base: seq<Wrapped>,
    ops: seq<Wrapped>,
    fits: nat,
    given: nat,
    checkpoint: seq<Wrapped>,
    log: seq<Entry>,
    phase: Phase,
    cut: nat,
    head: nat,
    from: nat,
    mark: Option<nat>)

  datatype Step =
    | LogOperation(rec: Record, tombstone: bool)
    | TakeWindow
    | SaveFlush(contents: seq<Wrapped>)
    | BeginMarker
    | MoveHead
    | CompleteMarker
    | Truncate
    | RewriteEntry
    | CrashAndRecover

  function Start(hwm: nat): State {
    State(hwm, [], [], [], [], [], 0, 0, [], [], Quiet, 0, 0, 0, None)
  }

  /** The operations at the positions that `keep` accepts. */
  function Pick(ops: seq<Wrapped>, keep: nat -> bool): seq<Wrapped> {
    if ops == [] then []
    else
      var n := |ops| - 1;
      Pick(ops[..n], keep) + if keep(n) then [ops[n]] else []
  }

  /** Those that are or were in the buffer. */
  function Entered(ops: seq<Wrapped>, fits: nat, given: nat): seq<Wrapped> {
    Pick(ops, i => i < fits || given <= i)
  }

  function Between(ops: seq<Wrapped>, fits: nat, given: nat, lo: nat, hi: nat): seq<Wrapped> {
    Pick(ops, i => lo <= i < hi && (i < fits || given <= i))
  }

  /** How many operations are in the buffer. */
  function Buffered(s: State): int {
    |s.ops| - s.head - if s.head < s.given then s.given - s.fits else 0
  }

  /** The first operation behind those that the log has. */
  function Upto(s: State): int {
    if s.phase.Rewriting? then |s.ops| - |s.phase.remaining| else |s.ops|
  }

  /** A restart would read operation i back into the buffer. */
  predicate ReadBack(s: State, i: nat) {
    s.from <= i < Upto(s) && i < s.from + s.hwm
  }

  /** In the buffer, and neither in the checkpoint nor read back. */
  predicate LostAt(s: State, i: nat) {
    (i < s.fits || s.given <= i) && s.cut <= i && !ReadBack(s, i)
  }

  /** Read back, and in the checkpoint or not in the buffer. */
  predicate ExtraAt(s: State, i: nat) {
    ReadBack(s, i) && (i < s.cut || s.fits <= i < s.given)
  }

  /** What a crash would lose, and what it would bring back in excess. */
  function Lost(s: State): seq<Wrapped> {
    Pick(s.ops, (i: nat) => LostAt(s, i))
  }

  function Extra(s: State): seq<Wrapped> {
    Pick(s.ops, (i: nat) => ExtraAt(s, i))
  }

  /** What queries see. */
  function Memory(s: State): seq<Wrapped> {
    s.base + Entered(s.ops, s.fits, s.given)
  }

  /** What they would see after a crash at this point. */
  function Recovered(s: State): seq<Wrapped> {
    s.checkpoint + Fitting(s.hwm, Replay(s.log))
  }

  /** The restart reads the log into the buffer and leaves the file as it is. */
  function Restarted(s: State): State {
    var back := Replay(s.log);
    State(s.hwm, s.acked, s.lost + Lost(s), s.extra + Extra(s), s.checkpoint, back, |Fitting(s.hwm, back)|, |back|,
          s.checkpoint, s.log, Quiet, 0, 0, 0,
          if s.mark.Some? && s.from <= s.mark.value then Some(s.mark.value - s.from) else None)
  }

  /** A flush of nothing ends at the assertion before its begin marker, so that step then does
      nothing. */
  ghost function Apply(s: State, a: Step): State {
    match a
    case LogOperation(rec, tombstone) =>
      if s.phase.Rewriting? || s.phase.Completed? || Buffered(s) >= s.hwm then s
      else
        var w := Wrapped(rec, tombstone, false, 0);
        s.(acked := s.acked + [w], ops := s.ops + [w], log := s.log + [Insert(w)])
    case TakeWindow =>
      if !s.phase.Quiet? then s else s.(phase := Windowed(|s.ops|))
    case SaveFlush(c) =>
      if !s.phase.Windowed? || !AddsNet(s.checkpoint, Between(s.ops, s.fits, s.given, s.cut, s.phase.tail), c) then s
      else s.(checkpoint := c, cut := s.phase.tail, phase := Saved)
    case BeginMarker =>
      if !s.phase.Saved? || s.cut <= s.head then s
      else s.(log := s.log + [FlushBegin], mark := if s.mark.Some? then s.mark else Some(|s.ops|), phase := Begun)
    case MoveHead =>
      if !s.phase.Begun? then s else s.(head := s.cut, phase := Moved)
    case CompleteMarker =>
      if !s.phase.Moved? then s else s.(log := s.log + [FlushComplete], phase := Completed)
    case Truncate =>
      if !s.phase.Completed? || s.mark.None? then s
      else s.(log := [], from := s.mark.value, mark := None, phase := Rewriting(Kept(s.log)))
    case RewriteEntry =>
      if !s.phase.Rewriting? then s
      else if s.phase.remaining == [] then s.(phase := Quiet)
      else s.(log := s.log + [s.phase.remaining[0]], phase := Rewriting(s.phase.remaining[1..]))
    case CrashAndRecover => Restarted(s)
  }

  ghost function Run(s: State, steps: seq<Step>): State {
    if steps == [] then s else Apply(Run(s, steps[..|steps| - 1]), steps[|steps| - 1])
  }

  // ---------------------------------------------------------------------------
  // Picking operations
  // ---------------------------------------------------------------------------

  lemma PickSnoc(ops: seq<Wrapped>, w: Wrapped, keep: nat -> bool)
    ensures Pick(ops + [w], keep) == Pick(ops, keep) + if keep(|ops|) then [w] else []
  {
    assert (ops + [w])[..|ops|] == ops;
  }

  lemma {:induction false} PickRange(ops: seq<Wrapped>, keep: nat -> bool, lo: nat, hi: nat)
    requires lo <= hi <= |ops| && forall i: nat :: i < |ops| ==> (keep(i) <==> lo <= i < hi)
    ensures Pick(ops, keep) == ops[lo..hi]
  {
    if ops != [] {
      var n := |ops| - 1;
      PickRange(ops[..n], keep, if lo <= n then lo else n, if hi <= n then hi else n);
      assert lo < hi == |ops| ==> ops[lo..hi] == ops[..n][lo..n] + [ops[n]];
    }
  }

  lemma {:induction false} PickNothingIff(ops: seq<Wrapped>, keep: nat -> bool)
    ensures Pick(ops, keep) == [] <==> forall i: nat :: i < |ops| ==> !keep(i)
  {
    if ops != [] {
      PickNothingIff(ops[..|ops| - 1], keep);
    }
  }

  function One(b: bool): int {
    if b then 1 else 0
  }

  lemma PickNetSnoc(ops: seq<Wrapped>, keep: nat -> bool, r: Record)
    requires ops != []
    ensures var n := |ops| - 1;
            Net(Pick(ops, keep), r) == Net(Pick(ops[..n], keep), r) + One(keep(n)) * Weight(ops[n], r)
  {
    var n := |ops| - 1;
    NetSnoc(Pick(ops[..n], keep), ops[n], r);
    assert Pick(ops[..n], keep) + [] == Pick(ops[..n], keep);
  }

  /** Two ways to pick the same operations, counted with repetition. */
  lemma {:induction false} PickBalance(ops: seq<Wrapped>, a: nat -> bool, b: nat -> bool, c: nat -> bool,
                                       d: nat -> bool, e: nat -> bool, r: Record)
    requires forall i: nat :: i < |ops| ==> One(a(i)) + One(b(i)) + One(c(i)) == One(d(i)) + One(e(i))
    ensures Net(Pick(ops, a), r) + Net(Pick(ops, b), r) + Net(Pick(ops, c), r)
         == Net(Pick(ops, d), r) + Net(Pick(ops, e), r)
  {
    if ops != [] {
      hide Pick, Net;
      var n := |ops| - 1;
      PickBalance(ops[..n], a, b, c, d, e, r);
      PickNetSnoc(ops, a, r);
      PickNetSnoc(ops, b, r);
      PickNetSnoc(ops, c, r);
      PickNetSnoc(ops, d, r);
      PickNetSnoc(ops, e, r);
      assert One(a(n)) + One(b(n)) + One(c(n)) == One(d(n)) + One(e(n));
      Scaled(One(a(n)), One(b(n)), One(c(n)), One(d(n)), One(e(n)), Weight(ops[n], r));
    } else {
      NothingPicked(a, r);
      NothingPicked(b, r);
      NothingPicked(c, r);
      NothingPicked(d, r);
      NothingPicked(e, r);
    }
  }

  lemma NothingPicked(keep: nat -> bool, r: Record)
    ensures Net(Pick([], keep), r) == 0
  {
  }

  lemma Scaled(a: int, b: int, c: int, d: int, e: int, w: int)
    requires a + b + c == d + e
    ensures a * w + b * w + c * w == d * w + e * w
  {
    assert (a + b + c) * w == (d + e) * w;
  }

  lemma SplitBetween(ops: seq<Wrapped>, fits: nat, given: nat, mid: nat, hi: nat, r: Record)
    requires mid <= hi
    ensures Net(Between(ops, fits, given, 0, hi), r)
         == Net(Between(ops, fits, given, 0, mid), r) + Net(Between(ops, fits, given, mid, hi), r)
  {
    PickBalance(ops, i => 0 <= i < mid && (i < fits || given <= i), i => mid <= i < hi && (i < fits || given <= i),
      _ => false, i => 0 <= i < hi && (i < fits || given <= i), _ => false, r);
  }

  // ---------------------------------------------------------------------------
  // The invariant
  // ---------------------------------------------------------------------------

  function Logged(ops: seq<Wrapped>): (log: seq<Entry>)
    ensures |log| == |ops| && forall i :: 0 <= i < |ops| ==> log[i] == Insert(ops[i])
  {
    seq(|ops|, i requires 0 <= i < |ops| => Insert(ops[i]))
  }

  /** Positions are in order, and the buffer has room for what is in it. */
  ghost predicate Positions(s: State) {
    && 1 <= s.hwm && s.fits <= s.given <= |s.ops| && s.fits <= s.hwm && (s.fits < s.given ==> s.fits == s.hwm)
    && s.head <= s.cut <= |s.ops| && (s.cut == 0 || s.given <= s.cut) && (s.head == 0 || s.given <= s.head)
    && s.from <= Upto(s) && (s.cut == 0 ==> s.from == 0) && Buffered(s) <= s.hwm
    && match s.phase
       case Windowed(tail) => s.head == s.cut <= tail <= |s.ops| && s.given <= tail
       case Saved => true
       case Begun => s.head < s.cut && s.mark.Some?
       case Moved => s.head == s.cut > 0 && s.mark.Some?
       case Completed => s.head == s.cut > 0 && s.mark.Some?
       case Rewriting(_) => s.head == s.cut > 0 && s.mark.None?
       case Quiet => s.head == s.cut
  }

  /** What the log file has, markers aside, and what truncation would keep of it. */
  ghost predicate LogHas(log: seq<Entry>, ops: seq<Wrapped>, from: nat, upto: int, mark: Option<nat>) {
    && from <= upto <= |ops| && Entries(log) == Logged(ops[from..upto])
    && (mark.Some? <==> Began(log))
    && (mark.Some? ==> from <= mark.value <= upto && Kept(log) == Logged(ops[mark.value..upto]))
  }

  ghost predicate LogInv(s: State) {
    && LogHas(s.log, s.ops, s.from, Upto(s), s.mark)
    && (s.phase.Rewriting? ==> 0 <= Upto(s) <= |s.ops| && s.phase.remaining == Logged(s.ops[Upto(s)..]))
  }

  /** The checkpoint counts what was flushed, and memory what was acknowledged, lost and
      brought back. */
  ghost predicate Accounts(s: State) {
    && AddsNet(s.base, Between(s.ops, s.fits, s.given, 0, s.cut), s.checkpoint)
    && (forall r :: Net(Memory(s), r) + Net(s.lost, r) == Net(s.acked, r) + Net(s.extra, r))
  }

  ghost predicate Inv(s: State) {
    Positions(s) && LogInv(s) && Accounts(s)
  }

  lemma StartHolds(hwm: nat)
    requires 1 <= hwm
    ensures Inv(Start(hwm))
  {
    assert Logged([]) == [];
  }

  // ---------------------------------------------------------------------------
  // The log file
  // ---------------------------------------------------------------------------

  lemma EntriesSnoc(log: seq<Entry>, e: Entry)
    ensures Entries(log + [e]) == Entries(log) + if Marker(e) then [] else [e]
  {
    assert (log + [e])[..|log|] == log;
  }

  /** An operation is logged. */
  lemma LogHasMore(log: seq<Entry>, ops: seq<Wrapped>, from: nat, mark: Option<nat>, w: Wrapped)
    requires LogHas(log, ops, from, |ops|, mark)
    ensures LogHas(log + [Insert(w)], ops + [w], from, |ops| + 1, mark)
  {
    hide Entries, Kept, Began;
    EntriesSnoc(log, Insert(w));
    KeptSnoc(log, Insert(w));
    assert Logged((ops + [w])[from..|ops| + 1]) == Logged(ops[from..|ops|]) + [Insert(w)];
    if mark.Some? {
      assert Logged((ops + [w])[mark.value..|ops| + 1]) == Logged(ops[mark.value..|ops|]) + [Insert(w)];
    }
  }

  /** A marker is written; the first begin marker stands where the log ends. */
  lemma LogHasMarker(log: seq<Entry>, ops: seq<Wrapped>, from: nat, mark: Option<nat>, m: Entry)
    requires LogHas(log, ops, from, |ops|, mark) && Marker(m)
    ensures LogHas(log + [m], ops, from, |ops|, if mark.Some? || m != FlushBegin then mark else Some(|ops|))
  {
    hide Entries, Kept, Began;
    EntriesSnoc(log, m);
    KeptSnoc(log, m);
    assert Entries(log) + [] == Entries(log) && Kept(log) + [] == Kept(log);
    if mark.None? {
      KeptNothing(log);
      assert Logged(ops[|ops|..|ops|]) == [];
    }
  }

  /** The file is emptied, and its entries are written back one by one. */
  lemma LogHasNothing(ops: seq<Wrapped>, from: nat)
    requires from <= |ops|
    ensures LogHas([], ops, from, from, None)
  {
    assert Logged(ops[from..from]) == [];
  }

  lemma LogHasNext(log: seq<Entry>, ops: seq<Wrapped>, from: nat, upto: nat)
    requires LogHas(log, ops, from, upto, None) && upto < |ops|
    ensures LogHas(log + [Insert(ops[upto])], ops, from, upto + 1, None)
  {
    hide Entries, Kept, Began;
    EntriesSnoc(log, Insert(ops[upto]));
    KeptSnoc(log, Insert(ops[upto]));
    assert Logged(ops[from..upto + 1]) == Logged(ops[from..upto]) + [Insert(ops[upto])];
  }

  lemma {:induction false} EntriesReplay(log: seq<Entry>)
    ensures Inserts(Entries(log)) == Inserts(log) && DeletedRecords(Entries(log)) == DeletedRecords(log)
  {
    if log != [] {
      var n := |log| - 1;
      EntriesReplay(log[..n]);
      if Marker(log[n]) {
        assert Entries(log) == Entries(log[..n]);
      } else {
        assert Entries(log)[..|Entries(log)| - 1] == Entries(log[..n]);
      }
    }
  }

  lemma {:induction false} LoggedReplays(ops: seq<Wrapped>)
    ensures Inserts(Logged(ops)) == ops && DeletedRecords(Logged(ops)) == []
  {
    if ops != [] {
      var n := |ops| - 1;
      LoggedReplays(ops[..n]);
      assert Logged(ops)[..n] == Logged(ops[..n]);
      assert ops == ops[..n] + [ops[n]];
    }
  }

  /** The log brings back a stretch of the operations. */
  lemma LogBringsBack(log: seq<Entry>, ops: seq<Wrapped>, from: nat, upto: nat, mark: Option<nat>)
    requires LogHas(log, ops, from, upto, mark)
    ensures Replay(log) == ops[from..upto]
  {
    hide Logged, Inserts, DeletedRecords, Entries;
    EntriesReplay(log);
    LoggedReplays(ops[from..upto]);
    NothingDeleted(ops[from..upto]);
  }

  // ---------------------------------------------------------------------------
  // Every step keeps it
  // ---------------------------------------------------------------------------

  lemma LoggingKeepsInv(s: State, a: Step)
    requires Inv(s) && a.LogOperation?
    ensures Inv(Apply(s, a))
  {
    hide Net, LogHas, Pick, AddsNet;
    var s' := Apply(s, a);
    if s' != s {
      var w := s'.ops[|s.ops|];
      LogHasMore(s.log, s.ops, s.from, s.mark, w);
      MoreAccounts(s, w);
    }
  }

  lemma MoreAccounts(s: State, w: Wrapped)
    requires Positions(s) && Accounts(s)
    ensures Between(s.ops + [w], s.fits, s.given, 0, s.cut) == Between(s.ops, s.fits, s.given, 0, s.cut)
    ensures var s' := s.(ops := s.ops + [w], acked := s.acked + [w]);
            forall r :: Net(Memory(s'), r) + Net(s.lost, r) == Net(s'.acked, r) + Net(s.extra, r)
  {
    hide Net, Pick, AddsNet;
    var s' := s.(ops := s.ops + [w], acked := s.acked + [w]);
    PickSnoc(s.ops, w, i => 0 <= i < s.cut && (i < s.fits || s.given <= i));
    PickSnoc(s.ops, w, i => i < s.fits || s.given <= i);
    assert Memory(s') == Memory(s) + [w];
    forall r ensures Net(Memory(s'), r) + Net(s.lost, r) == Net(s'.acked, r) + Net(s.extra, r) {
      NetSnoc(Memory(s), w, r);
      NetSnoc(s.acked, w, r);
      assert Net(Memory(s), r) + Net(s.lost, r) == Net(s.acked, r) + Net(s.extra, r);
    }
  }

  lemma SavingKeepsInv(s: State, a: Step)
    requires Inv(s) && (a.TakeWindow? || a.SaveFlush?)
    ensures Inv(Apply(s, a))
  {
    hide Net, LogHas, Between;
    var s' := Apply(s, a);
    if a.SaveFlush? && s' != s {
      forall r ensures Net(s'.checkpoint, r) == Net(s.base, r) + Net(Between(s.ops, s.fits, s.given, 0, s'.cut), r) {
        SplitBetween(s.ops, s.fits, s.given, s.cut, s'.cut, r);
        assert Net(s.checkpoint, r) == Net(s.base, r) + Net(Between(s.ops, s.fits, s.given, 0, s.cut), r);
      }
    }
  }

  lemma MarkingKeepsInv(s: State, a: Step)
    requires Inv(s) && (a.BeginMarker? || a.MoveHead? || a.CompleteMarker?)
    ensures Inv(Apply(s, a))
  {
    hide Net, LogHas, Between, Entered, AddsNet;
    if a.BeginMarker? && s.phase.Saved? {
      LogHasMarker(s.log, s.ops, s.from, s.mark, FlushBegin);
    }
    if a.CompleteMarker? && s.phase.Moved? {
      LogHasMarker(s.log, s.ops, s.from, s.mark, FlushComplete);
    }
  }

  lemma TruncatingKeepsInv(s: State, a: Step)
    requires Inv(s) && (a.Truncate? || a.RewriteEntry?)
    ensures Inv(Apply(s, a))
  {
    hide Net, Between, Entered, AddsNet, Entries, Kept, Began;
    if a.Truncate? && s.phase.Completed? {
      var m := s.mark.value;
      assert s.ops[m..|s.ops|] == s.ops[m..];
      LogHasNothing(s.ops, m);
    }
    if a.RewriteEntry? && s.phase.Rewriting? && s.phase.remaining != [] {
      var k := Upto(s);
      LogHasNext(s.log, s.ops, s.from, k);
      assert s.phase.remaining[1..] == Logged(s.ops[k + 1..]);
    }
  }

  lemma FittingSlice(hwm: nat, ops: seq<Wrapped>, from: nat, upto: nat) returns (end: nat)
    requires from <= upto <= |ops|
    ensures from <= end <= upto && (end == upto || end == from + hwm) && end <= from + hwm
    ensures Fitting(hwm, ops[from..upto]) == ops[from..end]
  {
    end := if upto <= from + hwm then upto else from + hwm;
    assert ops[from..upto][..end - from] == ops[from..end];
  }

  /** What a crash at this point changes. */
  lemma CrashChanges(s: State, r: Record)
    requires Inv(s)
    ensures Net(Recovered(s), r) + Net(Lost(s), r) == Net(Memory(s), r) + Net(Extra(s), r)
  {
    hide Net, Pick, Replay;
    LogBringsBack(s.log, s.ops, s.from, Upto(s), s.mark);
    var end := FittingSlice(s.hwm, s.ops, s.from, Upto(s));
    PickRange(s.ops, (i: nat) => ReadBack(s, i), s.from, end);
    NetConcat(s.checkpoint, s.ops[s.from..end], r);
    NetConcat(s.base, Entered(s.ops, s.fits, s.given), r);
    assert Net(s.checkpoint, r) == Net(s.base, r) + Net(Between(s.ops, s.fits, s.given, 0, s.cut), r);
    PickBalance(s.ops, (i: nat) => ReadBack(s, i), i => 0 <= i < s.cut && (i < s.fits || s.given <= i),
      (i: nat) => LostAt(s, i), i => i < s.fits || s.given <= i, (i: nat) => ExtraAt(s, i), r);
  }

  lemma CrashingKeepsInv(s: State)
    requires Inv(s)
    ensures Inv(Restarted(s))
  {
    hide Net, Pick, Replay, Lost, Extra, Entries, Kept, Began;
    var s' := Restarted(s);
    LogBringsBack(s.log, s.ops, s.from, Upto(s), s.mark);
    var back := s.ops[s.from..Upto(s)];
    assert LogInv(s') by {
      assert back[0..|back|] == back;
      if s.mark.Some? {
        assert s.ops[s.mark.value..Upto(s)] == back[s.mark.value - s.from..|back|];
      }
    }
    assert Positions(s');
    PickRange(back, i => i < s'.fits || s'.given <= i, 0, s'.fits);
    assert Entered(back, s'.fits, s'.given) == back[0..s'.fits] == Fitting(s.hwm, back);
    assert Memory(s') == Recovered(s);
    NothingAdded(s'.ops, s'.fits, s'.given, s.checkpoint);
    forall r ensures Net(Memory(s'), r) + Net(s'.lost, r) == Net(s'.acked, r) + Net(s'.extra, r) {
      CrashChanges(s, r);
      NetConcat(s.lost, Lost(s), r);
      NetConcat(s.extra, Extra(s), r);
      assert Net(Memory(s), r) + Net(s.lost, r) == Net(s.acked, r) + Net(s.extra, r);
    }
  }

  lemma NothingAdded(ops: seq<Wrapped>, fits: nat, given: nat, c: seq<Wrapped>)
    ensures AddsNet(c, Between(ops, fits, given, 0, 0), c)
  {
    PickNothingIff(ops, i => 0 <= i < 0 && (i < fits || given <= i));
  }

  lemma StepKeepsInv(s: State, a: Step)
    requires Inv(s)
    ensures Inv(Apply(s, a)) && Apply(s, a).hwm == s.hwm
  {
    hide Inv;
    match a
    case LogOperation(_, _) => LoggingKeepsInv(s, a);
    case TakeWindow => SavingKeepsInv(s, a);
    case SaveFlush(_) => SavingKeepsInv(s, a);
    case Truncate => TruncatingKeepsInv(s, a);
    case RewriteEntry => TruncatingKeepsInv(s, a);
    case CrashAndRecover => CrashingKeepsInv(s);
    case _ => MarkingKeepsInv(s, a);
  }

  lemma {:induction false} RunKeepsInv(hwm: nat, steps: seq<Step>)
    requires 1 <= hwm
    ensures Inv(Run(Start(hwm), steps)) && Run(Start(hwm), steps).hwm == hwm
  {
    if steps == [] {
      StartHolds(hwm);
    } else {
      var before, a := steps[..|steps| - 1], steps[|steps| - 1];
      RunKeepsInv(hwm, before);
      hide Inv, Apply;
      StepKeepsInv(Run(Start(hwm), before), a);
    }
  }

  // ---------------------------------------------------------------------------
  // What was acknowledged
  // ---------------------------------------------------------------------------

  /** The log is not locked and the buffer has room. */
  predicate LetsIn(s: State) {
    !s.phase.Rewriting? && !s.phase.Completed? && Buffered(s) < s.hwm
  }

  /** The operations that a run lets in, as their callers gave them. */
  ghost function LetIn(s: State, steps: seq<Step>): seq<(Record, bool)> {
    if steps == [] then []
    else
      var before, a := steps[..|steps| - 1], steps[|steps| - 1];
      LetIn(s, before) + if a.LogOperation? && LetsIn(Run(s, before)) then [(a.rec, a.tombstone)] else []
  }

  ghost predicate Told(ops: seq<Wrapped>, told: seq<(Record, bool)>) {
    && |ops| == |told|
    && forall i :: 0 <= i < |ops| ==> ops[i].rec == told[i].0 && ops[i].tombstone == told[i].1 && !ops[i].deleted
  }

  lemma StepTold(s: State, a: Step, told: seq<(Record, bool)>)
    requires Told(s.acked, told)
    ensures Told(Apply(s, a).acked, told + if a.LogOperation? && LetsIn(s) then [(a.rec, a.tombstone)] else [])
  {
    hide Net, Replay, Pick, Kept;
    assert told + [] == told;
  }

  /** Acknowledged is exactly what was let in, in order, whatever crashed in between. */
  lemma {:induction false} AckedIsLetIn(hwm: nat, steps: seq<Step>)
    ensures Told(Run(Start(hwm), steps).acked, LetIn(Start(hwm), steps))
  {
    if steps != [] {
      hide Apply, Told, LetsIn;
      AckedIsLetIn(hwm, steps[..|steps| - 1]);
      StepTold(Run(Start(hwm), steps[..|steps| - 1]), steps[|steps| - 1],
        LetIn(Start(hwm), steps[..|steps| - 1]));
    }
  }

  // ---------------------------------------------------------------------------
  // What a crash does
  // ---------------------------------------------------------------------------

  /** At every point of every run, after any number of crashes anywhere: the log brings back a
      stretch of the operations, the checkpoint counts those before `cut`, memory is what was
      acknowledged up to what crashes lost and brought back in excess, and so is what a crash
      at this point would leave. */
  lemma LogAndCheckpoint(hwm: nat, steps: seq<Step>)
    requires 1 <= hwm
    ensures var s := Run(Start(hwm), steps);
            && s.from <= Upto(s) <= |s.ops| && s.cut <= |s.ops|
            && Replay(s.log) == s.ops[s.from..Upto(s)]
            && AddsNet(s.base, Between(s.ops, s.fits, s.given, 0, s.cut), s.checkpoint)
            && (forall r :: Net(Memory(s), r) == Net(s.acked, r) - Net(s.lost, r) + Net(s.extra, r))
            && (forall r ::
                  Net(Recovered(s), r) == Net(s.acked, r) - Net(s.lost + Lost(s), r) + Net(s.extra + Extra(s), r))
  {
    RunKeepsInv(hwm, steps);
    var s := Run(Start(hwm), steps);
    hide Run, Net, Replay, Entries, Kept, Began, Pick, Lost, Extra, Recovered, Memory;
    LogBringsBack(s.log, s.ops, s.from, Upto(s), s.mark);
    forall r ensures Net(Recovered(s), r)
                  == Net(s.acked, r) - Net(s.lost + Lost(s), r) + Net(s.extra + Extra(s), r)
                  && Net(Memory(s), r) == Net(s.acked, r) - Net(s.lost, r) + Net(s.extra, r) {
      CrashChanges(s, r);
      NetConcat(s.lost, Lost(s), r);
      NetConcat(s.extra, Extra(s), r);
      assert Net(Memory(s), r) + Net(s.lost, r) == Net(s.acked, r) + Net(s.extra, r);
    }
  }

  /** A crash changes nothing. */
  ghost predicate Exact(s: State) {
    Lost(s) == [] && Extra(s) == []
  }

  /** The log has exactly what the checkpoint lacks. */
  predicate InStep(s: State) {
    (s.from == s.cut && Upto(s) == |s.ops|) || (s.from == Upto(s) && s.cut == |s.ops|)
  }

  /** Exactly when a crash changes nothing, in all runs and phases. */
  lemma ExactIff(hwm: nat, steps: seq<Step>)
    requires 1 <= hwm
    ensures Exact(Run(Start(hwm), steps)) <==> InStep(Run(Start(hwm), steps))
  {
    RunKeepsInv(hwm, steps);
    var s := Run(Start(hwm), steps);
    hide Run, Accounts, LogInv;
    PickNothingIff(s.ops, (i: nat) => LostAt(s, i));
    PickNothingIff(s.ops, (i: nat) => ExtraAt(s, i));
    if InStep(s) {
      NothingChanges(s);
    } else {
      var i := SomethingChanges(s);
      assert if LostAt(s, i) then ((i: nat) => LostAt(s, i))(i) else ((i: nat) => ExtraAt(s, i))(i);
    }
  }

  lemma NothingChanges(s: State)
    requires Positions(s) && InStep(s)
    ensures forall i: nat :: i < |s.ops| ==> !LostAt(s, i) && !ExtraAt(s, i)
  {
  }

  lemma SomethingChanges(s: State) returns (i: nat)
    requires Positions(s) && !InStep(s)
    ensures i < |s.ops| && (LostAt(s, i) || ExtraAt(s, i))
  {
    if s.from == s.cut {
      i := Upto(s);
    } else if s.from < s.cut && s.from < Upto(s) {
      i := s.from;
    } else {
      i := s.cut;
    }
  }

  function Min(a: nat, b: nat): nat {
    if a <= b then a else b
  }

  function Max(a: nat, b: nat): nat {
    if a <= b then b else a
  }

  /** A crash loses the operations between the checkpoint and the log, or brings back those that
      are in both and loses what finds no room behind them. */
  ghost predicate CrashEffect(s: State) {
    && s.from <= |s.ops| && s.cut <= |s.ops|
    && (s.cut <= s.from ==> Lost(s) == s.ops[s.cut..s.from] && Extra(s) == [])
    && (s.from < s.cut ==>
          && Extra(s) == s.ops[s.from..Min(s.cut, s.from + s.hwm)]
          && Lost(s) == s.ops[Max(s.cut, Min(|s.ops|, s.from + s.hwm))..])
  }

  /** What a crash changes, in all runs, while the log is not rewritten. */
  lemma CrashLaw(hwm: nat, steps: seq<Step>)
    requires 1 <= hwm && !Run(Start(hwm), steps).phase.Rewriting?
    ensures CrashEffect(Run(Start(hwm), steps))
  {
    RunKeepsInv(hwm, steps);
    hide *;
    CrashHas(Run(Start(hwm), steps));
  }

  lemma CrashHas(s: State)
    requires Inv(s) && !s.phase.Rewriting?
    ensures CrashEffect(s)
  {
    hide Inv, Lost, Extra;
    if s.cut <= s.from {
      EffectBehind(s);
    } else {
      EffectAhead(s);
    }
  }

  lemma EffectBehind(s: State)
    requires Inv(s) && !s.phase.Rewriting? && s.cut <= s.from
    ensures s.cut <= s.from <= |s.ops| && Lost(s) == s.ops[s.cut..s.from] && Extra(s) == []
  {
    hide Inv, LostAt, ExtraAt;
    Behind(s);
    PickRange(s.ops, (i: nat) => LostAt(s, i), s.cut, s.from);
    PickRange(s.ops, (i: nat) => ExtraAt(s, i), 0, 0);
  }

  lemma EffectAhead(s: State)
    requires Inv(s) && !s.phase.Rewriting? && s.from < s.cut
    ensures s.cut <= |s.ops| && Extra(s) == s.ops[s.from..Min(s.cut, s.from + s.hwm)]
    ensures Lost(s) == s.ops[Max(s.cut, Min(|s.ops|, s.from + s.hwm))..]
  {
    hide Inv, LostAt, ExtraAt;
    Ahead(s);
    PickRange(s.ops, (i: nat) => LostAt(s, i), Max(s.cut, Min(|s.ops|, s.from + s.hwm)), |s.ops|);
    PickRange(s.ops, (i: nat) => ExtraAt(s, i), s.from, Min(s.cut, s.from + s.hwm));
  }

  /** The log begins behind what the checkpoint has. */
  lemma Behind(s: State)
    requires Inv(s) && !s.phase.Rewriting? && s.cut <= s.from
    ensures s.from <= |s.ops|
    ensures forall i: nat :: i < |s.ops| ==> (LostAt(s, i) <==> s.cut <= i < s.from) && !ExtraAt(s, i)
  {
    hide Accounts, LogInv;
  }

  /** The log begins with something that the checkpoint has. */
  lemma Ahead(s: State)
    requires Inv(s) && !s.phase.Rewriting? && s.from < s.cut
    ensures s.cut <= |s.ops|
    ensures forall i: nat :: i < |s.ops| ==>
              && (LostAt(s, i) <==> Max(s.cut, Min(|s.ops|, s.from + s.hwm)) <= i)
              && (ExtraAt(s, i) <==> s.from <= i < Min(s.cut, s.from + s.hwm))
  {
    hide Accounts, LogInv;
  }

  // ---------------------------------------------------------------------------
  // Runs that lose nothing
  // ---------------------------------------------------------------------------

  /** No operation is accepted between a window and its marker, and no crash comes between a
      checkpoint and the end of the rewriting. */
  ghost predicate Careful(hwm: nat, steps: seq<Step>) {
    steps == [] ||
    (var before, a := steps[..|steps| - 1], steps[|steps| - 1];
     var s := Run(Start(hwm), before);
     && Careful(hwm, before)
     && (a.BeginMarker? && s.phase.Saved? ==> s.cut == |s.ops|)
     && (a.CrashAndRecover? ==> s.phase.Quiet? || s.phase.Windowed?))
  }

  ghost predicate Kempt(s: State) {
    && s.lost == [] && s.extra == []
    && match s.phase
       case Quiet => s.from == s.cut && s.mark.None?
       case Windowed(_) => s.from == s.cut && s.mark.None?
       case Saved => s.mark.None?
       case Begun => s.mark == Some(s.cut)
       case Moved => s.mark == Some(s.cut)
       case Completed => s.mark == Some(s.cut)
       case Rewriting(_) => s.from == s.cut && s.mark.None?
  }

  lemma {:induction false} CarefulIsKempt(hwm: nat, steps: seq<Step>)
    requires 1 <= hwm && Careful(hwm, steps)
    ensures Kempt(Run(Start(hwm), steps))
  {
    if steps != [] {
      var before, a := steps[..|steps| - 1], steps[|steps| - 1];
      CarefulIsKempt(hwm, before);
      var s := Run(Start(hwm), before);
      if a.CrashAndRecover? {
        ExactIff(hwm, before);
      }
      hide Run, Inv;
      KemptStep(s, a);
      RunSnoc(hwm, steps);
    }
  }

  lemma KemptStep(s: State, a: Step)
    requires Kempt(s)
    requires a.BeginMarker? && s.phase.Saved? ==> s.cut == |s.ops|
    requires a.CrashAndRecover? ==> (s.phase.Quiet? || s.phase.Windowed?) && (InStep(s) ==> Exact(s))
    ensures Kempt(Apply(s, a))
  {
    hide Pick, Net;
  }

  lemma RunSnoc(hwm: nat, steps: seq<Step>)
    requires steps != []
    ensures Run(Start(hwm), steps) == Apply(Run(Start(hwm), steps[..|steps| - 1]), steps[|steps| - 1])
  {
  }

  /** Whatever else happens in such a run, memory is what was acknowledged, and so is what a
      crash outside those stretches leaves. */
  lemma CarefulRunsAreExact(hwm: nat, steps: seq<Step>)
    requires 1 <= hwm && Careful(hwm, steps)
    ensures var s := Run(Start(hwm), steps);
            && SameNet(Memory(s), s.acked)
            && (s.phase.Quiet? || s.phase.Windowed? ==> SameNet(Recovered(s), s.acked))
  {
    CarefulIsKempt(hwm, steps);
    LogAndCheckpoint(hwm, steps);
    ExactIff(hwm, steps);
    var s := Run(Start(hwm), steps);
    hide Run, Lost, Extra, Memory, Recovered, Careful;
    assert Net([], Record(0, 0)) == 0 && forall r :: Net([], r) == 0;
  }

  // ---------------------------------------------------------------------------
  // One whole flush
  // ---------------------------------------------------------------------------

  ghost predicate OnlyLogs(steps: seq<Step>) {
    forall i :: 0 <= i < |steps| ==> steps[i].LogOperation?
  }

  /** Logging changes nothing but the log and the operations. */
  ghost predicate MoreLogged(s: State, t: State) {
    && s.ops <= t.ops && t.phase == s.phase && t.cut == s.cut && t.head == s.head && t.from == s.from
    && t.mark == s.mark && t.checkpoint == s.checkpoint && t.fits == s.fits && t.given == s.given
  }

  lemma {:induction false} LogsOnly(s0: State, before: seq<Step>, steps: seq<Step>)
    requires OnlyLogs(steps)
    ensures MoreLogged(Run(s0, before), Run(s0, before + steps))
  {
    if steps == [] {
      assert before + steps == before;
    } else {
      var n := |steps| - 1;
      LogsOnly(s0, before, steps[..n]);
      assert (before + steps)[..|before| + n] == before + steps[..n];
    }
  }

  lemma Snoc(s0: State, steps: seq<Step>, a: Step)
    ensures Run(s0, steps + [a]) == Apply(Run(s0, steps), a)
  {
    assert (steps + [a])[..|steps|] == steps;
  }

  lemma {:induction false} BetweenMore(ops: seq<Wrapped>, more: seq<Wrapped>, fits: nat, given: nat, lo: nat)
    requires ops <= more
    ensures Between(more, fits, given, lo, |ops|) == Between(ops, fits, given, lo, |ops|)
    decreases |more|
  {
    if ops != more {
      var n := |more| - 1;
      BetweenMore(ops, more[..n], fits, given, lo);
      PickSnoc(more[..n], more[n], i => lo <= i < |ops| && (i < fits || given <= i));
      assert more == more[..n] + [more[n]];
    }
  }

  /** The checkpoint of a flush in this state. */
  ghost predicate Saves(s: State, c: seq<Wrapped>) {
    AddsNet(s.checkpoint, Between(s.ops, s.fits, s.given, s.cut, |s.ops|), c)
  }

  /** Window, checkpoint and marker, with any operations in between. */
  function UptoMarker(first: seq<Step>, c: seq<Wrapped>, second: seq<Step>): seq<Step> {
    [TakeWindow] + first + [SaveFlush(c)] + second + [BeginMarker]
  }

  lemma MarkerRun(s0: State, before: seq<Step>, first: seq<Step>, c: seq<Wrapped>, second: seq<Step>)
    requires OnlyLogs(first) && OnlyLogs(second)
    requires var s := Run(s0, before); s.phase.Quiet? && s.head < |s.ops| && Saves(s, c)
    ensures var s, t := Run(s0, before), Run(s0, before + UptoMarker(first, c, second));
            && t.phase.Begun? && t.cut == |s.ops| <= |t.ops|
            && t.mark == if s.mark.Some? then s.mark else Some(|t.ops|)
  {
    hide Run, AddsNet, Between;
    var s := Run(s0, before);
    Snoc(s0, before, TakeWindow);
    var b1 := before + [TakeWindow];
    LogsOnly(s0, b1, first);
    var b2 := b1 + first;
    BetweenMore(s.ops, Run(s0, b2).ops, s.fits, s.given, s.cut);
    Snoc(s0, b2, SaveFlush(c));
    var b3 := b2 + [SaveFlush(c)];
    LogsOnly(s0, b3, second);
    var b4 := b3 + second;
    Snoc(s0, b4, BeginMarker);
    assert b4 + [BeginMarker] == before + UptoMarker(first, c, second);
  }

  /** From the marker to the truncation. */
  function Completing(third: seq<Step>, fourth: seq<Step>): seq<Step> {
    third + [MoveHead] + fourth + [CompleteMarker] + [Truncate]
  }

  lemma CompletingRun(s0: State, before: seq<Step>, third: seq<Step>, fourth: seq<Step>)
    requires Run(s0, before).phase.Begun? && Run(s0, before).mark.Some? && OnlyLogs(third) && OnlyLogs(fourth)
    ensures var s, t := Run(s0, before), Run(s0, before + Completing(third, fourth));
            t.phase.Rewriting? && t.cut == s.cut && t.from == s.mark.value
  {
    hide Run, Kept;
    LogsOnly(s0, before, third);
    var b1 := before + third;
    Snoc(s0, b1, MoveHead);
    var b2 := b1 + [MoveHead];
    LogsOnly(s0, b2, fourth);
    var b3 := b2 + fourth;
    Snoc(s0, b3, CompleteMarker);
    var b4 := b3 + [CompleteMarker];
    Snoc(s0, b4, Truncate);
    assert b4 + [Truncate] == before + Completing(third, fourth);
  }

  function Rewrites(k: nat): (steps: seq<Step>)
    ensures |steps| == k && forall i :: 0 <= i < k ==> steps[i] == RewriteEntry
  {
    seq(k, _ => RewriteEntry)
  }

  lemma {:induction false} RewriteRun(s0: State, before: seq<Step>, k: nat)
    requires Run(s0, before).phase.Rewriting? && k <= |Run(s0, before).phase.remaining|
    ensures var s, t := Run(s0, before), Run(s0, before + Rewrites(k));
            && t.phase == Rewriting(s.phase.remaining[k..])
            && t.cut == s.cut && t.from == s.from && t.ops == s.ops
  {
    if k == 0 {
      assert before + Rewrites(0) == before;
    } else {
      RewriteRun(s0, before, k - 1);
      hide Run;
      Snoc(s0, before + Rewrites(k - 1), RewriteEntry);
      assert before + Rewrites(k) == before + Rewrites(k - 1) + [RewriteEntry];
    }
  }

  function ToWrite(s: State): nat {
    if s.phase.Rewriting? then |s.phase.remaining| else 0
  }

  /** A whole flush, with any operations between its steps, up to the end of the rewriting. */
  ghost function WholeFlush(s0: State, before: seq<Step>, first: seq<Step>, c: seq<Wrapped>, second: seq<Step>,
                            third: seq<Step>, fourth: seq<Step>): seq<Step>
  {
    var upto := UptoMarker(first, c, second) + Completing(third, fourth);
    upto + Rewrites(ToWrite(Run(s0, before + upto))) + [RewriteEntry]
  }

  lemma FlushRun(s0: State, before: seq<Step>, first: seq<Step>, c: seq<Wrapped>, second: seq<Step>,
                 third: seq<Step>, fourth: seq<Step>)
    requires OnlyLogs(first) && OnlyLogs(second) && OnlyLogs(third) && OnlyLogs(fourth)
    requires var s := Run(s0, before); s.phase.Quiet? && s.head < |s.ops| && Saves(s, c)
    ensures var s, t := Run(s0, before), Run(s0, before + WholeFlush(s0, before, first, c, second, third, fourth));
            && t.phase.Quiet? && t.cut == |s.ops|
            && t.from == if s.mark.Some? then s.mark.value else |Run(s0, before + UptoMarker(first, c, second)).ops|
  {
    hide Run, Kept, AddsNet, Between, Saves;
    MarkerRun(s0, before, first, c, second);
    var b1 := before + UptoMarker(first, c, second);
    CompletingRun(s0, b1, third, fourth);
    var upto := UptoMarker(first, c, second) + Completing(third, fourth);
    assert b1 + Completing(third, fourth) == before + upto;
    var b2 := before + upto;
    var k := ToWrite(Run(s0, b2));
    RewriteRun(s0, b2, k);
    var b3 := b2 + Rewrites(k);
    Snoc(s0, b3, RewriteEntry);
    assert b3 + [RewriteEntry] == before + WholeFlush(s0, before, first, c, second, third, fourth);
  }

  /** Over every run, crashes included, and every interleaving: after a flush a crash changes
      nothing if and only if, with a begin marker left over in the log, there was no entry
      behind it, and without one, no operation was accepted between window and marker. */
  lemma FlushExactIff(hwm: nat, before: seq<Step>, first: seq<Step>, c: seq<Wrapped>, second: seq<Step>,
                      third: seq<Step>, fourth: seq<Step>)
    requires 1 <= hwm && OnlyLogs(first) && OnlyLogs(second) && OnlyLogs(third) && OnlyLogs(fourth)
    requires var s := Run(Start(hwm), before); s.phase.Quiet? && s.head < |s.ops| && Saves(s, c)
    ensures var s, m := Run(Start(hwm), before), Run(Start(hwm), before + UptoMarker(first, c, second));
            var t := Run(Start(hwm), before + WholeFlush(Start(hwm), before, first, c, second, third, fourth));
            && t.phase.Quiet?
            && (Exact(t) <==> if Began(s.log) then Kept(s.log) == [] else m.ops == s.ops)
  {
    hide Run, WholeFlush, Kept, Began, Exact, Accounts, Entries, Saves;
    FlushRun(Start(hwm), before, first, c, second, third, fourth);
    MarkerExtends(Start(hwm), before, first, c, second);
    RunKeepsInv(hwm, before);
    var s := Run(Start(hwm), before);
    var steps := before + WholeFlush(Start(hwm), before, first, c, second, third, fourth);
    ExactIff(hwm, steps);
    RunKeepsInv(hwm, steps);
    if Began(s.log) {
      assert |Kept(s.log)| == |s.ops| - s.mark.value;
    }
  }

  lemma MarkerExtends(s0: State, before: seq<Step>, first: seq<Step>, c: seq<Wrapped>, second: seq<Step>)
    requires OnlyLogs(first) && OnlyLogs(second)
    ensures Run(s0, before).ops <= Run(s0, before + UptoMarker(first, c, second)).ops
  {
    hide Run, AddsNet, Between;
    Snoc(s0, before, TakeWindow);
    var b1 := before + [TakeWindow];
    LogsOnly(s0, b1, first);
    var b2 := b1 + first;
    Snoc(s0, b2, SaveFlush(c));
    var b3 := b2 + [SaveFlush(c)];
    LogsOnly(s0, b3, second);
    var b4 := b3 + second;
    Snoc(s0, b4, BeginMarker);
    assert b4 + [BeginMarker] == before + UptoMarker(first, c, second);
  }

  // ---------------------------------------------------------------------------
  // Two runs
  // ---------------------------------------------------------------------------

  lemma RunThree(s: State, a: Step, b: Step, c: Step)
    ensures Run(s, [a, b, c]) == Apply(Apply(Apply(s, a), b), c)
  {
    hide Apply;
    assert [a, b, c][..2] == [a, b] && [a, b][..1] == [a] && [a][..0] == [];
    assert Run(s, []) == s && Run(s, [a]) == Apply(s, a) && Run(s, [a, b]) == Apply(Apply(s, a), b);
  }

  lemma {:induction false} RunConcat(s: State, first: seq<Step>, second: seq<Step>)
    ensures Run(s, first + second) == Run(Run(s, first), second)
  {
    hide Apply;
    if second == [] {
      assert first + second == first;
    } else {
      var n := |second| - 1;
      RunConcat(s, first, second[..n]);
      assert (first + second)[..|first| + n] == first + second[..n];
    }
  }

  function Inserted(r: Record): Wrapped {
    Wrapped(r, false, false, 0)
  }

  /** Two records are logged, the second behind the window of a flush. */
  function LateRun(a: Record, b: Record): seq<Step> {
    [LogOperation(a, false), TakeWindow, LogOperation(b, false)]
    + [SaveFlush([Inserted(a)]), BeginMarker, MoveHead] + [CompleteMarker, Truncate, RewriteEntry]
  }

  lemma LateWindow(x: Wrapped, y: Wrapped)
    requires x == Inserted(x.rec) && y == Inserted(y.rec)
    ensures Run(Start(2), [LogOperation(x.rec, false), TakeWindow, LogOperation(y.rec, false)])
         == Start(2).(acked := [x, y], ops := [x, y], log := [Insert(x), Insert(y)], phase := Windowed(1))
  {
    RunThree(Start(2), LogOperation(x.rec, false), TakeWindow, LogOperation(y.rec, false));
    assert [] + [x] == [x] && [x] + [y] == [x, y] && [Insert(x)] + [Insert(y)] == [Insert(x), Insert(y)];
    assert [] + [Insert(x)] == [Insert(x)];
  }

  lemma LateMarker(s: State, x: Wrapped, y: Wrapped)
    requires s == Start(2).(acked := [x, y], ops := [x, y], log := [Insert(x), Insert(y)], phase := Windowed(1))
    ensures Run(s, [SaveFlush([x]), BeginMarker, MoveHead])
         == s.(checkpoint := [x], cut := 1, log := [Insert(x), Insert(y), FlushBegin], mark := Some(2), head := 1,
               phase := Moved)
  {
    hide Net;
    RunThree(s, SaveFlush([x]), BeginMarker, MoveHead);
    PickRange([x, y], i => 0 <= i < 1 && (i < 0 || 0 <= i), 0, 1);
    assert Between([x, y], 0, 0, 0, 1) == [x] && s.ops[0..1] == [x];
    OneAdded(x);
    assert [Insert(x), Insert(y)] + [FlushBegin] == [Insert(x), Insert(y), FlushBegin];
  }

  lemma OneAdded(x: Wrapped)
    ensures AddsNet([], [x], [x])
  {
  }

  lemma LateEnd(s: State, x: Wrapped, y: Wrapped)
    requires s.log == [Insert(x), Insert(y), FlushBegin] && s.phase.Moved? && s.mark == Some(2)
    ensures Run(s, [CompleteMarker, Truncate, RewriteEntry]) == s.(log := [], from := 2, mark := None, phase := Quiet)
  {
    RunThree(s, CompleteMarker, Truncate, RewriteEntry);
    var log := s.log + [FlushComplete];
    assert log == [Insert(x), Insert(y), FlushBegin, FlushComplete];
    KeptNothingIff(log);
  }

  /** One record is in the buffer when the window is taken, and another is acknowledged before
      the marker is written: after the flush a crash forgets the second. */
  lemma LateOperationIsLost(a: Record, b: Record)
    requires a != b
    ensures var s := Run(Start(2), LateRun(a, b));
            && s.phase.Quiet? && s.acked == [Inserted(a), Inserted(b)]
            && Net(s.acked, b) == 1 && Net(Memory(s), b) == 1 && Net(Recovered(s), b) == 0
  {
    var x, y := Inserted(a), Inserted(b);
    hide Run, Net;
    var p := [LogOperation(a, false), TakeWindow, LogOperation(b, false)];
    var q := [SaveFlush([x]), BeginMarker, MoveHead];
    RunConcat(Start(2), p + q, [CompleteMarker, Truncate, RewriteEntry]);
    RunConcat(Start(2), p, q);
    LateWindow(x, y);
    LateMarker(Run(Start(2), p), x, y);
    LateEnd(Run(Start(2), p + q), x, y);
    var s := Run(Start(2), LateRun(a, b));
    PickRange([x, y], i => i < 0 || 0 <= i, 0, 2);
    assert Entered([x, y], 0, 0) == [x, y] && [] + [x, y] == [x, y];
    assert Replay([]) == [] && [x] + [] == [x];
    FewNets(x, y);
  }

  lemma FewNets(x: Wrapped, y: Wrapped)
    requires x == Inserted(x.rec) && y == Inserted(y.rec) && x.rec != y.rec
    ensures Net([x], y.rec) == 0 && Net([y], y.rec) == 1 && Net([x, y], y.rec) == 1 && Net([x, x, y], y.rec) == 1
    ensures Net([x, x, y, y], y.rec) == 2 && AddsNet([x], [x, y], [x, x, y])
  {
    hide Net;
    forall r ensures Net([x, x, y], r) == Net([x], r) + Net([x, y], r) {
      NetConcat([x], [x, y], r);
      assert [x] + [x, y] == [x, x, y];
    }
    OneNet(x, y.rec);
    OneNet(y, y.rec);
    NetConcat([x], [y], y.rec);
    NetConcat([x, x, y], [y], y.rec);
    assert [x] + [y] == [x, y] && [x, x, y] + [y] == [x, x, y, y];
  }

  lemma OneNet(w: Wrapped, r: Record)
    ensures Net([w], r) == Weight(w, r)
  {
  }

  /** A crash between marker and truncation, another record, and a whole flush in quiet; then
      the log is rewritten and the machine stops again. */
  function StaleRun(a: Record, b: Record): seq<Step> {
    var x, y := Inserted(a), Inserted(b);
    [LogOperation(a, false), TakeWindow, SaveFlush([x])] + [BeginMarker, CrashAndRecover, LogOperation(b, false)]
    + [TakeWindow, SaveFlush([x, x, y]), BeginMarker] + [MoveHead, CompleteMarker, Truncate]
    + [RewriteEntry, RewriteEntry, CrashAndRecover]
  }

  lemma StaleSaved(x: Wrapped)
    requires x == Inserted(x.rec)
    ensures Run(Start(2), [LogOperation(x.rec, false), TakeWindow, SaveFlush([x])])
         == Start(2).(acked := [x], ops := [x], log := [Insert(x)], checkpoint := [x], cut := 1, phase := Saved)
  {
    hide Net, Between, AddsNet;
    RunThree(Start(2), LogOperation(x.rec, false), TakeWindow, SaveFlush([x]));
    var s := Start(2).(acked := [x], ops := [x], log := [Insert(x)]);
    assert Apply(Start(2), LogOperation(x.rec, false)) == s by {
      assert [] + [x] == [x] && [] + [Insert(x)] == [Insert(x)];
    }
    FirstWindow(x);
    OneAdded(x);
  }

  lemma FirstWindow(x: Wrapped)
    ensures Between([x], 0, 0, 0, 1) == [x]
  {
    PickRange([x], i => 0 <= i < 1 && (i < 0 || 0 <= i), 0, 1);
  }

  /** The crash brings back what the checkpoint has, and leaves the marker. */
  lemma StaleCrash(s: State, x: Wrapped, y: Wrapped)
    requires y == Inserted(y.rec)
    requires s == Start(2).(acked := [x], ops := [x], log := [Insert(x)], checkpoint := [x], cut := 1, phase := Saved)
    ensures Run(s, [BeginMarker, CrashAndRecover, LogOperation(y.rec, false)])
         == State(2, [x, y], [], [x], [x], [x, y], 1, 1, [x], [Insert(x), FlushBegin, Insert(y)],
                  Quiet, 0, 0, 0, Some(1))
  {
    hide Net, Replay, Lost, Extra;
    RunThree(s, BeginMarker, CrashAndRecover, LogOperation(y.rec, false));
    var t := s.(log := [Insert(x), FlushBegin], mark := Some(1), phase := Begun);
    assert Apply(s, BeginMarker) == t by { assert [Insert(x)] + [FlushBegin] == [Insert(x), FlushBegin]; }
    StaleEffect(t, x);
    StaleReplay(x);
    var u := Restarted(t);
    assert u == State(2, [x], [], [x], [x], [x], 1, 1, [x], [Insert(x), FlushBegin], Quiet, 0, 0, 0, Some(1));
    hide Restarted;
    assert [x] + [y] == [x, y] && [Insert(x), FlushBegin] + [Insert(y)] == [Insert(x), FlushBegin, Insert(y)];
  }

  lemma StaleEffect(s: State, x: Wrapped)
    requires s.ops == [x] && s.from == s.fits == s.given == 0 && s.cut == 1 && s.hwm == 2 && s.phase.Begun?
    ensures s.lost + Lost(s) == s.lost && s.extra + Extra(s) == s.extra + [x]
  {
    PickNothingIff([x], (i: nat) => LostAt(s, i));
    PickRange([x], (i: nat) => ExtraAt(s, i), 0, 1);
  }

  lemma StaleReplay(x: Wrapped)
    ensures Replay([Insert(x), FlushBegin]) == [x]
  {
    var log := [Insert(x), FlushBegin];
    assert log[..1] == [Insert(x)] && [Insert(x)][..0] == [];
    assert Inserts([Insert(x)]) == [x] && DeletedRecords([Insert(x)]) == [];
    assert Inserts(log) == [x] + [] && DeletedRecords(log) == [];
    NothingDeleted([x]);
  }

  lemma StaleFlush(s: State, x: Wrapped, y: Wrapped)
    requires x == Inserted(x.rec) && y == Inserted(y.rec) && x.rec != y.rec && s.phase.Quiet? && s.cut == s.head == 0
    requires s.ops == [x, y] && s.fits == s.given == 1 && s.checkpoint == [x] && s.mark == Some(1)
    ensures Run(s, [TakeWindow, SaveFlush([x, x, y]), BeginMarker])
         == s.(checkpoint := [x, x, y], cut := 2, log := s.log + [FlushBegin], phase := Begun)
  {
    hide Net;
    RunThree(s, TakeWindow, SaveFlush([x, x, y]), BeginMarker);
    PickRange([x, y], i => 0 <= i < 2 && (i < 1 || 1 <= i), 0, 2);
    assert Between([x, y], 1, 1, 0, 2) == [x, y];
    FewNets(x, y);
  }

  lemma StaleTruncate(s: State, x: Wrapped, y: Wrapped)
    requires s.phase.Begun? && s.mark == Some(1) && s.log == [Insert(x), FlushBegin, Insert(y)] + [FlushBegin]
    ensures Run(s, [MoveHead, CompleteMarker, Truncate])
         == s.(head := s.cut, log := [], from := 1, mark := None, phase := Rewriting([Insert(y)]))
  {
    hide Kept;
    RunThree(s, MoveHead, CompleteMarker, Truncate);
    StaleKept(x, y);
  }

  lemma StaleKept(x: Wrapped, y: Wrapped)
    ensures Kept([Insert(x), FlushBegin, Insert(y)] + [FlushBegin] + [FlushComplete]) == [Insert(y)]
  {
    hide Kept, Entries;
    var log := [Insert(x), FlushBegin, Insert(y)];
    KeptSnoc(log + [FlushBegin], FlushComplete);
    KeptSnoc(log, FlushBegin);
    KeptSnoc([Insert(x), FlushBegin], Insert(y));
    KeptSnoc([Insert(x)], FlushBegin);
    KeptNothing([Insert(x)]);
    assert log == [Insert(x), FlushBegin] + [Insert(y)] && [Insert(x), FlushBegin] == [Insert(x)] + [FlushBegin];
  }

  lemma StaleEnd(s: State, y: Wrapped)
    requires s.phase == Rewriting([Insert(y)]) && s.log == []
    ensures Run(s, [RewriteEntry, RewriteEntry, CrashAndRecover]) == Restarted(s.(log := [Insert(y)], phase := Quiet))
  {
    hide Replay, Lost, Extra;
    RunThree(s, RewriteEntry, RewriteEntry, CrashAndRecover);
    assert [] + [Insert(y)] == [Insert(y)] && [Insert(y)][1..] == [];
  }

  /** After a crash has left its marker in the log, the next flush keeps the log entry of a
      record that it flushes, and a crash in quiet then counts the record twice. */
  lemma StaleMarkerDoubles(a: Record, b: Record)
    requires a != b
    ensures var s := Run(Start(2), StaleRun(a, b));
            && s.acked == [Inserted(a), Inserted(b)]
            && Net(s.acked, b) == 1 && Net(Memory(s), b) == 2
  {
    var x, y := Inserted(a), Inserted(b);
    hide Run, Net, Replay, Lost, Extra;
    var p := [LogOperation(a, false), TakeWindow, SaveFlush([x])];
    var q := p + [BeginMarker, CrashAndRecover, LogOperation(b, false)];
    var u := q + [TakeWindow, SaveFlush([x, x, y]), BeginMarker];
    var v := u + [MoveHead, CompleteMarker, Truncate];
    RunConcat(Start(2), v, [RewriteEntry, RewriteEntry, CrashAndRecover]);
    RunConcat(Start(2), u, [MoveHead, CompleteMarker, Truncate]);
    RunConcat(Start(2), q, [TakeWindow, SaveFlush([x, x, y]), BeginMarker]);
    RunConcat(Start(2), p, [BeginMarker, CrashAndRecover, LogOperation(b, false)]);
    StaleSaved(x);
    StaleCrash(Run(Start(2), p), x, y);
    StaleFlush(Run(Start(2), q), x, y);
    StaleTruncate(Run(Start(2), u), x, y);
    StaleEnd(Run(Start(2), v), y);
    ReplayOne(y);
    PickRange([y], i => i < 1 || 1 <= i, 0, 1);
    var s := Run(Start(2), StaleRun(a, b));
    assert Entered([y], 1, 1) == [y] && [x, x, y] + [y] == [x, x, y, y];
    FewNets(x, y);
  }

  lemma ReplayOne(y: Wrapped)
    ensures Replay([Insert(y)]) == [y]
  {
    LoggedReplays([y]);
    NothingDeleted([y]);
    assert Logged([y]) == [Insert(y)];
  }
}
