/** Serial durability: what a crash at any point of a serial run leaves to recover from,
    whatever crashes there were before.

    An operation is logged before it enters the buffer, and acknowledged after. A checkpoint
    is saved after every reconstruction task and after every flush; the log is cut back only
    once the buffer's head has moved past the flushed batch. A serial scheduler runs the
    flush inside the append that finds the low watermark reached, before that append. */
module Durability {
  import opened Records
  import opened WriteAheadLogs

  /** Where the flush stands. From `Saved` on the batch is in the checkpoint and still in the
      log. */
  datatype Phase = Running | Saved | Begun | HeadMoved | Completed

  /** `acked` is history: every acknowledged operation, in order. So are `flushed`, the
      operations that the checkpoint counts, and `doubled`, the batches that crashes made
      it count twice. */
  datatype State = State(
    lwm: nat,
    hwm: nat,
    acked: seq<Wrapped>,
    inFlight: Option<Wrapped>,
    buffer: seq<Wrapped>,
    structure: seq<Wrapped>,
    checkpoint: seq<Wrapped>,
    flushed: seq<Wrapped>,
    doubled: seq<Wrapped>,
    log: seq<Entry>,
    phase: Phase)

  /** The points between which the machine can stop. */
  datatype Step =
    | LogOperation(rec: Record, tombstone: bool)
    | Acknowledge
    | SaveReconstruction(contents: seq<Wrapped>)
    | SaveFlush(contents: seq<Wrapped>)
    | BeginMarker
    | MoveHead
    | CompleteMarker
    | Truncate
    | CrashAndRecover

  function Start(lwm: nat, hwm: nat): State {
    State(lwm, hwm, [], None, [], [], [], [], [], [], Running)
  }

  /** Between the checkpoint of a flush and the truncation of the log. */
  predicate InWindow(s: State) {
    !s.phase.Running?
  }

  /** What a restart after a crash at this point finds: the saved shards, and the buffer
      rebuilt from the log, as far as it has room. */
  function Recovered(s: State): seq<Wrapped> {
    s.checkpoint + Fitting(s.hwm, Replay(s.log))
  }

  /** The operation that is just being made. */
  function Making(s: State): seq<Wrapped> {
    if s.inFlight.Some? then [s.inFlight.value] else []
  }

  /** The operations that were promised, and the one that was just being made. */
  function Promised(s: State): seq<Wrapped> {
    s.acked + Making(s)
  }

  /** What the log has that the checkpoint counts already. */
  function Repeated(s: State): seq<Wrapped> {
    if InWindow(s) then Replay(s.log) else []
  }

  ghost function Apply(s: State, a: Step): State {
    match a
    case LogOperation(rec, tombstone) =>
      if InWindow(s) || s.inFlight.Some? || |s.buffer| >= s.lwm then s
      else
        var w := Wrapped(rec, tombstone, false, 0);
        s.(log := s.log + [Insert(w)], inFlight := Some(w))
    case Acknowledge =>
      if s.inFlight.None? then s
      else s.(buffer := s.buffer + [s.inFlight.value], acked := s.acked + [s.inFlight.value], inFlight := None)
    case SaveReconstruction(c) =>
      if InWindow(s) || s.inFlight.Some? || !SameNet(s.structure, c) then s
      else s.(structure := c, checkpoint := c)
    case SaveFlush(c) =>
      if InWindow(s) || s.inFlight.Some? || |s.buffer| < s.lwm || !AddsNet(s.structure, s.buffer, c) then s
      else s.(structure := c, checkpoint := c, flushed := s.flushed + s.buffer, phase := Saved)
    case BeginMarker =>
      if !s.phase.Saved? || s.buffer == [] then s else s.(log := s.log + [FlushBegin], phase := Begun)
    case MoveHead =>
      if !s.phase.Begun? then s else s.(buffer := [], phase := HeadMoved)
    case CompleteMarker =>
      if !s.phase.HeadMoved? then s else s.(log := s.log + [FlushComplete], phase := Completed)
    case Truncate =>
      if !s.phase.Completed? then s else s.(log := Kept(s.log), phase := Running)
    case CrashAndRecover =>
      s.(acked := Promised(s), inFlight := None, buffer := Fitting(s.hwm, Replay(s.log)), structure := s.checkpoint,
         doubled := s.doubled + Repeated(s), phase := Running)
  }

  ghost function Run(s: State, steps: seq<Step>): State {
    if steps == [] then s else Apply(Run(s, steps[..|steps| - 1]), steps[|steps| - 1])
  }

  // ---------------------------------------------------------------------------
  // The log
  // ---------------------------------------------------------------------------

  /** One insert for each operation, and only markers behind them. */
  ghost predicate LogOf(log: seq<Entry>, ops: seq<Wrapped>) {
    && |ops| <= |log|
    && (forall i :: 0 <= i < |ops| ==> log[i] == Insert(ops[i]))
    && (forall i :: |ops| <= i < |log| ==> Marker(log[i]))
  }

  lemma OneMoreEntry(log: seq<Entry>, e: Entry)
    ensures Inserts(log + [e]) == Inserts(log) + if e.Insert? then [e.payload] else []
    ensures DeletedRecords(log + [e]) == DeletedRecords(log) + if e.Delete? then [e.payload.rec] else []
  {
    assert (log + [e])[..|log|] == log;
  }

  lemma LogOfLess(log: seq<Entry>, ops: seq<Wrapped>)
    requires LogOf(log, ops) && log != []
    ensures var n := |log| - 1;
            if |ops| == |log| then log[n] == Insert(ops[n]) && LogOf(log[..n], ops[..n])
            else Marker(log[n]) && LogOf(log[..n], ops)
  {
  }

  lemma {:induction false} LogReplays(log: seq<Entry>, ops: seq<Wrapped>)
    requires LogOf(log, ops)
    ensures Inserts(log) == ops && DeletedRecords(log) == []
  {
    if log != [] {
      var n := |log| - 1;
      LogOfLess(log, ops);
      OneMoreEntry(log[..n], log[n]);
      assert log == log[..n] + [log[n]];
      hide LogOf, Inserts, DeletedRecords;
      if |ops| == |log| {
        LogReplays(log[..n], ops[..n]);
        assert ops == ops[..n] + [ops[n]];
      } else {
        LogReplays(log[..n], ops);
        assert ops + [] == ops;
      }
    }
  }

  /** Such a log brings back its operations, and truncation leaves nothing of it. */
  lemma ReplayOf(log: seq<Entry>, ops: seq<Wrapped>)
    requires LogOf(log, ops)
    ensures Replay(log) == ops && Kept(log) == []
  {
    LogReplays(log, ops);
    NothingDeleted(ops);
    KeptNothingIff(log);
  }

  // ---------------------------------------------------------------------------
  // The invariant
  // ---------------------------------------------------------------------------

  /** How the history adds up: what the checkpoint counts and what is left in the buffer are
      the acknowledged operations and the doubled batches. */
  ghost predicate Conserved(s: State) {
    && SameNet(s.checkpoint, s.flushed) && s.structure == s.checkpoint
    && multiset(s.flushed) + (if InWindow(s) then multiset{} else multiset(s.buffer))
        == multiset(s.acked) + multiset(s.doubled)
  }

  /** What the log holds. A marker that a crash left behind stands behind a full batch, so the
      next flush comes before the next operation. */
  ghost predicate LogInv(s: State) {
    && LogOf(s.log, Replay(s.log)) && |Replay(s.log)| <= s.lwm <= s.hwm
    && (s.inFlight.Some? ==> !InWindow(s) && |s.buffer| < s.lwm && |s.log| == |Replay(s.log)|)
    && (InWindow(s) ==> |Replay(s.log)| == s.lwm)
    && (s.phase.Running? ==> Replay(s.log) == s.buffer + Making(s))
    && (s.phase.Running? && |s.log| > |Replay(s.log)| ==> |s.buffer| == s.lwm)
    && (s.phase.Saved? || s.phase.Begun? ==> Replay(s.log) == s.buffer)
    && (s.phase.HeadMoved? || s.phase.Completed? ==> s.buffer == [])
  }

  ghost predicate Inv(s: State) {
    LogInv(s) && Conserved(s)
  }

  lemma StartHolds(lwm: nat, hwm: nat)
    requires lwm <= hwm
    ensures Inv(Start(lwm, hwm))
  {
    ReplayOf([], []);
  }

  lemma LoggingKeepsInv(s: State, a: Step)
    requires Inv(s) && a.LogOperation?
    ensures Inv(Apply(s, a))
  {
    hide Net, Replay;
    var s' := Apply(s, a);
    if s' != s {
      assert s.buffer + [] == s.buffer;
      ReplayOf(s'.log, Replay(s.log) + [s'.inFlight.value]);
    }
  }

  lemma AcknowledgingKeepsInv(s: State, a: Step)
    requires Inv(s) && a.Acknowledge?
    ensures Inv(Apply(s, a))
  {
    hide Net, Replay, LogOf, SameNet;
    var s' := Apply(s, a);
    if s' != s {
      assert s'.buffer + [] == s'.buffer;
      AddBoth(multiset(s.flushed), s.buffer, s.acked, multiset(s.doubled), [s.inFlight.value]);
    }
  }

  lemma AddBoth(a: multiset<Wrapped>, b: seq<Wrapped>, c: seq<Wrapped>, d: multiset<Wrapped>, x: seq<Wrapped>)
    requires a + multiset(b) == multiset(c) + d
    ensures a + multiset(b + x) == multiset(c + x) + d
  {
    assert multiset(b + x) == multiset(b) + multiset(x) && multiset(c + x) == multiset(c) + multiset(x);
    assert a + (multiset(b) + multiset(x)) == (a + multiset(b)) + multiset(x);
  }

  lemma SaveKeepsInv(s: State, a: Step)
    requires Inv(s) && (a.SaveReconstruction? || a.SaveFlush?)
    ensures Inv(Apply(s, a))
  {
    hide Net, Replay, LogOf;
    var s' := Apply(s, a);
    if s' != s {
      forall r ensures Net(s'.checkpoint, r) == Net(s'.flushed, r) {
        assert Net(s.checkpoint, r) == Net(s.flushed, r);
        NetConcat(s.flushed, s.buffer, r);
      }
      assert a.SaveFlush? ==> multiset(s'.flushed) == multiset(s.flushed) + multiset(s.buffer);
    }
  }

  lemma MarkerKeepsLog(log: seq<Entry>, ops: seq<Wrapped>, m: Entry)
    requires LogOf(log, ops) && Marker(m)
    ensures LogOf(log + [m], ops) && Replay(log + [m]) == ops
  {
    ReplayOf(log + [m], ops);
  }

  lemma FlushKeepsInv(s: State, a: Step)
    requires Inv(s) && (a.BeginMarker? || a.MoveHead? || a.CompleteMarker? || a.Truncate?)
    ensures Inv(Apply(s, a))
  {
    hide Net, Replay, LogOf, Kept, SameNet, Conserved;
    SameAccounts(s, a);
    match a
    case BeginMarker => MarkerKeepsLog(s.log, Replay(s.log), FlushBegin);
    case CompleteMarker => MarkerKeepsLog(s.log, Replay(s.log), FlushComplete);
    case Truncate =>
      ReplayOf(s.log, Replay(s.log));
      if s.phase.Completed? {
        EmptiedLog(s);
      }
    case _ =>
  }

  lemma SameAccounts(s: State, a: Step)
    requires Conserved(s) && LogInv(s) && (a.BeginMarker? || a.MoveHead? || a.CompleteMarker? || a.Truncate?)
    ensures Conserved(Apply(s, a))
  {
    hide Net, Replay, LogOf, Kept, SameNet;
  }

  lemma EmptiedLog(s: State)
    requires Inv(s) && s.phase.Completed? && Kept(s.log) == [] && s.buffer == []
    ensures Inv(s.(log := [], phase := Running))
  {
    ReplayOf([], []);
  }

  lemma RecoveryKeepsInv(s: State)
    requires Inv(s)
    ensures Inv(Apply(s, CrashAndRecover))
  {
    hide Net, Replay, LogOf, SameNet;
    var s' := Apply(s, CrashAndRecover);
    assert s'.buffer + [] == s'.buffer == Replay(s.log);
    if InWindow(s) {
      assert multiset(s.flushed) == multiset(s.acked) + multiset(s.doubled);
      assert multiset(s'.doubled) == multiset(s.doubled) + multiset(s'.buffer) && s'.acked == s.acked + [] == s.acked;
    } else {
      assert s'.doubled == s.doubled;
      AddBoth(multiset(s.flushed), s.buffer, s.acked, multiset(s.doubled), Making(s));
    }
  }

  lemma {:induction false} RunKeepsInv(lwm: nat, hwm: nat, steps: seq<Step>)
    requires lwm <= hwm
    ensures Inv(Run(Start(lwm, hwm), steps)) && Run(Start(lwm, hwm), steps).hwm == hwm
  {
    if steps == [] {
      StartHolds(lwm, hwm);
    } else {
      var before, a := steps[..|steps| - 1], steps[|steps| - 1];
      RunKeepsInv(lwm, hwm, before);
      var s := Run(Start(lwm, hwm), before);
      MarksStay(s, a);
      hide Inv, Apply;
      match a
      case LogOperation(_, _) => LoggingKeepsInv(s, a);
      case Acknowledge => AcknowledgingKeepsInv(s, a);
      case SaveReconstruction(_) => SaveKeepsInv(s, a);
      case SaveFlush(_) => SaveKeepsInv(s, a);
      case CrashAndRecover => RecoveryKeepsInv(s);
      case _ => FlushKeepsInv(s, a);
    }
  }

  lemma MarksStay(s: State, a: Step)
    ensures Apply(s, a).hwm == s.hwm && Apply(s, a).lwm == s.lwm
  {
  }

  // ---------------------------------------------------------------------------
  // What was promised
  // ---------------------------------------------------------------------------

  /** An operation is let in: no flush is due, and none is under way. */
  predicate LetsIn(s: State) {
    s.phase.Running? && s.inFlight.None? && |s.buffer| < s.lwm
  }

  /** The operations that a run lets in, as their callers gave them. */
  ghost function LetIn(s: State, steps: seq<Step>): seq<(Record, bool)> {
    if steps == [] then []
    else
      var before, a := steps[..|steps| - 1], steps[|steps| - 1];
      LetIn(s, before) + if a.LogOperation? && LetsIn(Run(s, before)) then [(a.rec, a.tombstone)] else []
  }

  ghost predicate Told(ops: seq<Wrapped>, told: seq<(Record, bool)>) {
    && |ops| == |told|
    && forall i :: 0 <= i < |ops| ==> ops[i].rec == told[i].0 && ops[i].tombstone == told[i].1 && !ops[i].deleted
  }

  lemma StepTold(s: State, a: Step, told: seq<(Record, bool)>)
    requires Told(Promised(s), told)
    ensures Told(Promised(Apply(s, a)), told + if a.LogOperation? && LetsIn(s) then [(a.rec, a.tombstone)] else [])
  {
    hide Net, Replay;
    var s' := Apply(s, a);
    assert told + [] == told;
    if a.LogOperation? && LetsIn(s) {
      assert Promised(s) == s.acked && s'.acked == s.acked;
    } else {
      assert Promised(s') == Promised(s) by { assert Promised(s) + [] == Promised(s); }
    }
  }

  /** Promised is exactly what was let in, in order, whatever crashed in between. */
  lemma {:induction false} PromisedIsLetIn(lwm: nat, hwm: nat, steps: seq<Step>)
    ensures Told(Promised(Run(Start(lwm, hwm), steps)), LetIn(Start(lwm, hwm), steps))
  {
    if steps != [] {
      hide Apply, Promised, Told, LetsIn;
      PromisedIsLetIn(lwm, hwm, steps[..|steps| - 1]);
      StepTold(Run(Start(lwm, hwm), steps[..|steps| - 1]), steps[|steps| - 1],
        LetIn(Start(lwm, hwm), steps[..|steps| - 1]));
    } else {
      assert Promised(Start(lwm, hwm)) == [];
    }
  }

  // ---------------------------------------------------------------------------
  // The theorems
  // ---------------------------------------------------------------------------

  /** At every crash point of every serial run, after any number of earlier crashes anywhere:
      the log's operations fit the buffer, and the checkpoint and the log together hold every
      promised operation, and beyond those exactly what was doubled. */
  lemma NothingIsLost(lwm: nat, hwm: nat, steps: seq<Step>)
    requires lwm <= hwm
    ensures var s := Run(Start(lwm, hwm), steps);
            && Fitting(hwm, Replay(s.log)) == Replay(s.log)
            && SameNet(s.checkpoint, s.flushed)
            && multiset(s.flushed) + multiset(Replay(s.log))
               == multiset(Promised(s)) + multiset(s.doubled) + multiset(Repeated(s))
  {
    RunKeepsInv(lwm, hwm, steps);
    var s := Run(Start(lwm, hwm), steps);
    hide Run, Apply, Net, Replay, LogOf, SameNet;
    Accounted(s);
  }

  lemma Accounted(s: State)
    requires Inv(s)
    ensures multiset(s.flushed) + multiset(Replay(s.log))
         == multiset(Promised(s)) + multiset(s.doubled) + multiset(Repeated(s))
  {
    hide Net, Replay, LogOf, SameNet;
    if InWindow(s) {
      assert Promised(s) == s.acked;
    } else {
      AddBoth(multiset(s.flushed), s.buffer, s.acked, multiset(s.doubled), Making(s));
    }
  }

  /** Exactly what is recovered: what was promised, and once more each batch whose window a
      crash has hit, this one included. */
  lemma RecoveredNet(lwm: nat, hwm: nat, steps: seq<Step>, r: Record)
    requires lwm <= hwm
    ensures var s := Run(Start(lwm, hwm), steps);
            Net(Recovered(s), r) == Net(Promised(s), r) + Net(s.doubled + Repeated(s), r)
  {
    NothingIsLost(lwm, hwm, steps);
    RunKeepsInv(lwm, hwm, steps);
    var s := Run(Start(lwm, hwm), steps);
    hide Run, Apply, Replay, Inv, Fitting;
    assert s.hwm == hwm;
    NetConcat(s.checkpoint, Replay(s.log), r);
    NetConcat(s.flushed, Replay(s.log), r);
    NetConcat(Promised(s), s.doubled + Repeated(s), r);
    NetPermutation(s.flushed + Replay(s.log), Promised(s) + (s.doubled + Repeated(s)), r);
    assert Net(s.checkpoint, r) == Net(s.flushed, r);
  }

  /** Every insert has its tombstone. */
  ghost predicate Weightless(s: seq<Wrapped>) {
    forall r :: Net(s, r) == 0
  }

  /** Recovery is exact if and only if the batches whose windows were hit cancel themselves
      out. */
  lemma RecoveryExactIff(lwm: nat, hwm: nat, steps: seq<Step>)
    requires lwm <= hwm
    ensures var s := Run(Start(lwm, hwm), steps);
            SameNet(Recovered(s), Promised(s)) <==> Weightless(s.doubled + Repeated(s))
  {
    hide Run, Recovered, Promised, Repeated;
    var s := Run(Start(lwm, hwm), steps);
    forall r ensures Net(Recovered(s), r) == Net(Promised(s), r) + Net(s.doubled + Repeated(s), r) {
      RecoveredNet(lwm, hwm, steps, r);
    }
    ExactIff(Recovered(s), Promised(s), s.doubled + Repeated(s));
  }

  lemma ExactIff(a: seq<Wrapped>, b: seq<Wrapped>, extra: seq<Wrapped>)
    requires forall r :: Net(a, r) == Net(b, r) + Net(extra, r)
    ensures SameNet(a, b) <==> Weightless(extra)
  {
    if SameNet(a, b) {
      forall r ensures Net(extra, r) == 0 { assert Net(a, r) == Net(b, r); }
    }
    if Weightless(extra) {
      forall r ensures Net(a, r) == Net(b, r) { assert Net(extra, r) == 0; }
    }
  }

  /** No crash so far hit the window. */
  ghost predicate CrashesOutside(s: State, steps: seq<Step>) {
    steps == [] ||
    (var before := steps[..|steps| - 1];
     CrashesOutside(s, before) && (steps[|steps| - 1].CrashAndRecover? ==> !InWindow(Run(s, before))))
  }

  lemma StepDoubles(s: State, a: Step)
    ensures Apply(s, a).doubled == s.doubled + if a.CrashAndRecover? then Repeated(s) else []
  {
    hide Repeated, Replay, Net;
    assert s.doubled + [] == s.doubled;
  }

  /** Outside the windows crashes leave no trace. */
  lemma {:induction false} OutsideNothingDoubles(lwm: nat, hwm: nat, steps: seq<Step>)
    requires CrashesOutside(Start(lwm, hwm), steps)
    ensures Run(Start(lwm, hwm), steps).doubled == []
  {
    if steps != [] {
      var before := steps[..|steps| - 1];
      OutsideNothingDoubles(lwm, hwm, before);
      StepDoubles(Run(Start(lwm, hwm), before), steps[|steps| - 1]);
      hide Apply, Replay;
    }
  }

  /** So with no crash in a window, recovery outside the windows gives what was promised. */
  lemma OutsideIsExact(lwm: nat, hwm: nat, steps: seq<Step>)
    requires lwm <= hwm && CrashesOutside(Start(lwm, hwm), steps) && !InWindow(Run(Start(lwm, hwm), steps))
    ensures var s := Run(Start(lwm, hwm), steps); SameNet(Recovered(s), Promised(s))
  {
    OutsideNothingDoubles(lwm, hwm, steps);
    RecoveryExactIff(lwm, hwm, steps);
    hide Run, Recovered, Promised, CrashesOutside;
    assert Weightless([] + []);
  }

  // ---------------------------------------------------------------------------
  // A crash in the window
  // ---------------------------------------------------------------------------

  lemma RunThree(s: State, a: Step, b: Step, c: Step)
    ensures Run(s, [a, b, c]) == Apply(Apply(Apply(s, a), b), c)
  {
    hide Apply;
    assert [a, b, c][..2] == [a, b] && [a, b][..1] == [a] && [a][..0] == [];
    assert Run(s, []) == s && Run(s, [a]) == Apply(s, a) && Run(s, [a, b]) == Apply(Apply(s, a), b);
  }

  /** A concrete crash in the window: one insert, flushed but still in the log, comes back
      twice. */
  lemma WindowDoubles(w: Record)
    ensures var steps := [LogOperation(w, false), Acknowledge, SaveFlush([Wrapped(w, false, false, 0)])];
            var s := Run(Start(1, 1), steps);
            Net(Promised(s), w) == 1 && Net(Recovered(s), w) == 2
  {
    var x := Wrapped(w, false, false, 0);
    hide Net, Replay, Apply, Run;
    RunThree(Start(1, 1), LogOperation(w, false), Acknowledge, SaveFlush([x]));
    FirstTwo(w);
    DoubledState(x);
  }

  /** One operation acknowledged, nothing flushed yet. */
  function OneLogged(x: Wrapped): State {
    State(1, 1, [x], None, [x], [], [], [], [], [Insert(x)], Running)
  }

  lemma DoubledState(x: Wrapped)
    requires !x.tombstone && !x.deleted
    ensures var s := Apply(OneLogged(x), SaveFlush([x]));
            Net(Promised(s), x.rec) == 1 && Net(Recovered(s), x.rec) == 2
  {
    hide Net, Replay;
    OneAdds(x);
    ReplayOf([Insert(x)], [x]);
    var s := Apply(OneLogged(x), SaveFlush([x]));
    assert s.checkpoint == [x] && s.log == [Insert(x)];
    assert Recovered(s) == [x, x] && Promised(s) == [x];
  }

  lemma FirstTwo(w: Record)
    ensures var x := Wrapped(w, false, false, 0);
            Apply(Apply(Start(1, 1), LogOperation(w, false)), Acknowledge) == OneLogged(x)
  {
    var x := Wrapped(w, false, false, 0);
    hide Net, Replay;
    var s1 := Start(1, 1).(log := [Insert(x)], inFlight := Some(x));
    assert Apply(Start(1, 1), LogOperation(w, false)) == s1 by { assert [] + [Insert(x)] == [Insert(x)]; }
    assert [] + [x] == [x];
  }

  lemma OneAdds(x: Wrapped)
    requires !x.tombstone && !x.deleted
    ensures AddsNet([], [x], [x]) && Net([x], x.rec) == 1 && Net([x, x], x.rec) == 2
  {
    assert [x, x][1..] == [x] && [x][1..] == [];
  }
}
