/** The protocol's history told by its actions alone: which operations the buffer accepted, what
    a window holds when it is taken, and when the watermark is reached. */
module EpochHistory {
  import opened Records
  import opened MutableBuffers
  import opened EpochProtocol
  import opened EpochRuns

  /** An operation as its caller gave it. */
  datatype Operation = Operation(rec: Record, tombstone: bool)

  /** An append finds fewer operations behind the head than the high watermark. */
  predicate HasRoom(s: State) {
    s.buffer.tail - s.buffer.head.idx < s.buffer.hwm
  }

  /** The operations that a run accepts, in order. */
  ghost function Accepted(s: State, acts: seq<Action>): seq<Operation>
    requires WellFormed(s.buffer)
  {
    if acts == [] then []
    else
      var before, a := acts[..|acts| - 1], acts[|acts| - 1];
      Accepted(s, before) + OperationOf(Run(s, before), a)
  }

  /** What a step adds to them. */
  function OperationOf(s: State, a: Action): seq<Operation> {
    if a.DoAppend? && HasRoom(s) then [Operation(a.rec, a.tombstone)] else []
  }

  /** Inserts of r minus tombstones of r. */
  function Balance(ops: seq<Operation>, r: Record): int {
    if ops == [] then 0
    else
      var n := |ops| - 1;
      Balance(ops[..n], r) + if ops[n].rec != r then 0 else if ops[n].tombstone then -1 else 1
  }

  /** The entry says what was asked for: the record, insert or tombstone, not tagged, visible,
      and its slot as the timestamp. */
  predicate Tells(w: Wrapped, op: Operation, slot: nat) {
    w.rec == op.rec && w.tombstone == op.tombstone && !w.deleted && w.stamp % 2 == 1 && w.stamp / 2 == slot
  }

  ghost predicate Told(log: seq<Wrapped>, ops: seq<Operation>, cap: nat)
    requires cap > 0
  {
    |log| == |ops| && forall i :: 0 <= i < |log| ==> Tells(log[i], ops[i], i % cap)
  }

  // ---------------------------------------------------------------------------
  // Appends
  // ---------------------------------------------------------------------------

  /** An append with room adds its entry to the history and to one slot of the ring; one
      without changes nothing. */
  lemma AppendTells(s: State, rec: Record, tombstone: bool)
    requires WellFormed(s.buffer)
    ensures var t, slot := Apply(s, DoAppend(rec, tombstone)), s.buffer.tail % |s.buffer.ring|;
            if HasRoom(s) then
              && |t.log| == |s.log| + 1 && s.log <= t.log && Tells(t.log[|s.log|], Operation(rec, tombstone), slot)
              && t.buffer == s.buffer.(tail := s.buffer.tail + 1, ring := s.buffer.ring[slot := t.log[|s.log|]])
              && t == s.(buffer := t.buffer, log := t.log)
            else t == s
  {
  }

  /** What every step leaves alone. */
  ghost predicate Spared(s: State, a: Action, t: State) {
    && t.buffer.lwm == s.buffer.lwm && t.buffer.hwm == s.buffer.hwm && |t.buffer.ring| == |s.buffer.ring|
    && s.log <= t.log && (!a.DoAppend? ==> t.log == s.log && t.buffer.tail == s.buffer.tail)
    && (forall j :: j in s.jobs && s.jobs[j].epoch.Some? && s.jobs[j].view.Some? ==>
          a != EndJob(j) && a != ReleaseView(j) ==> j in t.jobs && t.jobs[j] == s.jobs[j])
  }

  lemma JobSpares(s: State, a: Action)
    requires WellFormed(s.buffer)
    requires a.DoAppend? || a.GetActiveEpoch? || a.GetBuffer? || a.ReleaseView? || a.EndJob?
    ensures Spared(s, a, Apply(s, a))
  {
    hide ApplyBuild, ApplyAdvance;
  }

  lemma BuildSpares(s: State, a: Action)
    requires WellFormed(s.buffer)
    requires a.CheckWatermark? || a.SetFlag? || a.PinForClone? || a.CloneEpoch? || a.EndClonePin? || a.Merge?
             || a.TakeView? || a.Flush? || a.ReleaseFlushView?
    ensures Spared(s, a, Apply(s, a))
  {
    hide ApplyJob, ApplyAdvance, SameNet, AddsNet;
  }

  lemma AdvanceSpares(s: State, a: Action)
    requires WellFormed(s.buffer)
    requires a.Retire? || a.TakeCurrent? || a.StorePrevious? || a.TryAdvanceHead? || a.SwapHead? || a.StoreOldHead?
             || a.InstallCurrent? || a.ClearNext? || a.ClearFlag?
    ensures Spared(s, a, Apply(s, a))
  {
    hide ApplyJob, ApplyBuild;
  }

  lemma StepSpares(s: State, a: Action)
    requires WellFormed(s.buffer)
    ensures Spared(s, a, Apply(s, a))
  {
    hide Apply, Spared;
    if a.DoAppend? || a.GetActiveEpoch? || a.GetBuffer? || a.ReleaseView? || a.EndJob? {
      JobSpares(s, a);
    } else if a.Retire? || a.TakeCurrent? || a.StorePrevious? || a.TryAdvanceHead? || a.SwapHead? || a.StoreOldHead?
              || a.InstallCurrent? || a.ClearNext? || a.ClearFlag? {
      AdvanceSpares(s, a);
    } else {
      BuildSpares(s, a);
    }
  }

  lemma {:induction false} RunKeepsMarks(s: State, acts: seq<Action>)
    requires WellFormed(s.buffer)
    ensures var b := Run(s, acts).buffer;
            b.lwm == s.buffer.lwm && b.hwm == s.buffer.hwm && |b.ring| == |s.buffer.ring|
  {
    if acts != [] {
      hide Apply;
      RunKeepsMarks(s, acts[..|acts| - 1]);
      StepSpares(Run(s, acts[..|acts| - 1]), acts[|acts| - 1]);
    }
  }

  /** The history is exactly what was accepted, entry by entry, and its net counts are accepted
      inserts minus accepted tombstones. */
  lemma {:induction false} LogIsAccepted(lwm: nat, hwm: nat, blank: Wrapped, acts: seq<Action>)
    requires lwm <= hwm && 1 <= hwm
    ensures var s, ops := Run(Init(lwm, hwm, blank), acts), Accepted(Init(lwm, hwm, blank), acts);
            && s.buffer.tail == |s.log| && Told(s.log, ops, 2 * hwm)
            && forall r :: Net(s.log, r) == Balance(ops, r)
  {
    var s0 := Init(lwm, hwm, blank);
    if acts != [] {
      var before, a := acts[..|acts| - 1], acts[|acts| - 1];
      LogIsAccepted(lwm, hwm, blank, before);
      RunKeepsMarks(s0, before);
      hide Apply, HasRoom, Told, Balance, Run, Accepted;
      StepTells(Run(s0, before), a, Accepted(s0, before));
      LastAction(s0, acts);
    }
  }

  lemma LastAction(s: State, acts: seq<Action>)
    requires WellFormed(s.buffer) && acts != []
    ensures var before, a := acts[..|acts| - 1], acts[|acts| - 1];
            && Run(s, acts) == Apply(Run(s, before), a)
            && Accepted(s, acts) == Accepted(s, before) + OperationOf(Run(s, before), a)
  {
    hide Apply, HasRoom;
  }

  lemma StepTells(s: State, a: Action, ops: seq<Operation>)
    requires WellFormed(s.buffer) && s.buffer.tail == |s.log| && Told(s.log, ops, |s.buffer.ring|)
    requires forall r :: Net(s.log, r) == Balance(ops, r)
    ensures var t, ops' := Apply(s, a), ops + OperationOf(s, a);
            && t.buffer.tail == |t.log| && Told(t.log, ops', |s.buffer.ring|)
            && forall r :: Net(t.log, r) == Balance(ops', r)
  {
    hide Apply, HasRoom, Tells, Told, Balance;
    assert ops + [] == ops;
    if a.DoAppend? {
      AppendTells(s, a.rec, a.tombstone);
      if HasRoom(s) {
        OneMoreTold(s.log, Apply(s, a).log, ops, Operation(a.rec, a.tombstone), |s.buffer.ring|);
      }
    } else {
      StepSpares(s, a);
    }
  }

  lemma TellsKind(w: Wrapped, op: Operation, slot: nat)
    requires Tells(w, op, slot)
    ensures w.rec == op.rec && w.tombstone == op.tombstone && !w.deleted
  {
  }

  lemma OneMoreTold(log: seq<Wrapped>, more: seq<Wrapped>, ops: seq<Operation>, op: Operation, cap: nat)
    requires cap > 0 && Told(log, ops, cap) && |more| == |log| + 1 && log <= more
    requires Tells(more[|log|], op, |log| % cap) && forall r :: Net(log, r) == Balance(ops, r)
    ensures Told(more, ops + [op], cap) && forall r :: Net(more, r) == Balance(ops + [op], r)
  {
    hide Tells;
    var w := more[|log|];
    TellsKind(w, op, |log| % cap);
    assert more == log + [w] && (ops + [op])[..|ops|] == ops;
    forall r ensures Net(more, r) == Balance(ops + [op], r) {
      NetSnoc(log, w, r);
    }
  }

  // ---------------------------------------------------------------------------
  // Pins
  // ---------------------------------------------------------------------------

  /** A new job gets the current epoch, while there is none the previous one, and nothing only
      while both slots are empty. */
  lemma JobPinsCurrent(s: State, j: nat)
    requires Reachable(s) && j !in s.jobs
    ensures var t := Apply(s, GetActiveEpoch(j));
            && (s.current.epoch.Some? ==>
                  t.jobs == s.jobs[j := Job(s.current.epoch, None)] && t.previous == s.previous
                  && t.current == Slot(s.current.epoch, s.current.refcnt + 1))
            && (s.current.epoch.None? && s.previous.epoch.Some? ==>
                  t.jobs == s.jobs[j := Job(s.previous.epoch, None)] && t.current == s.current
                  && t.previous == Slot(s.previous.epoch, s.previous.refcnt + 1))
            && (s.current.epoch.None? && s.previous.epoch.None? ==> t == s && s.phase.CurrentTaken?)
  {
    hide Run, Reachable, InvPins, InvCounts, InvNet, RingHolds, InvViews;
    ReachableHolds(s);
  }

  // ---------------------------------------------------------------------------
  // Windows
  // ---------------------------------------------------------------------------

  /** A job that holds an epoch and no window gets one, unless a swapped head is still in hand:
      it reaches from the epoch's head to the end of the history. */
  lemma WindowReachesEnd(s: State, j: nat)
    requires Reachable(s) && j in s.jobs && s.jobs[j].epoch.Some? && s.jobs[j].view.None?
    ensures var e, t := s.jobs[j].epoch.value, Apply(s, GetBuffer(j));
            && e in s.epochs && j in t.jobs && t.jobs[j].epoch == s.jobs[j].epoch
            && t.log == s.log && t.epochs == s.epochs
            && (t.jobs[j].view == None || t.jobs[j].view == Some(View(s.epochs[e].head, |s.log|)))
            && (!s.phase.HeadSwapped? ==> TakesWindow(s, j))
  {
    hide Run, Reachable, InvPins, InvCounts, InvNet, RingHolds;
    ReachableHolds(s);
    HeldEpochsLive(s, j);
    HeadLoopEnds(s, s.jobs[j].epoch.value);
  }

  /** So does the window of a flush. */
  lemma FlushWindowReachesEnd(s: State)
    requires Reachable(s) && s.phase.Merging?
    ensures var t := Apply(s, TakeView);
            && t.phase == Flushing(View(s.buffer.head.idx, |s.log|)) && t.log == s.log && t.epochs == s.epochs
            && s.next.epoch.Some? && s.next.epoch.value in s.epochs
            && s.epochs[s.next.epoch.value].head == s.buffer.head.idx
  {
    hide Run, Reachable, InvPins, InvCounts, InvNet, RingHolds;
    ReachableHolds(s);
  }

  /** The job neither ends nor gives its window back. */
  ghost predicate Keeps(acts: seq<Action>, j: nat) {
    forall i :: 0 <= i < |acts| ==> acts[i] != EndJob(j) && acts[i] != ReleaseView(j)
  }

  lemma {:induction false} HeldJobStaysAlong(s: State, acts: seq<Action>, j: nat)
    requires WellFormed(s.buffer) && j in s.jobs && s.jobs[j].epoch.Some? && s.jobs[j].view.Some? && Keeps(acts, j)
    ensures j in Run(s, acts).jobs && Run(s, acts).jobs[j] == s.jobs[j] && s.log <= Run(s, acts).log
  {
    if acts != [] {
      hide Apply;
      HeldJobStaysAlong(s, acts[..|acts| - 1], j);
      StepSpares(Run(s, acts[..|acts| - 1]), acts[|acts| - 1]);
    }
  }

  /** The action gives the job a window. */
  ghost predicate TakesWindow(s: State, j: nat)
    requires WellFormed(s.buffer)
  {
    && j in s.jobs && s.jobs[j].epoch.Some? && s.jobs[j].view.None?
    && (var t := Apply(s, GetBuffer(j)); j in t.jobs && t.jobs[j].view.Some?)
  }

  /** A job that takes its window after `before` and keeps it sees, whatever else happens later,
      exactly the operations accepted until then. */
  lemma JobSeesAccepted(lwm: nat, hwm: nat, blank: Wrapped, before: seq<Action>, j: nat, later: seq<Action>, r: Record)
    requires lwm <= hwm && 1 <= hwm && Keeps(later, j)
    requires TakesWindow(Run(Init(lwm, hwm, blank), before), j)
    ensures var s, t := Run(Init(lwm, hwm, blank), before), Run(Init(lwm, hwm, blank), before + [GetBuffer(j)] + later);
            && j in t.jobs && t.jobs[j].epoch == s.jobs[j].epoch && t.jobs[j].epoch.value in t.epochs
            && t.jobs[j].view.Some? && t.jobs[j].view.value.head <= t.jobs[j].view.value.tail == |s.log|
            && s.log <= t.log
            && Net(t.epochs[t.jobs[j].epoch.value].contents, r)
               + Net(ViewRecords(t.buffer.ring, t.jobs[j].view.value), r)
               == Balance(Accepted(Init(lwm, hwm, blank), before), r)
  {
    hide Apply, Run, Reachable, Keeps, Accepted, Balance, Told;
    var s0 := Init(lwm, hwm, blank);
    var s, t := Run(s0, before), Run(s0, before + [GetBuffer(j)] + later);
    StartReachable(lwm, hwm, blank);
    WindowHeld(s0, before, j, later);
    ReachableGoesOn(s0, before + [GetBuffer(j)] + later);
    JobSeesAPrefix(t, j, r);
    LogIsAccepted(lwm, hwm, blank, before);
    assert t.log[..|s.log|] == s.log;
  }

  lemma StartReachable(lwm: nat, hwm: nat, blank: Wrapped)
    requires lwm <= hwm && 1 <= hwm
    ensures Reachable(Init(lwm, hwm, blank))
  {
    assert Run(Init(lwm, hwm, blank), []) == Init(lwm, hwm, blank);
  }

  lemma WindowHeld(s0: State, before: seq<Action>, j: nat, later: seq<Action>)
    requires Reachable(s0) && WellFormed(s0.buffer) && Keeps(later, j)
    requires TakesWindow(Run(s0, before), j)
    ensures var s, t := Run(s0, before), Run(s0, before + [GetBuffer(j)] + later);
            && j in t.jobs && t.jobs[j].epoch == s.jobs[j].epoch && s.jobs[j].epoch.value in s.epochs
            && t.jobs[j].view == Some(View(s.epochs[s.jobs[j].epoch.value].head, |s.log|)) && s.log <= t.log
  {
    hide Apply, Run, Reachable, Keeps;
    ReachableGoesOn(s0, before);
    var s := Run(s0, before);
    WindowReachesEnd(s, j);
    RunConcat(s0, before, [GetBuffer(j)]);
    RunOne(s, GetBuffer(j));
    RunConcat(s0, before + [GetBuffer(j)], later);
    HeldJobStaysAlong(Apply(s, GetBuffer(j)), later, j);
  }

  // ---------------------------------------------------------------------------
  // The watermark
  // ---------------------------------------------------------------------------

  /** A caller passes the check exactly if the accepted operations outnumber those before the
      head, which are the ones that the current structure counts, by the low watermark. */
  lemma ChecksIff(lwm: nat, hwm: nat, blank: Wrapped, acts: seq<Action>, c: nat)
    requires lwm <= hwm && 1 <= hwm
    ensures var s, ops := Run(Init(lwm, hwm, blank), acts), Accepted(Init(lwm, hwm, blank), acts);
            && s.buffer.head.idx <= |ops| == |s.log|
            && (c in Apply(s, CheckWatermark(c)).checked <==> c in s.checked || |ops| - s.buffer.head.idx >= lwm)
            && (s.current.epoch.Some? ==>
                  && s.current.epoch.value in s.epochs
                  && SameNet(s.epochs[s.current.epoch.value].contents, s.log[..s.buffer.head.idx]))
  {
    hide Run, Accepted, Balance;
    LogIsAccepted(lwm, hwm, blank, acts);
    RunKeepsMarks(Init(lwm, hwm, blank), acts);
    StartReachable(lwm, hwm, blank);
    ReachableGoesOn(Init(lwm, hwm, blank), acts);
    CurrentCounts(Run(Init(lwm, hwm, blank), acts));
  }

  /** The flag is set if and only if it is not, and the caller has passed the check, which it
      then has to pass again. */
  lemma FlagsIff(s: State, c: nat)
    requires Reachable(s) && WellFormed(s.buffer)
    ensures var t := Apply(s, SetFlag(c));
            && (t.scheduled <==> s.scheduled || c in s.checked) && t.checked == s.checked - {c}
            && (t.phase == if s.phase.Idle? && c in s.checked then Scheduled else s.phase)
            && t == s.(scheduled := t.scheduled, phase := t.phase, checked := t.checked)
  {
    hide Run, Reachable, InvPins, InvCounts, InvNet, RingHolds, InvViews, InvHeads;
    ReachableHolds(s);
  }

  /** At this point of the run the caller found the watermark reached. */
  ghost predicate FoundLow(lwm: nat, hwm: nat, blank: Wrapped, acts: seq<Action>, i: nat, c: nat)
    requires lwm <= hwm && 1 <= hwm
  {
    && i < |acts| && acts[i] == CheckWatermark(c)
    && |Accepted(Init(lwm, hwm, blank), acts[..i])| - Run(Init(lwm, hwm, blank), acts[..i]).buffer.head.idx >= lwm
  }

  lemma OthersCheckNothing(s: State, a: Action, c: nat)
    requires WellFormed(s.buffer) && a != CheckWatermark(c) && c in Apply(s, a).checked
    ensures c in s.checked
  {
  }

  /** Whoever may set the flag found the watermark reached at some point of the run. */
  lemma {:induction false} CheckedFoundLow(lwm: nat, hwm: nat, blank: Wrapped, acts: seq<Action>, c: nat)
      returns (i: nat)
    requires lwm <= hwm && 1 <= hwm && c in Run(Init(lwm, hwm, blank), acts).checked
    ensures FoundLow(lwm, hwm, blank, acts, i, c)
  {
    assert acts != [];
    var before, a := acts[..|acts| - 1], acts[|acts| - 1];
    var s := Run(Init(lwm, hwm, blank), before);
    hide Apply, Accepted;
    if a == CheckWatermark(c) && c !in s.checked {
      ChecksIff(lwm, hwm, blank, before, c);
      i := |acts| - 1;
    } else {
      if a != CheckWatermark(c) {
        OthersCheckNothing(s, a, c);
      }
      i := CheckedFoundLow(lwm, hwm, blank, before, c);
      assert before[..i] == acts[..i];
    }
  }

  lemma CurrentCounts(s: State)
    requires Reachable(s)
    ensures s.buffer.head.idx <= |s.log|
    ensures s.current.epoch.Some? ==>
              && s.current.epoch.value in s.epochs
              && SameNet(s.epochs[s.current.epoch.value].contents, s.log[..s.buffer.head.idx])
  {
    hide Run, Reachable, InvPins, InvCounts, InvViews, RingHolds;
    ReachableHolds(s);
    if s.current.epoch.Some? {
      assert Accounted(s, s.current.epoch.value);
    }
  }
}
