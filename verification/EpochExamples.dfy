/** Two concrete runs: a stale check that breaks the code's assertion, and a window that
    fills the whole ring from its middle. */
module EpochExamples {
  import opened Records
  import opened MutableBuffers
  import opened EpochProtocol
  import opened EpochProofs
  import opened EpochRuns
  import opened EpochCycles
  import opened StaleCheck

  /** What the current epoch holds, and the window after it. */
  function AllOf(s: State): seq<Wrapped>
    requires WellFormed(s.buffer) && s.current.epoch.Some? && s.current.epoch.value in s.epochs
    requires s.buffer.head.idx <= s.buffer.tail
  {
    s.epochs[s.current.epoch.value].contents + ViewRecords(s.buffer.ring, View(s.buffer.head.idx, s.buffer.tail))
  }

  /** Nobody is in the way of a whole cycle, and `caller` may start it. */
  ghost predicate Clear(s: State, caller: nat) {
    && Inv(s) && s.phase.Idle? && caller in s.checked && s.buffer.head.idx < s.buffer.tail
    && (s.previous.epoch.None? || s.previous.refcnt == 0) && s.buffer.oldHead.refcnt == 0
    && s.current.epoch.Some? && s.current.epoch.value in s.epochs && WellFormed(s.buffer)
  }

  lemma CycleRuns(s: State, caller: nat)
    requires Clear(s, caller)
    ensures Run(s, Cycle(caller, AllOf(s))) == Cycled(s, caller, AllOf(s)) && Inv(Cycled(s, caller, AllOf(s)))
  {
    hide Run, Apply, Inv, Cycled, Cycle;
    var old' := s.epochs[s.current.epoch.value].contents;
    var batch := ViewRecords(s.buffer.ring, View(s.buffer.head.idx, s.buffer.tail));
    forall r ensures Net(AllOf(s), r) == Net(old', r) + Net(batch, r) { NetConcat(old', batch, r); }
    FullCycle(s, caller, AllOf(s));
    RunKeepsInv(s, Cycle(caller, AllOf(s)));
  }

  // ---------------------------------------------------------------------------
  // A stale check
  // ---------------------------------------------------------------------------

  /** One record arrives, and two callers see the low watermark reached. */
  function TwoChecks(rec: Record): seq<Action> {
    [DoAppend(rec, false), CheckWatermark(0), CheckWatermark(1)]
  }

  function Checked(rec: Record, blank: Wrapped): State {
    var s, w := Init(1, 1, blank), Stamped(rec, false, 0);
    s.(buffer := s.buffer.(tail := 1, ring := s.buffer.ring[0 := w]), log := [w], checked := {0, 1})
  }

  lemma CheckedRuns(rec: Record, blank: Wrapped)
    ensures Run(Init(1, 1, blank), TwoChecks(rec)) == Checked(rec, blank) && Clear(Checked(rec, blank), 0)
  {
    hide Run, Inv;
    var s, t := Init(1, 1, blank), Checked(rec, blank);
    InitHolds(1, 1, blank);
    RunKeepsInv(s, TwoChecks(rec));
    RunThree(s, DoAppend(rec, false), CheckWatermark(0), CheckWatermark(1));
    var s1 := t.(checked := {});
    assert Apply(s, DoAppend(rec, false)) == s1;
    var s2 := t.(checked := {0});
    assert Apply(s1, CheckWatermark(0)) == s2;
    assert {0} + {1} == {0, 1};
  }

  /** A run from the start that breaks the assertion before the head moves: two callers pass
      the check, the first runs a whole cycle, and the second then sets the flag. */
  lemma StaleCheckBreaks(rec: Record, blank: Wrapped)
    ensures exists cycle, rest ::
              var t := Run(Init(1, 1, blank), TwoChecks(rec) + cycle + [SetFlag(1)] + rest);
              cycle == Cycle(0, AllOf(Checked(rec, blank))) && t.phase.PreviousStored? && !Advances(t)
  {
    hide Run, Apply, Inv, Cycle, Reachable, Clear;
    var s0, s1 := Init(1, 1, blank), Checked(rec, blank);
    CheckedRuns(rec, blank);
    ClearIsWhole(s1, 0);
    var cycle := Cycle(0, AllOf(s1));
    CycleRuns(s1, 0);
    var s2 := Cycled(s1, 0, AllOf(s1));
    assert 1 in s2.checked && s2.buffer.head.idx == s2.buffer.tail;
    RunConcat(s0, TwoChecks(rec), cycle);
    var rest := BreakingRest(s2, 1);
    var t1 := TwoChecks(rec) + cycle;
    RunConcat(s0, t1, [SetFlag(1)]);
    RunOne(s2, SetFlag(1));
    RunConcat(s0, t1 + [SetFlag(1)], rest);
  }

  lemma ClearIsWhole(s: State, caller: nat)
    requires Clear(s, caller)
    ensures WellFormed(s.buffer) && s.current.epoch.Some? && s.current.epoch.value in s.epochs
    ensures s.buffer.head.idx <= s.buffer.tail
  {
  }

  lemma BreakingRest(s: State, caller: nat) returns (rest: seq<Action>)
    requires Inv(s) && s.phase.Idle? && caller in s.checked && s.buffer.head.idx == s.buffer.tail && !s.scheduled
    ensures WellFormed(s.buffer)
    ensures var t := Run(Apply(s, SetFlag(caller)), rest); t.phase.PreviousStored? && !Advances(t)
  {
    hide Run;
    WellFormedBuffer(s);
    StepKeepsInv(s, SetFlag(caller));
    rest := EmptyFlushBreaks(Apply(s, SetFlag(caller)));
  }

  // ---------------------------------------------------------------------------
  // A window over the whole ring
  // ---------------------------------------------------------------------------

  /** A record arrives and caller 0 sees the low watermark reached; job 7 pins the epoch. */
  function Arrive(rec: Record): seq<Action> {
    [DoAppend(rec, false), CheckWatermark(0), GetActiveEpoch(7)]
  }

  /** The state that such an arrival leaves behind if the buffer was empty. */
  function Arrived(s: State, rec: Record): State
    requires WellFormed(s.buffer) && s.current.epoch.Some?
  {
    var slot := s.buffer.tail % |s.buffer.ring|;
    var w := Stamped(rec, false, slot);
    s.(buffer := s.buffer.(tail := s.buffer.tail + 1, ring := s.buffer.ring[slot := w]), log := s.log + [w],
       checked := s.checked + {0}, current := Slot(s.current.epoch, s.current.refcnt + 1),
       jobs := s.jobs[7 := Job(s.current.epoch, None)])
  }

  lemma ArriveRuns(s: State, rec: Record)
    requires Inv(s) && s.phase.Idle? && s.buffer.lwm <= 1 && s.buffer.head.idx == s.buffer.tail && 7 !in s.jobs
    requires WellFormed(s.buffer) && s.current.epoch.Some?
    ensures Run(s, Arrive(rec)) == Arrived(s, rec) && Inv(Arrived(s, rec))
  {
    hide Run, InvPins, InvCounts, InvViews, InvNet, RingHolds, InvHeads, InvProgress;
    var t := Arrived(s, rec);
    RunThree(s, DoAppend(rec, false), CheckWatermark(0), GetActiveEpoch(7));
    var s1 := s.(buffer := t.buffer, log := t.log);
    assert Apply(s, DoAppend(rec, false)) == s1;
    assert Apply(s1, CheckWatermark(0)) == s1.(checked := s.checked + {0});
    RunKeepsInv(s, Arrive(rec));
  }

  /** With a high watermark of 1: one record is flushed, job 7 pins the epoch after it while a
      second record arrives, that one is flushed too, a third arrives, and job 7 takes its
      window: both slots of the ring, from slot 1 on. */
  lemma WholeRingWindow(rec: Record, blank: Wrapped)
    ensures exists s, v :: Reachable(s) && 7 in s.jobs && s.jobs[7].view == Some(v)
              && v.tail - v.head == |s.buffer.ring| > 0 && v.head % |s.buffer.ring| != 0
  {
    hide Run, Apply, Inv, Cycle, Clear, Reachable;
    CheckedRuns(rec, blank);
    var s1 := Checked(rec, blank);
    ClearIsWhole(s1, 0);
    CycleRuns(s1, 0);
    var s2 := Cycled(s1, 0, AllOf(s1));
    ArriveRuns(s2, rec);
    var s3 := Arrived(s2, rec);
    ClearAgain(s3, s2, rec);
    ClearIsWhole(s3, 0);
    CycleRuns(s3, 0);
    var s4 := Cycled(s3, 0, AllOf(s3));
    LastWindow(s4, rec);
    var last := [DoAppend(rec, false), GetBuffer(7)];
    StartIsReachable(rec, blank);
    ReachableGoesOn(s1, Cycle(0, AllOf(s1)));
    ReachableGoesOn(s2, Arrive(rec));
    ReachableGoesOn(s3, Cycle(0, AllOf(s3)));
    ReachableGoesOn(s4, last);
    var s5 := Run(s4, last);
    assert s5.jobs[7].view == Some(View(1, 3));
  }

  lemma StartIsReachable(rec: Record, blank: Wrapped)
    ensures Reachable(Checked(rec, blank))
  {
    hide Run;
    CheckedRuns(rec, blank);
    assert Checked(rec, blank) == Run(Init(1, 1, blank), TwoChecks(rec));
  }

  lemma ClearAgain(s: State, before: State, rec: Record)
    requires WellFormed(before.buffer) && before.current.epoch.Some? && s == Arrived(before, rec) && Inv(s)
    requires before.phase.Idle? && before.buffer.head.idx == before.buffer.tail
    requires (before.previous.epoch.None? || before.previous.refcnt == 0) && before.buffer.oldHead.refcnt == 0
    ensures Clear(s, 0)
  {
    hide InvPins, InvCounts, InvViews, InvNet, RingHolds, InvHeads, InvProgress;
  }

  lemma LastWindow(s: State, rec: Record)
    requires WellFormed(s.buffer) && s.buffer.hwm == 1 && |s.buffer.ring| == 2
    requires s.buffer.tail == 2 == s.buffer.head.idx && s.buffer.oldHead.idx == 1
    requires 7 in s.jobs && s.jobs[7].view.None? && s.jobs[7].epoch.Some? && s.jobs[7].epoch.value in s.epochs
    requires s.epochs[s.jobs[7].epoch.value].head == 1
    ensures var t := Run(s, [DoAppend(rec, false), GetBuffer(7)]);
            7 in t.jobs && t.jobs[7].view == Some(View(1, 3)) && |t.buffer.ring| == 2
  {
    hide Run;
    RunConcat(s, [DoAppend(rec, false)], [GetBuffer(7)]);
    assert [DoAppend(rec, false)] + [GetBuffer(7)] == [DoAppend(rec, false), GetBuffer(7)];
    RunOne(s, DoAppend(rec, false));
    RunOne(Apply(s, DoAppend(rec, false)), GetBuffer(7));
  }
}
