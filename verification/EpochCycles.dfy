/** One whole reconstruction without interruption, stage by stage. */
module EpochCycles {
  import opened Records
  import opened MutableBuffers
  import opened EpochProtocol
  import opened EpochRuns

  const CLONE: seq<Action> := [PinForClone, CloneEpoch, EndClonePin]
  const DEMOTE: seq<Action> := [Retire, TakeCurrent, StorePrevious]
  const MOVE_HEAD: seq<Action> := [TryAdvanceHead, SwapHead, StoreOldHead]
  const INSTALL: seq<Action> := [InstallCurrent, ClearNext, ClearFlag]

  function FlushAll(contents: seq<Wrapped>): seq<Action> {
    [TakeView, Flush(contents), ReleaseFlushView]
  }

  /** The current epoch is in place and apart from the previous one. */
  ghost predicate Settled(s: State) {
    && WellFormed(s.buffer) && s.current.epoch.Some? && s.current.epoch.value in s.epochs
    && s.current.epoch != s.previous.epoch && s.epochs[s.current.epoch.value].head == s.buffer.head.idx
    && s.buffer.head.idx <= s.buffer.tail && s.buffer.oldHead.idx != s.buffer.head.idx
  }

  lemma IdleIsSettled(s: State)
    requires Inv(s) && (s.phase.Idle? || s.phase.Scheduled?)
    ensures Settled(s) && s.next.epoch.None? && s.epochCnt + 1 !in s.epochs && s.scheduled == s.phase.Scheduled?
    ensures s.previous.epoch.Some? ==> s.previous.epoch.value <= s.epochCnt
    ensures s.current.epoch.value <= s.epochCnt
  {
  }

  function Cloned'(s: State): State
    requires s.current.epoch.Some? && s.current.epoch.value in s.epochs
  {
    var id := s.epochCnt + 1;
    s.(epochCnt := id, epochs := s.epochs[id := s.epochs[s.current.epoch.value]],
       next := Slot(Some(id), 0), phase := Merging)
  }

  lemma CloneStage(s: State)
    requires Settled(s) && s.phase.Scheduled?
    ensures Run(s, CLONE) == Cloned'(s)
  {
    hide Run, Apply;
    RunThree(s, PinForClone, CloneEpoch, EndClonePin);
    PinStep(s);
    var e, id := s.current.epoch.value, s.epochCnt + 1;
    var s1 := s.(current := Slot(Some(e), s.current.refcnt + 1), phase := PinnedForClone(e));
    CloneStep(s1);
    var s2 := s1.(epochCnt := id, epochs := s.epochs[id := s.epochs[e]], next := Slot(Some(id), 0), phase := Cloned(e));
    UnpinStep(s2);
  }

  lemma PinStep(s: State)
    requires WellFormed(s.buffer) && s.phase.Scheduled? && s.current.epoch.Some?
    ensures var e := s.current.epoch.value;
            Apply(s, PinForClone) == s.(current := Slot(Some(e), s.current.refcnt + 1), phase := PinnedForClone(e))
  {
  }

  lemma CloneStep(s: State)
    requires WellFormed(s.buffer) && s.phase.PinnedForClone? && s.phase.source in s.epochs
    ensures var e, id := s.phase.source, s.epochCnt + 1;
            Apply(s, CloneEpoch)
            == s.(epochCnt := id, epochs := s.epochs[id := s.epochs[e]], next := Slot(Some(id), 0), phase := Cloned(e))
  {
  }

  lemma UnpinStep(s: State)
    requires WellFormed(s.buffer) && s.phase.Cloned? && s.previous.epoch != Some(s.phase.source)
    requires s.current.epoch.Some? && s.current.refcnt > 0
    ensures Apply(s, EndClonePin) == s.(current := Slot(s.current.epoch, s.current.refcnt - 1), phase := Merging)
  {
  }

  /** A clone that has taken in the window from the head to the tail. */
  function Flushed(s: State, id: nat, contents: seq<Wrapped>): State
    requires id in s.epochs
  {
    s.(epochs := s.epochs[id := s.epochs[id].(contents := contents)], phase := Advancing(s.buffer.tail))
  }

  lemma FlushStage(s: State, id: nat, contents: seq<Wrapped>)
    requires WellFormed(s.buffer) && s.phase.Merging? && s.next.epoch == Some(id) && id in s.epochs
    requires s.epochs[id].head == s.buffer.head.idx <= s.buffer.tail && s.buffer.oldHead.idx != s.buffer.head.idx
    requires AddsNet(s.epochs[id].contents,
                     ViewRecords(s.buffer.ring, View(s.buffer.head.idx, s.buffer.tail)), contents)
    ensures Run(s, FlushAll(contents)) == Flushed(s, id, contents)
  {
    hide Run, Apply, AddsNet, ViewRecords;
    RunThree(s, TakeView, Flush(contents), ReleaseFlushView);
    var v := View(s.buffer.head.idx, s.buffer.tail);
    var held := s.buffer.(head := Head(v.head, s.buffer.head.refcnt + 1));
    TakeStep(s, id);
    var s1 := s.(buffer := held, phase := Flushing(v));
    PutStep(s1, id, contents);
    ReleaseStep(s1.(epochs := s.epochs[id := s.epochs[id].(contents := contents)], phase := Installed(v)));
  }

  lemma TakeStep(s: State, id: nat)
    requires WellFormed(s.buffer) && s.phase.Merging? && s.next.epoch == Some(id) && id in s.epochs
    requires s.epochs[id].head == s.buffer.head.idx && s.buffer.oldHead.idx != s.buffer.head.idx
    ensures var h := s.buffer.head.idx;
            Apply(s, TakeView) == s.(buffer := s.buffer.(head := Head(h, s.buffer.head.refcnt + 1)),
                                     phase := Flushing(View(h, s.buffer.tail)))
  {
  }

  lemma PutStep(s: State, id: nat, contents: seq<Wrapped>)
    requires WellFormed(s.buffer) && s.phase.Flushing? && s.next.epoch == Some(id) && id in s.epochs
    requires s.phase.view.head <= s.phase.view.tail
    requires AddsNet(s.epochs[id].contents, ViewRecords(s.buffer.ring, s.phase.view), contents)
    ensures Apply(s, Flush(contents)) == s.(epochs := s.epochs[id := s.epochs[id].(contents := contents)],
                                            phase := Installed(s.phase.view))
  {
    hide AddsNet, ViewRecords;
  }

  lemma ReleaseStep(s: State)
    requires WellFormed(s.buffer) && s.phase.Installed? && s.buffer.head.refcnt > 0
    requires s.phase.view.head == s.buffer.head.idx && s.buffer.oldHead.idx != s.buffer.head.idx
    ensures Apply(s, ReleaseFlushView)
         == s.(buffer := s.buffer.(head := Head(s.buffer.head.idx, s.buffer.head.refcnt - 1)),
               phase := Advancing(s.phase.view.tail))
  {
  }

  function Demoted(s: State): State
    requires s.phase.Advancing?
  {
    s.(epochs := if s.previous.epoch.Some? then s.epochs - {s.previous.epoch.value} else s.epochs,
       previous := s.current, current := EMPTY, phase := PreviousStored(s.phase.newHead))
  }

  lemma DemoteStage(s: State)
    requires WellFormed(s.buffer) && s.phase.Advancing? && (s.previous.epoch.None? || s.previous.refcnt == 0)
    ensures Run(s, DEMOTE) == Demoted(s)
  {
    hide Run;
    RunThree(s, Retire, TakeCurrent, StorePrevious);
    var s1 := Apply(s, Retire);
    assert s1.phase == Retired(s.phase.newHead);
    var s2 := Apply(s1, TakeCurrent);
    assert s2.phase == CurrentTaken(s.phase.newHead, s.current);
  }

  function HeadMoved(s: State, id: nat): State
    requires s.phase.PreviousStored? && id in s.epochs
  {
    s.(epochs := s.epochs[id := s.epochs[id].(head := s.phase.newHead)],
       buffer := s.buffer.(head := Head(s.phase.newHead, 0), oldHead := s.buffer.head), phase := HeadAdvanced)
  }

  lemma HeadStage(s: State, id: nat)
    requires WellFormed(s.buffer) && s.phase.PreviousStored? && s.next.epoch == Some(id) && id in s.epochs
    requires s.buffer.oldHead.refcnt == 0 && Advances(s)
    ensures Run(s, MOVE_HEAD) == HeadMoved(s, id)
  {
    hide Run, Apply;
    RunThree(s, TryAdvanceHead, SwapHead, StoreOldHead);
    AttemptStep(s, id);
    var h := s.phase.newHead;
    ShiftSteps(s.(epochs := s.epochs[id := s.epochs[id].(head := h)], phase := HeadChecked(h)));
  }

  lemma AttemptStep(s: State, id: nat)
    requires WellFormed(s.buffer) && s.phase.PreviousStored? && s.next.epoch == Some(id) && id in s.epochs
    requires s.buffer.oldHead.refcnt == 0 && Advances(s)
    ensures var h := s.phase.newHead;
            Apply(s, TryAdvanceHead) == s.(epochs := s.epochs[id := s.epochs[id].(head := h)], phase := HeadChecked(h))
  {
  }

  lemma ShiftSteps(s: State)
    requires WellFormed(s.buffer) && s.phase.HeadChecked?
    ensures Apply(Apply(s, SwapHead), StoreOldHead)
         == s.(buffer := s.buffer.(head := Head(s.phase.newHead, 0), oldHead := s.buffer.head), phase := HeadAdvanced)
  {
    var t := Apply(s, SwapHead);
    assert t.phase == HeadSwapped(s.phase.newHead, s.buffer.head);
  }

  function Installed'(s: State): State {
    s.(current := s.next, next := EMPTY, scheduled := false, phase := Idle)
  }

  lemma InstallStage(s: State)
    requires WellFormed(s.buffer) && s.phase.HeadAdvanced?
    ensures Run(s, INSTALL) == Installed'(s)
  {
    hide Run;
    RunThree(s, InstallCurrent, ClearNext, ClearFlag);
    var s1 := Apply(s, InstallCurrent);
    assert s1.phase == CurrentStored;
    var s2 := Apply(s1, ClearNext);
    assert s2.phase == NextCleared;
  }

  function Cycle(caller: nat, contents: seq<Wrapped>): seq<Action> {
    [SetFlag(caller)] + (CLONE + (FlushAll(contents) + (DEMOTE + (MOVE_HEAD + INSTALL))))
  }

  /** What a whole cycle leaves: everything up to the tail flushed, the head there, the old
      epoch and the old head one step back. */
  function Cycled(s: State, caller: nat, contents: seq<Wrapped>): State
    requires s.current.epoch.Some? && s.current.epoch.value in s.epochs
  {
    var id := s.epochCnt + 1;
    var kept := if s.previous.epoch.Some? then s.epochs - {s.previous.epoch.value} else s.epochs;
    s.(checked := s.checked - {caller}, epochCnt := id, epochs := kept[id := Epoch(contents, s.buffer.tail)],
       current := Slot(Some(id), 0), previous := s.current,
       buffer := s.buffer.(head := Head(s.buffer.tail, 0), oldHead := s.buffer.head))
  }

  lemma FullCycle(s: State, caller: nat, contents: seq<Wrapped>)
    requires Inv(s) && s.phase.Idle? && caller in s.checked && s.buffer.head.idx < s.buffer.tail
    requires (s.previous.epoch.None? || s.previous.refcnt == 0) && s.buffer.oldHead.refcnt == 0
    requires s.current.epoch.Some? && s.current.epoch.value in s.epochs
    requires AddsNet(s.epochs[s.current.epoch.value].contents,
                     ViewRecords(s.buffer.ring, View(s.buffer.head.idx, s.buffer.tail)), contents)
    ensures Run(s, Cycle(caller, contents)) == Cycled(s, caller, contents)
  {
    hide Run, AddsNet, ViewRecords;
    IdleIsSettled(s);
    var id := s.epochCnt + 1;
    var s1 := s.(checked := s.checked - {caller}, scheduled := true, phase := Scheduled);
    RunOne(s, SetFlag(caller));
    var s2 := Cloned'(s1);
    CloneStage(s1);
    var s3 := Flushed(s2, id, contents);
    FlushStage(s2, id, contents);
    var s4 := Demoted(s3);
    DemoteStage(s3);
    var s5 := HeadMoved(s4, id);
    HeadStage(s4, id);
    InstallStage(s5);
    StagesJoin(s, [SetFlag(caller)], CLONE, FlushAll(contents), DEMOTE, MOVE_HEAD, INSTALL);
    assert Installed'(s5) == Cycled(s, caller, contents);
  }

  lemma StagesJoin(s: State, a: seq<Action>, b: seq<Action>, c: seq<Action>, d: seq<Action>, e: seq<Action>,
        f: seq<Action>)
    requires WellFormed(s.buffer)
    ensures Run(s, a + (b + (c + (d + (e + f))))) == Run(Run(Run(Run(Run(Run(s, a), b), c), d), e), f)
  {
    hide *;
    RunConcat(s, a, b + (c + (d + (e + f))));
    var s1 := Run(s, a);
    RunConcat(s1, b, c + (d + (e + f)));
    var s2 := Run(s1, b);
    RunConcat(s2, c, d + (e + f));
    var s3 := Run(s2, c);
    RunConcat(s3, d, e + f);
    RunConcat(Run(s3, d), e, f);
  }
}
