/** The two loops in which a reconstruction waits: for the holders of the previous epoch, and
    for the windows on the old head. While it waits nobody can join those it waits for. */
module EpochWaits {
  import opened Records
  import opened MutableBuffers
  import opened EpochProtocol
  import opened EpochProofs
  import opened EpochRuns

  /** What other threads do while the reconstruction waits. */
  predicate JobAction(a: Action) {
    a.DoAppend? || a.GetActiveEpoch? || a.GetBuffer? || a.ReleaseView? || a.EndJob? || a.CheckWatermark? || a.SetFlag?
  }

  ghost predicate Waiting(acts: seq<Action>, own: Action) {
    forall i :: 0 <= i < |acts| ==> JobAction(acts[i]) || acts[i] == own
  }

  /** While a reconstruction is under way, a job moves neither it nor the epochs. */
  lemma JobsSparePhase(s: State, a: Action)
    requires WellFormed(s.buffer) && s.scheduled && JobAction(a)
    ensures var t := Apply(s, a);
            && t.phase == s.phase && t.scheduled && t.epochs == s.epochs && t.epochCnt == s.epochCnt
            && t.previous.epoch == s.previous.epoch && t.next == s.next && t.current.epoch == s.current.epoch
            && t.buffer.head.idx == s.buffer.head.idx && t.buffer.oldHead.idx == s.buffer.oldHead.idx
            && t.buffer.tail >= s.buffer.tail
  {
  }

  // ---------------------------------------------------------------------------
  // Waiting for the previous epoch
  // ---------------------------------------------------------------------------

  /** The jobs that the retiring loop waits for. */
  function Blockers(s: State): set<nat> {
    if s.previous.epoch.None? then {} else Holders(s.jobs, s.previous.epoch.value)
  }

  /** The count that the loop looks at is the number of these jobs. */
  lemma BlockersCounted(s: State)
    requires Inv(s) && s.phase.Advancing? && s.previous.epoch.Some?
    ensures s.previous.refcnt == |Blockers(s)|
  {
    var e := s.previous.epoch.value;
    assert Pins(s, e) == SlotRefs(s, e);
  }

  /** No job can come to hold the previous epoch, and one that ends its job lets go of it. */
  lemma BlockersShrink(s: State, a: Action)
    requires Inv(s) && s.phase.Advancing? && JobAction(a)
    ensures Blockers(Apply(s, a)) <= Blockers(s)
    ensures a.EndJob? ==> a.job !in Blockers(Apply(s, a))
  {
    hide InvPins, InvCounts, InvNet, RingHolds, InvViews, InvProgress, InvHeads;
    if a.EndJob? && a.job in s.jobs && s.jobs[a.job].epoch.Some? {
      HeldIsCounted(s, a.job);
    }
  }

  /** What the wait has come to after any interleaving of job actions and own attempts. */
  ghost predicate RetireWait(s: State, acts: seq<Action>, t: State)
    requires s.phase.Advancing?
  {
    && (t.phase == s.phase || t.phase == Retired(s.phase.newHead)) && t.scheduled
    && (t.phase == s.phase ==>
          && t.previous.epoch == s.previous.epoch && Blockers(t) <= Blockers(s)
          && t.buffer.head.idx == s.buffer.head.idx && Watchers(t) <= Watchers(s) + Blockers(s)
          && forall j :: EndJob(j) in acts ==> j !in Blockers(t))
  }

  /** A new window on the old head is one of a job that holds the previous epoch. */
  lemma WatchersHold(s: State, a: Action)
    requires Inv(s) && s.phase.Advancing? && JobAction(a)
    ensures Watchers(Apply(s, a)) <= Watchers(s) + Blockers(s)
  {
    JobsSparePhase(s, a);
    if a.GetBuffer? && a.job in s.jobs && s.jobs[a.job].epoch.Some? {
      HeldIsCounted(s, a.job);
      HeldHead(s, s.jobs[a.job].epoch.value);
    }
  }

  lemma {:induction false} RetireWaits(s: State, acts: seq<Action>)
    requires Inv(s) && s.phase.Advancing? && Waiting(acts, Retire)
    ensures Inv(Run(s, acts)) && RetireWait(s, acts, Run(s, acts))
  {
    WellFormedBuffer(s);
    hide Inv, Apply;
    if acts != [] {
      var before, a := acts[..|acts| - 1], acts[|acts| - 1];
      RetireWaits(s, before);
      StepKeepsInv(Run(s, before), a);
      RetireWaitStep(s, before, Run(s, before), a);
      assert acts == before + [a];
    }
  }

  lemma RetireWaitStep(s: State, acts: seq<Action>, t: State, a: Action)
    requires s.phase.Advancing? && RetireWait(s, acts, t) && Inv(t) && (JobAction(a) || a == Retire)
    ensures WellFormed(t.buffer) && RetireWait(s, acts + [a], Apply(t, a))
  {
    WellFormedBuffer(t);
    if JobAction(a) {
      hide Inv, Apply;
      JobsSparePhase(t, a);
      if t.phase == s.phase {
        BlockersShrink(t, a);
        WatchersHold(t, a);
      }
    }
  }

  /** Once the previous epoch is retired, a window on the old head is one that was there when
      the wait began, or of a job that held the previous epoch then. */
  lemma WatchersAfterRetire(s: State, acts: seq<Action>)
    requires Inv(s) && s.phase.Advancing? && Waiting(acts, Retire) && Run(s, acts).phase == s.phase
    ensures var t := Run(s, acts + [Retire]);
            t.buffer.head.idx == s.buffer.head.idx && Watchers(t) <= Watchers(s) + Blockers(s)
  {
    hide Inv, Run;
    WellFormedBuffer(s);
    RetireWaits(s, acts);
    RunConcat(s, acts, [Retire]);
    RunOne(Run(s, acts), Retire);
  }

  /** The count never rises, and an attempt succeeds if and only if nobody holds the epoch
      any more. */
  lemma RetireSucceedsIff(s: State, acts: seq<Action>)
    requires Inv(s) && s.phase.Advancing? && Waiting(acts, Retire) && Run(s, acts).phase.Advancing?
    ensures Inv(Run(s, acts)) && Run(s, acts).previous.refcnt <= s.previous.refcnt
    ensures Apply(Run(s, acts), Retire).phase.Retired? <==> Blockers(Run(s, acts)) == {}
  {
    RetireWaits(s, acts);
    var t := Run(s, acts);
    hide Run;
    if s.previous.epoch.Some? {
      BlockersCounted(s);
      BlockersCounted(t);
      SubsetCount(Blockers(t), Blockers(s));
    }
  }

  lemma {:induction false} SubsetCount(a: set<nat>, b: set<nat>)
    requires a <= b
    ensures |a| <= |b|
  {
    if a != {} {
      var x :| x in a;
      SubsetCount(a - {x}, b - {x});
    }
  }

  /** The wait ends: once every job that held the previous epoch when the wait began has ended,
      whatever else happened in between, the next attempt retires it. */
  lemma RetireWaitEnds(s: State, acts: seq<Action>)
    requires Inv(s) && s.phase.Advancing? && Waiting(acts, Retire)
    requires forall j :: j in Blockers(s) ==> EndJob(j) in acts
    ensures Run(s, acts + [Retire]).phase == Retired(s.phase.newHead)
  {
    hide Inv, Run;
    WellFormedBuffer(s);
    RetireWaits(s, acts);
    var t := Run(s, acts);
    RunConcat(s, acts, [Retire]);
    RunOne(t, Retire);
    if t.phase.Advancing? {
      assert Blockers(t) == {};
      if t.previous.epoch.Some? {
        BlockersCounted(t);
      }
    }
  }

  // ---------------------------------------------------------------------------
  // Waiting for the old head
  // ---------------------------------------------------------------------------

  /** The windows that the head-moving loop waits for. */
  function Watchers(s: State): set<nat> {
    Viewers(s.jobs, s.buffer.oldHead.idx)
  }

  lemma WatchersCounted(s: State)
    requires Inv(s) && s.phase.PreviousStored?
    ensures s.buffer.oldHead.refcnt == |Watchers(s)|
  {
    assert Views(s, s.buffer.oldHead.idx) == HeadRefs(s, s.buffer.oldHead.idx);
  }

  /** No job can take a window on the old head, and one that is released is gone. */
  lemma WatchersShrink(s: State, a: Action)
    requires Inv(s) && s.phase.PreviousStored? && JobAction(a)
    ensures Watchers(Apply(s, a)) <= Watchers(s)
    ensures a.ReleaseView? ==> a.job !in Watchers(Apply(s, a))
  {
    if a.GetBuffer? && a.job in s.jobs && s.jobs[a.job].epoch.Some? {
      HeldIsCounted(s, a.job);
      HeldHead(s, s.jobs[a.job].epoch.value);
    }
    if a.ReleaseView? && a.job in s.jobs && s.jobs[a.job].view.Some? {
      ViewIsCounted(s, a.job);
    }
  }

  ghost predicate HeadWait(s: State, acts: seq<Action>, t: State)
    requires s.phase.PreviousStored?
  {
    && (t.phase == s.phase || t.phase == HeadChecked(s.phase.newHead)) && t.scheduled
    && (t.phase == s.phase ==>
          && t.buffer.head.idx == s.buffer.head.idx && t.buffer.tail >= s.buffer.tail && t.next == s.next
          && t.buffer.oldHead.idx == s.buffer.oldHead.idx && Watchers(t) <= Watchers(s)
          && forall j :: ReleaseView(j) in acts ==> j !in Watchers(t))
  }

  lemma AttemptSpares(s: State)
    requires Inv(s) && s.phase.PreviousStored?
    ensures var t := Apply(s, TryAdvanceHead);
            && (t.phase == s.phase || t.phase == HeadChecked(s.phase.newHead)) && t.scheduled == s.scheduled
            && t.buffer == s.buffer && t.jobs == s.jobs && t.next == s.next
            && (t.phase.HeadChecked? <==> Advances(s) && s.buffer.oldHead.refcnt == 0)
  {
  }

  lemma {:induction false} HeadWaits(s: State, acts: seq<Action>)
    requires Inv(s) && s.phase.PreviousStored? && Waiting(acts, TryAdvanceHead)
    ensures Inv(Run(s, acts)) && HeadWait(s, acts, Run(s, acts))
  {
    WellFormedBuffer(s);
    hide Inv, Apply;
    if acts != [] {
      var before, a := acts[..|acts| - 1], acts[|acts| - 1];
      HeadWaits(s, before);
      StepKeepsInv(Run(s, before), a);
      HeadWaitStep(s, before, Run(s, before), a);
      assert acts == before + [a];
    }
  }

  lemma HeadWaitStep(s: State, acts: seq<Action>, t: State, a: Action)
    requires s.phase.PreviousStored? && HeadWait(s, acts, t) && Inv(t) && (JobAction(a) || a == TryAdvanceHead)
    ensures WellFormed(t.buffer) && HeadWait(s, acts + [a], Apply(t, a))
  {
    WellFormedBuffer(t);
    if t.phase == s.phase && a == TryAdvanceHead {
      AttemptSpares(t);
    } else if JobAction(a) {
      hide Inv, Apply;
      JobsSparePhase(t, a);
      if t.phase == s.phase {
        WatchersShrink(t, a);
      }
    }
  }

  /** The wait ends: once every window on the old head has been released, whatever else
      happened in between, the next attempt moves the head, if the assertion lets it. */
  lemma HeadWaitEnds(s: State, acts: seq<Action>)
    requires Inv(s) && s.phase.PreviousStored? && Advances(s) && Waiting(acts, TryAdvanceHead)
    requires forall j :: j in Watchers(s) ==> ReleaseView(j) in acts
    ensures Run(s, acts + [TryAdvanceHead]).phase == HeadChecked(s.phase.newHead)
  {
    hide Inv, Apply, Run;
    WellFormedBuffer(s);
    HeadWaits(s, acts);
    var t := Run(s, acts);
    RunConcat(s, acts, [TryAdvanceHead]);
    RunOne(t, TryAdvanceHead);
    if t.phase.PreviousStored? {
      assert Watchers(t) == {};
      WatchersCounted(t);
      AttemptSpares(t);
    } else {
      AttemptsAreOver(t);
    }
  }

  lemma AttemptsAreOver(s: State)
    requires WellFormed(s.buffer) && s.phase.HeadChecked?
    ensures Apply(s, TryAdvanceHead) == s
  {
  }
}
