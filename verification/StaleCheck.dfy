/** The watermark check and the setting of the flag are two steps, and a check can be out of
    date when the flag is set. When does the assertion before the head moves hold? */
module StaleCheck {
  import opened Records
  import opened MutableBuffers
  import opened EpochProtocol
  import opened EpochProofs
  import opened EpochRuns
  import opened EpochCycles
  import opened EpochWaits

  // ---------------------------------------------------------------------------
  // The assertion holds if and only if the flush had something to flush
  // ---------------------------------------------------------------------------

  /** The first half of a reconstruction. */
  predicate BuildAction(a: Action) {
    a.PinForClone? || a.CloneEpoch? || a.EndClonePin? || a.Merge? || a.TakeView? || a.Flush? || a.ReleaseFlushView?
  }

  /** Within the reconstruction that flushed window v: where the window went. */
  predicate SameFlush(v: View, s: State) {
    match s.phase
    case Flushing(w) => w == v && s.buffer.head.idx == v.head
    case Installed(w) => w == v && s.buffer.head.idx == v.head
    case Advancing(h) => h == v.tail && s.buffer.head.idx == v.head
    case Retired(h) => h == v.tail && s.buffer.head.idx == v.head
    case CurrentTaken(h, _) => h == v.tail && s.buffer.head.idx == v.head
    case PreviousStored(h) => h == v.tail && s.buffer.head.idx == v.head
    case Cloned(_) => false
    case Merging => false
    case _ => true
  }

  /** Clones are numbered, so a later reconstruction shows in the count. */
  ghost predicate SinceFlush(v: View, n: nat, s: State) {
    s.epochCnt > n || (s.epochCnt == n && SameFlush(v, s))
  }

  lemma FlushStep(v: View, n: nat, s: State, a: Action)
    requires Inv(s) && SinceFlush(v, n, s)
    ensures SinceFlush(v, n, Apply(s, a))
  {
    hide *;
    if JobAction(a) {
      FlushStepJob(v, n, s, a);
    } else if BuildAction(a) {
      FlushStepBuild(v, n, s, a);
    } else {
      FlushStepAdvance(v, n, s, a);
    }
  }

  lemma FlushStepJob(v: View, n: nat, s: State, a: Action)
    requires Inv(s) && SinceFlush(v, n, s) && JobAction(a)
    ensures SinceFlush(v, n, Apply(s, a))
  {
    hide InvPins, InvCounts, InvNet, RingHolds, InvViews, InvHeads;
    hide Apply;
    JobsMoveLittle(s, a);
  }

  lemma FlushStepBuild(v: View, n: nat, s: State, a: Action)
    requires Inv(s) && SinceFlush(v, n, s) && BuildAction(a)
    ensures SinceFlush(v, n, Apply(s, a))
  {
    hide InvPins, InvCounts, InvNet, RingHolds, InvViews, InvHeads;
  }

  lemma FlushStepAdvance(v: View, n: nat, s: State, a: Action)
    requires Inv(s) && SinceFlush(v, n, s) && !JobAction(a) && !BuildAction(a)
    ensures SinceFlush(v, n, Apply(s, a))
  {
    hide InvPins, InvCounts, InvNet, RingHolds, InvViews, InvHeads;
  }

  /** A job at most sets the flag. */
  lemma JobsMoveLittle(s: State, a: Action)
    requires Inv(s) && JobAction(a)
    ensures var t := Apply(s, a);
            && (t.phase == s.phase || (s.phase.Idle? && t.phase.Scheduled?)) && t.epochCnt == s.epochCnt
            && t.buffer.head.idx == s.buffer.head.idx && t.buffer.tail >= s.buffer.tail
  {
    hide InvPins, InvCounts, InvNet, RingHolds, InvViews, InvHeads, InvProgress;
  }

  lemma {:induction false} FlushRun(v: View, s: State, acts: seq<Action>)
    requires Inv(s) && s.phase == Flushing(v)
    ensures Inv(Run(s, acts)) && SinceFlush(v, s.epochCnt, Run(s, acts))
  {
    RunKeepsInv(s, acts);
    if acts != [] {
      var before, a := acts[..|acts| - 1], acts[|acts| - 1];
      FlushRun(v, s, before);
      hide Inv, Apply;
      FlushStep(v, s.epochCnt, Run(s, before), a);
    }
  }

  /** When the head is to be moved, the assertion holds if and only if the window that this
      reconstruction flushed is not empty. */
  lemma AdvancesIffWindow(v: View, s: State, acts: seq<Action>)
    requires Reachable(s) && s.phase == Flushing(v)
    ensures WellFormed(s.buffer)
    ensures var t := Run(s, acts);
            t.epochCnt == s.epochCnt && t.phase.PreviousStored? ==> (Advances(t) <==> v.head < v.tail)
  {
    hide Run;
    ReachableHolds(s);
    FlushRun(v, s, acts);
    assert Inv(Run(s, acts));
  }

  // ---------------------------------------------------------------------------
  // ... if and only if there was something to flush when the flag was set
  // ---------------------------------------------------------------------------

  /** Within the reconstruction that was scheduled with a record in the buffer. */
  predicate SomethingToFlush(s: State) {
    var head, tail := s.buffer.head.idx, s.buffer.tail;
    match s.phase
    case Scheduled => head < tail
    case PinnedForClone(_) => head < tail
    case Cloned(_) => head < tail
    case Merging => head < tail
    case Flushing(v) => head < v.tail
    case Installed(v) => head < v.tail
    case Advancing(h) => head < h
    case Retired(h) => head < h
    case CurrentTaken(h, _) => head < h
    case PreviousStored(h) => head < h
    case _ => true
  }

  /** The reconstruction makes clone n + 1; clone n + 2 belongs to the next one. */
  ghost predicate SinceFlag(n: nat, s: State) {
    || s.epochCnt > n + 1
    || (s.epochCnt == n + 1 && (s.phase.Scheduled? || s.phase.PinnedForClone? || SomethingToFlush(s)))
    || (s.epochCnt == n && (s.phase.Scheduled? || s.phase.PinnedForClone?) && SomethingToFlush(s))
  }

  lemma FlagStep(n: nat, s: State, a: Action)
    requires Inv(s) && SinceFlag(n, s)
    ensures SinceFlag(n, Apply(s, a))
  {
    hide *;
    if JobAction(a) {
      FlagStepJob(n, s, a);
    } else if BuildAction(a) {
      FlagStepBuild(n, s, a);
    } else {
      FlagStepAdvance(n, s, a);
    }
  }

  lemma FlagStepJob(n: nat, s: State, a: Action)
    requires Inv(s) && SinceFlag(n, s) && JobAction(a)
    ensures SinceFlag(n, Apply(s, a))
  {
    hide InvPins, InvCounts, InvNet, RingHolds, InvViews;
    hide Apply;
    JobsMoveLittle(s, a);
  }

  lemma FlagStepBuild(n: nat, s: State, a: Action)
    requires Inv(s) && SinceFlag(n, s) && BuildAction(a)
    ensures SinceFlag(n, Apply(s, a))
  {
    hide InvPins, InvCounts, InvNet, RingHolds, InvViews;
  }

  lemma FlagStepAdvance(n: nat, s: State, a: Action)
    requires Inv(s) && SinceFlag(n, s) && !JobAction(a) && !BuildAction(a)
    ensures SinceFlag(n, Apply(s, a))
  {
    hide InvPins, InvCounts, InvNet, RingHolds, InvViews;
  }

  lemma {:induction false} FlagRun(n: nat, s: State, acts: seq<Action>)
    requires Inv(s) && SinceFlag(n, s)
    ensures Inv(Run(s, acts)) && SinceFlag(n, Run(s, acts))
  {
    RunKeepsInv(s, acts);
    if acts != [] {
      var before, a := acts[..|acts| - 1], acts[|acts| - 1];
      FlagRun(n, s, before);
      hide Inv, Apply;
      FlagStep(n, Run(s, before), a);
    }
  }

  /** The reconstruction scheduled in s, which makes clone n + 1, meets the assertion after
      `acts`, if it has come that far. */
  ghost predicate MeetsAssertion(s: State, acts: seq<Action>)
    requires WellFormed(s.buffer)
  {
    var t := Run(s, acts);
    t.epochCnt <= s.epochCnt + 1 && t.phase.PreviousStored? ==> Advances(t)
  }

  // ---------------------------------------------------------------------------
  // With an empty buffer some continuation breaks it
  // ---------------------------------------------------------------------------

  /** Ends every job that holds the previous epoch. */
  lemma {:induction false} EndAll(jobs: set<nat>) returns (acts: seq<Action>)
    ensures forall i :: 0 <= i < |acts| ==> acts[i].EndJob?
    ensures forall j :: j in jobs ==> EndJob(j) in acts
  {
    acts := [];
    var left := jobs;
    while left != {}
      invariant left <= jobs && forall i :: 0 <= i < |acts| ==> acts[i].EndJob?
      invariant forall j :: j in jobs ==> j in left || EndJob(j) in acts
      decreases |left|
    {
      var j :| j in left;
      acts, left := acts + [EndJob(j)], left - {j};
    }
  }

  lemma EndJobSpares(s: State, a: Action)
    requires WellFormed(s.buffer) && a.EndJob?
    ensures var t := Apply(s, a);
            t.buffer == s.buffer && t.phase == s.phase && t.epochCnt == s.epochCnt
  {
  }

  lemma {:induction false} EndsSpare(s: State, acts: seq<Action>)
    requires WellFormed(s.buffer) && forall i :: 0 <= i < |acts| ==> acts[i].EndJob?
    ensures var t := Run(s, acts);
            t.buffer == s.buffer && t.phase == s.phase && t.epochCnt == s.epochCnt
  {
    hide Apply;
    if acts != [] {
      EndsSpare(s, acts[..|acts| - 1]);
      EndJobSpares(Run(s, acts[..|acts| - 1]), acts[|acts| - 1]);
    }
  }

  /** From the wait for the previous epoch on, ending its holders leads to the assertion. */
  lemma ReachAssertion(s: State) returns (acts: seq<Action>)
    requires Inv(s) && s.phase.Advancing?
    ensures WellFormed(s.buffer)
    ensures var t := Run(s, acts);
            t.phase == PreviousStored(s.phase.newHead) && t.buffer == s.buffer && t.epochCnt == s.epochCnt
  {
    hide Inv, Run;
    WellFormedBuffer(s);
    var ends := EndAll(Blockers(s));
    RetireWaitEnds(s, ends);
    EndsSpare(s, ends);
    var t := Run(s, ends);
    RunConcat(s, ends, [Retire]);
    RunOne(t, Retire);
    RetireLets(t);
    DemoteStage(t);
    RunConcat(s, ends, DEMOTE);
    acts := ends + DEMOTE;
  }

  lemma RetireLets(s: State)
    requires WellFormed(s.buffer) && s.phase.Advancing? && Apply(s, Retire).phase.Retired?
    ensures s.previous.epoch.None? || s.previous.refcnt == 0
  {
  }

  lemma NothingAdded(s: State, id: nat)
    requires WellFormed(s.buffer) && id in s.epochs && s.buffer.head.idx == s.buffer.tail
    ensures var c := s.epochs[id].contents;
            AddsNet(c, ViewRecords(s.buffer.ring, View(s.buffer.head.idx, s.buffer.tail)), c)
  {
    assert ViewRecords(s.buffer.ring, View(s.buffer.head.idx, s.buffer.tail)) == [];
  }

  /** Scheduled with an empty buffer, the reconstruction can go on to a head advance that does
      not advance. */
  lemma EmptyFlushBreaks(s: State) returns (acts: seq<Action>)
    requires Inv(s) && s.phase.Scheduled? && s.buffer.head.idx == s.buffer.tail
    ensures WellFormed(s.buffer) && !MeetsAssertion(s, acts)
  {
    hide Run, Apply;
    IdleIsSettled(s);
    CloneStage(s);
    var s1, id := Cloned'(s), s.epochCnt + 1;
    var contents := s1.epochs[id].contents;
    NothingAdded(s1, id);
    FlushStage(s1, id, contents);
    var s2 := Flushed(s1, id, contents);
    RunConcat(s, CLONE, FlushAll(contents));
    RunKeepsInv(s, CLONE + FlushAll(contents));
    var rest := ReachAssertion(s2);
    acts := CLONE + FlushAll(contents) + rest;
    RunConcat(s, CLONE + FlushAll(contents), rest);
  }

  /** A flag that is set with a record in the buffer keeps the assertion safe on every
      continuation of its reconstruction, and a flag set with none does not. */
  lemma FlagSafeIff(s: State, caller: nat)
    requires Reachable(s) && caller in s.checked && !s.scheduled
    ensures WellFormed(s.buffer)
    ensures (forall acts :: MeetsAssertion(Apply(s, SetFlag(caller)), acts)) <==> s.buffer.head.idx < s.buffer.tail
  {
    hide Run, Reachable, MeetsAssertion;
    ReachableHolds(s);
    StepKeepsInv(s, SetFlag(caller));
    var t := Apply(s, SetFlag(caller));
    assert t.phase == Scheduled && t.buffer == s.buffer && t.epochCnt == s.epochCnt;
    if s.buffer.head.idx < s.buffer.tail {
      forall acts ensures MeetsAssertion(t, acts) { FlagMeets(t, acts); }
    } else {
      var acts := EmptyFlushBreaks(t);
    }
  }

  lemma FlagMeets(s: State, acts: seq<Action>)
    requires Inv(s) && s.phase.Scheduled? && s.buffer.head.idx < s.buffer.tail
    ensures WellFormed(s.buffer) && MeetsAssertion(s, acts)
  {
    hide Run;
    FlagRun(s.epochCnt, s, acts);
    assert Inv(Run(s, acts));
  }
}
