/** The framework object: three counted epoch slots, the reconstruction flag and the buffer.
    The second half of a reconstruction runs here as the code runs it, loops included, while
    other threads act in between as a script tells. */
module DynamicExtensions {
  import opened Records
  import opened MutableBuffers
  import opened EpochProtocol
  import opened EpochProofs
  import opened EpochRuns
  import opened EpochCycles
  import opened EpochWaits
  import opened RingBuffers

  class DynamicExtension {
    const buffer: MutableBuffer
    var current: Slot
    var previous: Slot
    var next: Slot
    var epochs: map<nat, Epoch>
    var epochCnt: nat
    var checked: set<nat>
    var scheduled: bool
    var jobs: map<nat, Job>
    /** What other threads will do, one action at a time. */
    var script: seq<Action>
    /** Where the reconstruction stands, and the history. */
    ghost var phase: Phase
    ghost var log: seq<Wrapped>

    ghost function Value(): State
      reads this, buffer, buffer.data
    {
      State(buffer.Value(), epochs, epochCnt, current, previous, next, checked, scheduled, phase, jobs, log)
    }

    ghost predicate Valid()
      reads this, buffer, buffer.data
    {
      Inv(Value()) && forall i :: 0 <= i < |script| ==> JobAction(script[i])
    }

    constructor (lwm: nat, hwm: nat, blank: Wrapped, script: seq<Action>)
      requires lwm <= hwm && 1 <= hwm && forall i :: 0 <= i < |script| ==> JobAction(script[i])
      ensures Valid() && Value() == Init(lwm, hwm, blank) && fresh(buffer) && fresh(buffer.data)
    {
      buffer := new MutableBuffer(lwm, hwm, 0, blank);
      current, previous, next := Slot(Some(0), 0), EMPTY, EMPTY;
      epochs, epochCnt, checked, scheduled := map[0 := Epoch([], 0)], 0, {}, false;
      jobs, this.script, phase, log := map[], script, Idle, [];
      new;
      InitHolds(lwm, hwm, blank);
    }

    // -------------------------------------------------------------------------
    // Other threads
    // -------------------------------------------------------------------------

    method InternalAppend(rec: Record, tombstone: bool)
      requires WellFormed(buffer.Value())
      modifies this`log, buffer`tail, buffer.data
      ensures Value() == Apply(old(Value()), DoAppend(rec, tombstone))
    {
      ghost var pos := buffer.tail % buffer.data.Length;
      var ok, _ := buffer.AppendRecord(rec, tombstone, []);
      if ok {
        log := log + [Stamped(rec, tombstone, pos)];
      }
    }

    /** One iteration of the loop that pins an epoch. */
    method TryPin() returns (e: Option<nat>)
      modifies this`current, this`previous
      ensures e.Some? <==> Pin(old(Value())).Some?
      ensures e.Some? ==> Pin(old(Value())) == Some((e.value, Value()))
      ensures e.None? ==> Value() == old(Value())
    {
      e := None;
      if current.epoch.None? {
        if previous.epoch.Some? {
          e := previous.epoch;
          previous := Slot(previous.epoch, previous.refcnt + 1);
        }
      } else {
        e := current.epoch;
        current := Slot(current.epoch, current.refcnt + 1);
      }
    }

    /** One iteration of the loop that unpins an epoch. */
    method TryUnpin(e: nat) returns (done: bool)
      modifies this`current, this`previous
      ensures done == Unpin(old(Value()), e).Some?
      ensures Value() == if done then Unpin(old(Value()), e).value else old(Value())
    {
      done := false;
      if previous.epoch == Some(e) {
        if previous.refcnt > 0 {
          previous := Slot(previous.epoch, previous.refcnt - 1);
          done := true;
        }
      } else if current.epoch.Some? && current.refcnt > 0 {
        current := Slot(current.epoch, current.refcnt - 1);
        done := true;
      }
    }

    method PinStep(j: nat)
      requires WellFormed(buffer.Value())
      modifies this`current, this`previous, this`jobs
      ensures Value() == Apply(old(Value()), GetActiveEpoch(j))
    {
      if j !in jobs {
        var e := TryPin();
        if e.Some? {
          jobs := jobs[j := Job(e, None)];
        }
      }
    }

    method UnpinStep(j: nat)
      requires WellFormed(buffer.Value())
      modifies this`current, this`previous, this`jobs
      ensures Value() == Apply(old(Value()), EndJob(j))
    {
      if j in jobs && jobs[j].epoch.Some? {
        var done := TryUnpin(jobs[j].epoch.value);
        if done {
          jobs := jobs[j := jobs[j].(epoch := None)];
        }
      }
    }

    /** Takes a window from an epoch's head on. */
    method WindowStep(j: nat)
      requires WellFormed(buffer.Value())
      modifies this`jobs, buffer`head, buffer`oldHead
      ensures Value() == Apply(old(Value()), GetBuffer(j))
    {
      if j in jobs && jobs[j].epoch.Some? && jobs[j].view.None? && jobs[j].epoch.value in epochs {
        var head := epochs[jobs[j].epoch.value].head;
        var got := buffer.TryGetHead(head);
        if got {
          jobs := jobs[j := jobs[j].(view := Some(View(head, buffer.tail)))];
        }
      }
    }

    method ReleaseStep(j: nat)
      requires WellFormed(buffer.Value())
      modifies this`jobs, buffer`head, buffer`oldHead
      ensures Value() == Apply(old(Value()), ReleaseView(j))
    {
      if j in jobs && jobs[j].view.Some? {
        var done := buffer.TryReleaseHead(jobs[j].view.value.head);
        if done {
          jobs := jobs[j := jobs[j].(view := None)];
        }
      }
    }

    /** The watermark check, and the setting of the flag by a caller that has passed it. */
    method CheckStep(c: nat)
      requires WellFormed(buffer.Value())
      modifies this`checked
      ensures Value() == Apply(old(Value()), CheckWatermark(c))
    {
      var low := buffer.IsAtLowWatermark();
      if low {
        checked := checked + {c};
      }
    }

    method FlagStep(c: nat)
      requires WellFormed(buffer.Value())
      modifies this`checked, this`scheduled, this`phase
      ensures Value() == Apply(old(Value()), SetFlag(c))
    {
      if c in checked {
        checked := checked - {c};
        if !scheduled {
          scheduled, phase := true, Scheduled;
        }
      }
    }

    /** Lets another thread take its next step. */
    method Interleave() returns (ghost acts: seq<Action>)
      requires Valid()
      modifies this, buffer, buffer.data
      ensures Valid() && acts == old(script)[..if old(script) == [] then 0 else 1] && script == old(script)[|acts|..]
      ensures WellFormed(old(Value()).buffer) && Value() == Run(old(Value()), acts)
    {
      hide Inv, Apply, Run;
      WellFormedBuffer(Value());
      if script == [] {
        RunNothing(Value());
        return [];
      }
      var a := script[0];
      acts := [a];
      RunOne(Value(), a);
      StepKeepsInv(Value(), a);
      match a {
        case DoAppend(rec, tombstone) => InternalAppend(rec, tombstone);
        case GetActiveEpoch(j) => PinStep(j);
        case GetBuffer(j) => WindowStep(j);
        case ReleaseView(j) => ReleaseStep(j);
        case EndJob(j) => UnpinStep(j);
        case CheckWatermark(c) => CheckStep(c);
        case SetFlag(c) => FlagStep(c);
      }
      script := script[1..];
    }

    // -------------------------------------------------------------------------
    // Retiring the previous epoch
    // -------------------------------------------------------------------------

    method TryRetire() returns (done: bool)
      requires WellFormed(buffer.Value()) && phase.Advancing?
      modifies this`epochs, this`previous, this`phase
      ensures Value() == Apply(old(Value()), Retire)
      ensures phase == if done then Retired(old(phase).newHead) else old(phase)
      ensures !done ==> Value() == old(Value())
    {
      done := true;
      if previous.epoch.Some? {
        if previous.refcnt == 0 {
          epochs := epochs - {previous.epoch.value};
          previous := EMPTY;
        } else {
          done := false;
        }
      }
      if done {
        phase := Retired(phase.newHead);
      }
    }

    /** One more action of other threads in a run that began in s. */
    method LetAct(ghost s: State, ghost acts: seq<Action>) returns (ghost more: seq<Action>)
      requires Valid() && script != [] && WellFormed(s.buffer) && Value() == Run(s, acts)
      modifies this, buffer, buffer.data
      ensures Valid() && script == old(script)[1..] && JobAction(old(script)[0])
      ensures more == acts + [old(script)[0]] && Value() == Run(s, more)
      ensures !old(phase).Idle? ==> phase == old(phase) && (Advances(old(Value())) ==> Advances(Value()))
    {
      hide Inv, Apply, Run;
      WellFormedBuffer(Value());
      if scheduled {
        JobsSparePhase(Value(), script[0]);
      }
      ghost var a := script[0];
      RunOne(Value(), a);
      var one := Interleave();
      assert one == [a];
      RunConcat(s, acts, one);
      more := acts + one;
    }

    method RetireAttempt(ghost newHead: nat, ghost s: State, ghost acts: seq<Action>) returns (done: bool)
      requires Valid() && phase == Advancing(newHead) && WellFormed(s.buffer) && Value() == Run(s, acts)
      modifies this`epochs, this`previous, this`phase
      ensures Valid() && Value() == Run(s, acts + [Retire])
      ensures phase == if done then Retired(newHead) else Advancing(newHead)
    {
      hide Inv, Apply, Run;
      WellFormedBuffer(Value());
      StepKeepsInv(Value(), Retire);
      RunConcat(s, acts, [Retire]);
      RunOne(Value(), Retire);
      done := TryRetire();
    }

    /** Waits until nobody holds the previous epoch. Whatever the other threads do meanwhile, the
        wait ends within n actions of theirs if these end every job that held the epoch when it
        began. */
    method RetireEpoch(ghost newHead: nat) returns (done: bool, ghost acts: seq<Action>)
      requires Valid() && phase == Advancing(newHead)
      modifies this, buffer, buffer.data
      ensures Valid() && WellFormed(old(Value()).buffer) && Value() == Run(old(Value()), acts) && Waiting(acts, Retire)
      ensures if done then phase == Retired(newHead) else script == []
      ensures |script| <= |old(script)| && script == old(script)[|old(script)| - |script|..]
      ensures forall n: nat :: EndsBy(Blockers(old(Value())), old(script), n) ==> done && |old(script)| <= |script| + n
      ensures done ==> Value().buffer.head.idx == old(Value()).buffer.head.idx
      ensures done ==> Watchers(Value()) <= Watchers(old(Value())) + Blockers(old(Value()))
    {
      ghost var s := Value();
      hide Inv, Apply, Run, Blockers, Watchers, Waiting, Done, EndsBy, DynamicExtension.Value;
      PhaseIs();
      WellFormedBuffer(s);
      RunNothing(s);
      acts := [];
      ghost var past: seq<Action> := [];
      NoneYet(Retire);
      while true
        invariant Valid() && phase == Advancing(newHead) && Value() == Run(s, acts) && Waiting(acts, Retire)
        invariant old(script) == past + script && Done(past, acts)
        invariant forall n: nat :: EndsBy(Blockers(s), old(script), n) ==> |past| <= n
        decreases |script|
      {
        PhaseIs();
        ghost var before := acts;
        done := RetireAttempt(newHead, s, acts);
        OneMore(past, acts, Retire, Retire);
        acts := acts + [Retire];
        PhaseIs();
        if done {
          WatchersAfterRetire(s, before);
          return;
        }
        StillBlocked(s, before, past, script);
        if script == [] {
          return;
        }
        OneMore(past, acts, Retire, script[0]);
        past := past + [script[0]];
        acts := LetAct(s, acts);
      }
    }

    lemma PhaseIs()
      ensures Value().phase == phase
    {
    }

    // -------------------------------------------------------------------------
    // Moving the head
    // -------------------------------------------------------------------------

    /** One attempt: sets the epoch's head and looks whether the old head is free. */
    method TryMoveHead(newHead: nat) returns (done: bool)
      requires Inv(Value()) && phase == PreviousStored(newHead) && Advances(Value())
      modifies this`epochs, this`phase
      ensures Value() == Apply(old(Value()), TryAdvanceHead)
      ensures phase == if done then HeadChecked(newHead) else old(phase)
    {
      var n := next.epoch.value;
      epochs := epochs[n := epochs[n].(head := newHead)];
      done := buffer.oldHead.refcnt == 0;
      if done {
        phase := HeadChecked(newHead);
      }
    }

    method HeadAttempt(newHead: nat, ghost s: State, ghost acts: seq<Action>) returns (done: bool)
      requires Valid() && phase == PreviousStored(newHead) && Advances(Value()) && WellFormed(s.buffer)
               && Value() == Run(s, acts)
      modifies this`epochs, this`phase
      ensures Valid() && Value() == Run(s, acts + [TryAdvanceHead])
      ensures phase == (if done then HeadChecked(newHead) else old(phase)) && (!done ==> Advances(Value()))
    {
      hide Inv, Apply, Run;
      WellFormedBuffer(Value());
      StepKeepsInv(Value(), TryAdvanceHead);
      RunConcat(s, acts, [TryAdvanceHead]);
      RunOne(Value(), TryAdvanceHead);
      done := TryMoveHead(newHead);
    }

    /** Waits until no window is held on the old head. The wait ends if every such window is
        released before the script ends. */
    method AdvanceBufferHead(newHead: nat) returns (done: bool, ghost acts: seq<Action>)
      requires Valid() && phase == PreviousStored(newHead) && Advances(Value())
      modifies this, buffer, buffer.data
      ensures Valid() && WellFormed(old(Value()).buffer) && Value() == Run(old(Value()), acts)
      ensures Waiting(acts, TryAdvanceHead) && if done then phase == HeadChecked(newHead) else script == []
      ensures (forall j :: j in Watchers(old(Value())) ==> ReleaseView(j) in old(script)) ==> done
    {
      ghost var s := Value();
      hide Inv, Apply, Run, Watchers, Waiting, Done, DynamicExtension.Value, Advances;
      PhaseIs();
      WellFormedBuffer(s);
      RunNothing(s);
      acts := [];
      ghost var past: seq<Action> := [];
      NoneYet(TryAdvanceHead);
      while true
        invariant Valid() && phase == PreviousStored(newHead) && Value() == Run(s, acts)
                  && Waiting(acts, TryAdvanceHead)
        invariant Advances(Value()) && old(script) == past + script && Done(past, acts)
        decreases |script|
      {
        done := HeadAttempt(newHead, s, acts);
        ghost var before := acts;
        OneMore(past, acts, TryAdvanceHead, TryAdvanceHead);
        acts := acts + [TryAdvanceHead];
        PhaseIs();
        if done {
          return;
        }
        if script == [] {
          assert past == old(script);
          StillWatched(s, before, past);
          return;
        }
        OneMore(past, acts, TryAdvanceHead, script[0]);
        past := past + [script[0]];
        acts := LetAct(s, acts);
      }
    }

    // -------------------------------------------------------------------------
    // The whole second half
    // -------------------------------------------------------------------------

    method DemoteCurrent(ghost newHead: nat)
      requires WellFormed(buffer.Value()) && phase == Retired(newHead)
      modifies this`current, this`previous, this`phase
      ensures Value() == Apply(Apply(old(Value()), TakeCurrent), StorePrevious) && phase == PreviousStored(newHead)
    {
      hide Apply;
      DemoteSteps(Value());
      var cur := current;
      current := EMPTY;
      previous := cur;
      phase := PreviousStored(newHead);
    }

    method ShiftHeads(newHead: nat)
      requires Inv(Value()) && phase == HeadChecked(newHead)
      modifies this`phase, buffer`head, buffer`oldHead
      ensures Value() == Apply(Apply(old(Value()), SwapHead), StoreOldHead) && phase.HeadAdvanced?
    {
      OldHeadIsFree(Value());
      hide Apply, Inv;
      ShiftSteps(Value());
      var _ := buffer.AdvanceHead(newHead);
      phase := HeadAdvanced;
    }

    method InstallNext()
      requires WellFormed(buffer.Value()) && phase.HeadAdvanced?
      modifies this`current, this`next, this`scheduled, this`phase
      ensures Value() == Run(old(Value()), INSTALL) && phase.Idle?
    {
      hide Apply, Run;
      InstallStage(Value());
      current := next;
      next := EMPTY;
      scheduled := false;
      phase := Idle;
    }

    /** Retires the previous epoch, puts the current one in its place, moves the head and
        installs the next epoch, while other threads act. The result is a run of the protocol,
        so everything proved of runs holds of it. It is complete if the flush took something out
        of the buffer and some first part of the script ends the jobs on the previous epoch and
        the rest of it releases their windows and those on the old head. */
    method AdvanceEpoch(newHead: nat) returns (done: bool, ghost acts: seq<Action>)
      requires Valid() && phase == Advancing(newHead)
      modifies this, buffer, buffer.data
      ensures Valid() && WellFormed(old(Value()).buffer) && Value() == Run(old(Value()), acts)
      ensures done ==> phase.Idle?
      ensures !done ==> script == [] || (phase == PreviousStored(newHead) && !Advances(Value()))
      ensures done ==> old(buffer.head.idx) < newHead
      ensures old(buffer.head.idx) < newHead ==>
                forall n: nat :: EndsInTurn(old(Value()), old(script), n) ==> done
    {
      ghost var s := Value();
      hide Inv, Apply, Run, Advances, Blockers, Watchers, EndsBy, ReleasesFrom;
      WellFormedBuffer(s);
      done, acts := RetireEpoch(newHead);
      if !done {
        return;
      }
      WellFormedBuffer(Value());
      Follow(s, acts, [TakeCurrent, StorePrevious]);
      RunTwo(Value(), TakeCurrent, StorePrevious);
      WatchersStay(Value());
      DemoteCurrent(newHead);
      acts := acts + [TakeCurrent, StorePrevious];
      NewHeadReached(Value());
      if !(buffer.head.idx < newHead <= buffer.tail) {
        CannotAdvance(Value());
        return false, acts;
      }
      CanAdvance(Value());
      StillRelease(s, old(script), script, Watchers(Value()));
      ghost var wait: seq<Action>;
      done, wait := AdvanceBufferHead(newHead);
      RunConcat(s, acts, wait);
      acts := acts + wait;
      if !done {
        return;
      }
      WellFormedBuffer(Value());
      Follow(s, acts, [SwapHead, StoreOldHead]);
      RunTwo(Value(), SwapHead, StoreOldHead);
      ShiftHeads(newHead);
      acts := acts + [SwapHead, StoreOldHead];
      WellFormedBuffer(Value());
      Follow(s, acts, INSTALL);
      InstallNext();
      acts := acts + INSTALL;
    }
  }

  lemma DemoteSteps(s: State)
    requires WellFormed(s.buffer) && s.phase.Retired?
    ensures Apply(Apply(s, TakeCurrent), StorePrevious)
         == s.(previous := s.current, current := EMPTY, phase := PreviousStored(s.phase.newHead))
  {
    var t := Apply(s, TakeCurrent);
    assert t.phase == CurrentTaken(s.phase.newHead, s.current);
  }

  lemma WatchersStay(s: State)
    requires WellFormed(s.buffer) && s.phase.Retired?
    ensures Watchers(Apply(Apply(s, TakeCurrent), StorePrevious)) == Watchers(s)
  {
    hide Apply;
    DemoteSteps(s);
  }

  lemma OldHeadIsFree(s: State)
    requires Inv(s) && s.phase.HeadChecked?
    ensures WellFormed(s.buffer) && s.buffer.oldHead.refcnt == 0
  {
  }

  lemma Follow(s: State, acts: seq<Action>, more: seq<Action>)
    requires WellFormed(s.buffer) && Inv(Run(s, acts))
    ensures Run(s, acts + more) == Run(Run(s, acts), more) && Inv(Run(s, acts + more))
  {
    hide Inv, Apply;
    RunConcat(s, acts, more);
    RunKeepsInv(Run(s, acts), more);
  }

  lemma RunTwo(s: State, a: Action, b: Action)
    requires WellFormed(s.buffer)
    ensures Run(s, [a, b]) == Apply(Apply(s, a), b)
  {
    hide *;
    RunOne(s, a);
    RunConcat(s, [a], [b]);
    RunOne(Run(s, [a]), b);
    assert [a] + [b] == [a, b];
  }

  lemma CannotAdvance(s: State)
    requires s.phase.PreviousStored? && !(s.buffer.head.idx < s.phase.newHead <= s.buffer.tail)
    ensures !Advances(s)
  {
  }

  lemma NewHeadReached(s: State)
    requires Inv(s) && s.phase.PreviousStored?
    ensures s.phase.newHead <= s.buffer.tail
  {
  }

  lemma CanAdvance(s: State)
    requires s.phase.PreviousStored? && s.buffer.head.idx < s.phase.newHead <= s.buffer.tail
    ensures Advances(s)
  {
  }

  lemma RunNothing(s: State)
    requires WellFormed(s.buffer)
    ensures Run(s, []) == s
  {
  }

  /** What the script has handed out is part of the run. */
  ghost predicate Done(past: seq<Action>, acts: seq<Action>) {
    forall i :: 0 <= i < |past| ==> past[i] in acts
  }

  lemma NoneYet(own: Action)
    ensures Waiting([], own) && Done([], [])
  {
  }

  lemma OneMore(past: seq<Action>, acts: seq<Action>, own: Action, a: Action)
    requires Waiting(acts, own) && Done(past, acts)
    ensures JobAction(a) || a == own ==> Waiting(acts + [a], own)
    ensures Done(past, acts + [a]) && Done(past + [a], acts + [a])
  {
  }

  /** All these jobs end within the first n actions. */
  ghost predicate EndsBy(jobs: set<nat>, script: seq<Action>, n: nat) {
    n <= |script| && forall j :: j in jobs ==> EndJob(j) in script[..n]
  }

  /** All of them release their windows after that. */
  ghost predicate ReleasesFrom(jobs: set<nat>, script: seq<Action>, n: nat) {
    n <= |script| && forall j :: j in jobs ==> ReleaseView(j) in script[n..]
  }

  /** Both waits of a reconstruction in this state can end, the first within n actions. */
  ghost predicate EndsInTurn(s: State, script: seq<Action>, n: nat) {
    EndsBy(Blockers(s), script, n) && ReleasesFrom(Watchers(s) + Blockers(s), script, n)
  }

  /** What the first wait has left of the script still releases these windows. */
  lemma StillRelease(s: State, script: seq<Action>, rest: seq<Action>, watchers: set<nat>)
    requires |rest| <= |script| && rest == script[|script| - |rest|..] && watchers <= Watchers(s) + Blockers(s)
    requires forall n: nat :: EndsBy(Blockers(s), script, n) ==> |script| <= |rest| + n
    ensures forall n: nat :: EndsInTurn(s, script, n) ==> forall j :: j in watchers ==> ReleaseView(j) in rest
  {
    hide Blockers, Watchers;
    forall n: nat, j | EndsInTurn(s, script, n) && j in watchers ensures ReleaseView(j) in rest {
      assert script[n..] == rest[n - (|script| - |rest|)..];
    }
  }

  /** An attempt that fails leaves some first holder whom the script has not ended so far. */
  lemma StillBlocked(s: State, acts: seq<Action>, past: seq<Action>, rest: seq<Action>)
    requires Inv(s) && s.phase.Advancing? && Waiting(acts, Retire) && Done(past, acts)
    requires WellFormed(s.buffer) && Run(s, acts + [Retire]).phase.Advancing?
    ensures !EndsBy(Blockers(s), past + rest, |past|)
    ensures forall n: nat :: EndsBy(Blockers(s), past + rest, n) ==> n <= |past| + |rest|
  {
    hide Inv, Run;
    if EndsBy(Blockers(s), past + rest, |past|) {
      assert (past + rest)[..|past|] == past;
      RetireWaitEnds(s, acts);
    }
  }

  lemma StillWatched(s: State, acts: seq<Action>, past: seq<Action>)
    requires Inv(s) && s.phase.PreviousStored? && Advances(s) && Waiting(acts, TryAdvanceHead) && Done(past, acts)
    requires WellFormed(s.buffer) && Run(s, acts + [TryAdvanceHead]).phase.PreviousStored?
    ensures !(forall j :: j in Watchers(s) ==> ReleaseView(j) in past)
  {
    hide Inv, Run;
    if forall j :: j in Watchers(s) ==> ReleaseView(j) in past {
      HeadWaitEnds(s, acts);
    }
  }
}
