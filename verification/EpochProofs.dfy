/** Every action of the epoch protocol keeps the invariant, one lemma per action. */
module EpochProofs {
  import opened Records
  import opened MutableBuffers
  import opened EpochProtocol

  function One(b: bool): nat {
    if b then 1 else 0
  }

  lemma HoldersUpdate(jobs: map<nat, Job>, j: nat, job: Job, e: nat)
    ensures |Holders(jobs[j := job], e)|
         == |Holders(jobs, e)| - One(j in jobs && HoldsEpoch(jobs[j], e)) + One(HoldsEpoch(job, e))
  {
    var rest := Holders(jobs, e) - {j};
    hide HoldsEpoch;
    assert Holders(jobs[j := job], e) == if HoldsEpoch(job, e) then rest + {j} else rest;
  }

  lemma ViewersUpdate(jobs: map<nat, Job>, j: nat, job: Job, h: nat)
    ensures |Viewers(jobs[j := job], h)|
         == |Viewers(jobs, h)| - One(j in jobs && ViewsFrom(jobs[j], h)) + One(ViewsFrom(job, h))
  {
    var rest := Viewers(jobs, h) - {j};
    hide ViewsFrom;
    assert Viewers(jobs[j := job], h) == if ViewsFrom(job, h) then rest + {j} else rest;
  }

  /** Changing one job keeps the pin counts if the slots change by the same amount. */
  lemma PinsAfterJob(s: State, s': State, j: nat, job: Job)
    requires InvPins(s) && s'.jobs == s.jobs[j := job] && s'.phase == s.phase
    requires forall e :: SlotRefs(s', e)
               == SlotRefs(s, e) - One(j in s.jobs && HoldsEpoch(s.jobs[j], e)) + One(HoldsEpoch(job, e))
    ensures InvPins(s')
  {
    forall e
      ensures Pins(s', e) == SlotRefs(s', e)
    {
      assert Pins(s, e) == SlotRefs(s, e);
      HoldersUpdate(s.jobs, j, job, e);
    }
  }

  lemma ViewsAfterJob(s: State, s': State, j: nat, job: Job)
    requires InvCounts(s) && s'.jobs == s.jobs[j := job] && s'.phase == s.phase
    requires forall h :: HeadRefs(s', h)
               == HeadRefs(s, h) - One(j in s.jobs && ViewsFrom(s.jobs[j], h)) + One(ViewsFrom(job, h))
    ensures InvCounts(s')
  {
    forall h
      ensures Views(s', h) == HeadRefs(s', h)
    {
      assert Views(s, h) == HeadRefs(s, h);
      ViewersUpdate(s.jobs, j, job, h);
    }
  }

  /** A held epoch sits in a slot that counts it. */
  lemma HeldIsCounted(s: State, j: nat)
    requires InvPins(s)
    requires j in s.jobs && s.jobs[j].epoch.Some?
    ensures SlotRefs(s, s.jobs[j].epoch.value) > 0
  {
    var e := s.jobs[j].epoch.value;
    assert j in Holders(s.jobs, e);
    assert Pins(s, e) == SlotRefs(s, e);
  }

  lemma ViewIsCounted(s: State, j: nat)
    requires InvCounts(s)
    requires j in s.jobs && s.jobs[j].view.Some?
    ensures HeadRefs(s, s.jobs[j].view.value.head) > 0
  {
    var h := s.jobs[j].view.value.head;
    assert j in Viewers(s.jobs, h);
    assert Views(s, h) == HeadRefs(s, h);
  }

  lemma AppendKeepsRing(ring: seq<Wrapped>, tail: nat, log: seq<Wrapped>, w: Wrapped)
    requires RingHolds(ring, tail, log)
    ensures RingHolds(ring[tail % |ring| := w], tail + 1, log + [w])
  {
    var cap := |ring|;
    forall i | 0 <= i < tail && tail + 1 <= i + cap
      ensures ring[tail % cap := w][i % cap] == (log + [w])[i]
    {
      SlotsDiffer(i, tail, cap);
    }
  }

  /** Longer history, same epochs: the cuts still account for the same prefixes. */
  lemma AppendKeepsNet(s: State, s': State)
    requires InvNet(s) && s'.epochs == s.epochs && s.log <= s'.log
    requires forall e :: e in s.epochs ==> Cut(s', e) == Cut(s, e)
    ensures InvNet(s')
  {
    forall e | e in s'.epochs
      ensures Accounted(s', e)
    {
      assert Accounted(s, e);
      assert s'.log[..Cut(s', e)] == s.log[..Cut(s, e)];
    }
  }

  /** An action that leaves the jobs alone keeps the counts if it keeps their difference. */
  lemma CountsUnchanged(s: State, s': State)
    requires InvPins(s) && InvCounts(s) && s'.jobs == s.jobs
    requires forall e :: Pins(s', e) - Pins(s, e) == SlotRefs(s', e) - SlotRefs(s, e)
    requires forall h :: Views(s', h) - Views(s, h) == HeadRefs(s', h) - HeadRefs(s, h)
    ensures Counted(s')
  {
    forall e ensures Pins(s', e) == SlotRefs(s', e) { assert Pins(s, e) == SlotRefs(s, e); }
    forall h ensures Views(s', h) == HeadRefs(s', h) { assert Views(s, h) == HeadRefs(s, h); }
  }

  /** The buffer head of a held epoch is the head or the older head, and never the
      placeholder that the old head starts as. */
  lemma HeldHead(s: State, e: nat)
    requires Inv(s) && SlotRefs(s, e) > 0
    ensures e in s.epochs
    ensures s.epochs[e].head == s.buffer.head.idx || (s.epochs[e].head == Older(s).idx && !Untouched(s))
    ensures s.epochs[e].head == s.buffer.head.idx ==> s.epochs[e].head != s.buffer.oldHead.idx
  {
  }

  /** A pinned epoch is never the next one before it becomes current. */
  lemma HeldIsNotNext(s: State, j: nat)
    requires Inv(s) && !s.phase.CurrentStored?
    requires j in s.jobs && s.jobs[j].epoch.Some?
    ensures s.jobs[j].epoch != s.next.epoch && s.jobs[j].epoch.value in s.epochs
  {
    HeldIsCounted(s, j);
  }

  lemma AppendShape(s: State, a: Action)
    requires Inv(s) && a.DoAppend?
    ensures Shape(Apply(s, a))
  {
    var s' := Apply(s, a);
    if s' != s {
      AppendKeepsRing(s.buffer.ring, s.buffer.tail, s.log, s'.log[s.buffer.tail]);
    }
  }

  lemma AppendCounts(s: State, a: Action)
    requires Inv(s) && a.DoAppend?
    ensures Counted(Apply(s, a))
  {
    var s' := Apply(s, a);
    if s' != s {
      CountsUnchanged(s, s');
    }
  }

  lemma GetActiveEpochShape(s: State, a: Action)
    requires Inv(s) && a.GetActiveEpoch?
    ensures Shape(Apply(s, a))
  {
    hide InvPins, InvCounts, InvNet, RingHolds;
    var s' := Apply(s, a);
  }

  lemma GetActiveEpochCounts(s: State, a: Action)
    requires Inv(s) && a.GetActiveEpoch?
    ensures Counted(Apply(s, a))
  {
    var s' := Apply(s, a);
    if s' != s {
      var job := Job(Some(Pin(s).value.0), None);
      PinsAfterJob(s, s', a.job, job);
      ViewsAfterJob(s, s', a.job, job);
    }
  }

  lemma EndJobShape(s: State, a: Action)
    requires Inv(s) && a.EndJob?
    ensures Shape(Apply(s, a))
  {
    hide InvPins, InvCounts, InvNet, RingHolds;
    var s' := Apply(s, a);
  }

  lemma EndJobCounts(s: State, a: Action)
    requires Inv(s) && a.EndJob?
    ensures Counted(Apply(s, a))
  {
    hide InvNet, InvViews, RingHolds, InvHeads, InvProgress, InvPins, InvCounts;
    var s' := Apply(s, a);
    if s' != s {
      HeldIsCounted(s, a.job);
      var job := s.jobs[a.job].(epoch := None);
      PinsAfterJob(s, s', a.job, job);
      ViewsAfterJob(s, s', a.job, job);
    }
  }

  lemma GetBufferShape(s: State, a: Action)
    requires Inv(s) && a.GetBuffer?
    ensures Shape(Apply(s, a))
  {
    hide InvNet, RingHolds;
    var s' := Apply(s, a);
    if s' != s {
      HeldIsCounted(s, a.job);
      var e := s.jobs[a.job].epoch.value;
      HeldHead(s, e);
    }
  }

  lemma GetBufferCounts(s: State, a: Action)
    requires Inv(s) && a.GetBuffer?
    ensures Counted(Apply(s, a))
  {
    var s' := Apply(s, a);
    if s' != s {
      HeldIsCounted(s, a.job);
      var e := s.jobs[a.job].epoch.value;
      HeldHead(s, e);
      var job := s.jobs[a.job].(view := Some(View(s.epochs[e].head, s.buffer.tail)));
      PinsAfterJob(s, s', a.job, job);
      ViewsAfterJob(s, s', a.job, job);
    }
  }

  lemma ReleaseViewShape(s: State, a: Action)
    requires Inv(s) && a.ReleaseView?
    ensures Shape(Apply(s, a))
  {
    hide InvPins, InvNet, RingHolds;
    var s' := Apply(s, a);
    if s' != s {
      ViewIsCounted(s, a.job);
    }
  }

  lemma ReleaseViewCounts(s: State, a: Action)
    requires Inv(s) && a.ReleaseView?
    ensures Counted(Apply(s, a))
  {
    var s' := Apply(s, a);
    if s' != s {
      ViewIsCounted(s, a.job);
      var job := s.jobs[a.job].(view := None);
      PinsAfterJob(s, s', a.job, job);
      ViewsAfterJob(s, s', a.job, job);
    }
  }

  lemma FlagShape(s: State, a: Action)
    requires Inv(s) && (a.CheckWatermark? || a.SetFlag?)
    ensures Shape(Apply(s, a))
  {
    hide InvPins, InvCounts, InvNet, RingHolds;
    var s' := Apply(s, a);
  }

  lemma FlagCounts(s: State, a: Action)
    requires Inv(s) && (a.CheckWatermark? || a.SetFlag?)
    ensures Counted(Apply(s, a))
  {
    hide InvNet, InvViews, RingHolds, InvHeads;
    var s' := Apply(s, a);
    if s' != s {
      CountsUnchanged(s, s');
    }
  }

  lemma ClonePinShape(s: State, a: Action)
    requires Inv(s) && (a.PinForClone? || a.EndClonePin?)
    ensures Shape(Apply(s, a))
  {
    hide InvPins, InvCounts, InvNet, RingHolds;
    var s' := Apply(s, a);
  }

  lemma ClonePinCounts(s: State, a: Action)
    requires Inv(s) && (a.PinForClone? || a.EndClonePin?)
    ensures Counted(Apply(s, a))
  {
    hide InvNet, InvViews, RingHolds;
    var s' := Apply(s, a);
    if s' != s {
      CountsUnchanged(s, s');
    }
  }

  lemma CloneShape(s: State, a: Action)
    requires Inv(s) && a.CloneEpoch?
    ensures Shape(Apply(s, a))
  {
    var s' := Apply(s, a);
    if s' != s {
      forall j | j in s'.jobs && s'.jobs[j].view.Some? && s'.jobs[j].epoch.Some? && s'.jobs[j].epoch.value in s'.epochs
        ensures s'.jobs[j].view.value.head == s'.epochs[s'.jobs[j].epoch.value].head
      {
        HeldIsCounted(s, j);
      }
    }
  }

  lemma CloneCounts(s: State, a: Action)
    requires Inv(s) && a.CloneEpoch?
    ensures Counted(Apply(s, a))
  {
    var s' := Apply(s, a);
    if s' != s {
      CountsUnchanged(s, s');
    }
  }

  lemma MergeShape(s: State, a: Action)
    requires Inv(s) && (a.Merge? || a.Flush?)
    ensures Shape(Apply(s, a))
  {
    var s' := Apply(s, a);
  }

  lemma MergeCounts(s: State, a: Action)
    requires Inv(s) && (a.Merge? || a.Flush?)
    ensures Counted(Apply(s, a))
  {
    var s' := Apply(s, a);
    if s' != s {
      CountsUnchanged(s, s');
    }
  }

  lemma TakeViewShape(s: State, a: Action)
    requires Inv(s) && (a.TakeView? || a.ReleaseFlushView?)
    ensures Shape(Apply(s, a))
  {
    hide InvPins, InvNet, RingHolds;
    var s' := Apply(s, a);
  }

  lemma TakeViewCounts(s: State, a: Action)
    requires Inv(s) && (a.TakeView? || a.ReleaseFlushView?)
    ensures Counted(Apply(s, a))
  {
    var s' := Apply(s, a);
    if s' != s {
      CountsUnchanged(s, s');
    }
  }

  lemma RetireShape(s: State, a: Action)
    requires Inv(s) && a.Retire?
    ensures Shape(Apply(s, a))
  {
    var s' := Apply(s, a);
  }

  lemma RetireCounts(s: State, a: Action)
    requires Inv(s) && a.Retire?
    ensures Counted(Apply(s, a))
  {
    var s' := Apply(s, a);
    if s' != s {
      CountsUnchanged(s, s');
    }
  }

  lemma MoveSlotsShape(s: State, a: Action)
    requires Inv(s) && (a.TakeCurrent? || a.StorePrevious?)
    ensures Shape(Apply(s, a))
  {
    var s' := Apply(s, a);
  }

  lemma MoveSlotsCounts(s: State, a: Action)
    requires Inv(s) && (a.TakeCurrent? || a.StorePrevious?)
    ensures Counted(Apply(s, a))
  {
    var s' := Apply(s, a);
    if s' != s {
      CountsUnchanged(s, s');
    }
  }

  lemma TryAdvanceHeadShape(s: State, a: Action)
    requires Inv(s) && a.TryAdvanceHead?
    ensures Shape(Apply(s, a))
  {
    hide InvNet, RingHolds, InvPins, InvCounts;
    var s' := Apply(s, a);
    if s' != s {
      forall j | j in s'.jobs && s'.jobs[j].view.Some? && s'.jobs[j].epoch.Some? && s'.jobs[j].epoch.value in s'.epochs
        ensures s'.jobs[j].view.value.head == s'.epochs[s'.jobs[j].epoch.value].head
      {
        HeldIsNotNext(s, j);
      }
    }
  }

  lemma TryAdvanceHeadCounts(s: State, a: Action)
    requires Inv(s) && a.TryAdvanceHead?
    ensures Counted(Apply(s, a))
  {
    var s' := Apply(s, a);
    if s' != s {
      CountsUnchanged(s, s');
    }
  }

  lemma SwapHeadShape(s: State, a: Action)
    requires Inv(s) && a.SwapHead?
    ensures Shape(Apply(s, a))
  {
    var s' := Apply(s, a);
  }

  lemma SwapHeadCounts(s: State, a: Action)
    requires Inv(s) && a.SwapHead?
    ensures Counted(Apply(s, a))
  {
    var s' := Apply(s, a);
    if s' != s {
      CountsUnchanged(s, s');
    }
  }

  lemma StoreOldHeadShape(s: State, a: Action)
    requires Inv(s) && a.StoreOldHead?
    ensures Shape(Apply(s, a))
  {
    var s' := Apply(s, a);
  }

  lemma StoreOldHeadCounts(s: State, a: Action)
    requires Inv(s) && a.StoreOldHead?
    ensures Counted(Apply(s, a))
  {
    var s' := Apply(s, a);
    if s' != s {
      CountsUnchanged(s, s');
    }
  }

  lemma InstallCurrentShape(s: State, a: Action)
    requires Inv(s) && a.InstallCurrent?
    ensures Shape(Apply(s, a))
  {
    var s' := Apply(s, a);
  }

  lemma InstallCurrentCounts(s: State, a: Action)
    requires Inv(s) && a.InstallCurrent?
    ensures Counted(Apply(s, a))
  {
    var s' := Apply(s, a);
    if s' != s {
      CountsUnchanged(s, s');
    }
  }

  lemma FinishShape(s: State, a: Action)
    requires Inv(s) && (a.ClearNext? || a.ClearFlag?)
    ensures Shape(Apply(s, a))
  {
    hide InvPins, InvCounts, InvNet, RingHolds;
    var s' := Apply(s, a);
  }

  lemma FinishCounts(s: State, a: Action)
    requires Inv(s) && (a.ClearNext? || a.ClearFlag?)
    ensures Counted(Apply(s, a))
  {
    hide InvViews, RingHolds, InvNet, InvHeads;
    var s' := Apply(s, a);
    if s' != s {
      CountsUnchanged(s, s');
    }
  }

  lemma JobKeepsNet(s: State, a: Action)
    requires Inv(s) && (a.DoAppend? || a.GetActiveEpoch? || a.GetBuffer? || a.ReleaseView? || a.EndJob?)
    ensures InvNet(Apply(s, a))
  {
    hide InvPins, InvCounts, InvViews, RingHolds, InvHeads, InvProgress, InvSlots, InvNet;
    AppendKeepsNet(s, Apply(s, a));
  }

  lemma BuildKeepsNet(s: State, a: Action)
    requires Inv(s)
    requires a.CheckWatermark? || a.SetFlag? || a.PinForClone? || a.EndClonePin? || a.TakeView? || a.ReleaseFlushView?
    ensures InvNet(Apply(s, a))
  {
    hide InvPins, InvCounts, InvViews, RingHolds, InvNet, InvHeads;
    AppendKeepsNet(s, Apply(s, a));
  }

  lemma MoveSlotsKeepsNet(s: State, a: Action)
    requires Inv(s) && (a.TakeCurrent? || a.StorePrevious?)
    ensures InvNet(Apply(s, a))
  {
    hide InvPins, InvCounts, InvViews, RingHolds;
    AppendKeepsNet(s, Apply(s, a));
  }

  lemma MoveHeadsKeepsNet(s: State, a: Action)
    requires Inv(s) && (a.SwapHead? || a.StoreOldHead?)
    ensures InvNet(Apply(s, a))
  {
    hide InvPins, InvCounts, InvViews, RingHolds;
    AppendKeepsNet(s, Apply(s, a));
  }

  lemma InstallKeepsNet(s: State, a: Action)
    requires Inv(s) && (a.InstallCurrent? || a.ClearNext? || a.ClearFlag?)
    ensures InvNet(Apply(s, a))
  {
    hide InvPins, InvCounts, InvViews, RingHolds, InvNet;
    AppendKeepsNet(s, Apply(s, a));
  }

  lemma CloneKeepsNet(s: State, a: Action)
    requires Inv(s) && a.CloneEpoch?
    ensures InvNet(Apply(s, a))
  {
    var s' := Apply(s, a);
    if s' != s {
      forall e | e in s'.epochs
        ensures Accounted(s', e)
      {
        assert Accounted(s, if e == s'.epochCnt then s.phase.source else e);
      }
    }
  }

  lemma MergeKeepsNet(s: State, a: Action)
    requires Inv(s) && a.Merge?
    ensures InvNet(Apply(s, a))
  {
    hide InvPins, InvCounts, InvViews, RingHolds, InvHeads, InvProgress;
    var s' := Apply(s, a);
    if s' != s {
      forall e | e in s'.epochs ensures Accounted(s', e) { assert Accounted(s, e); }
    }
  }

  lemma RetireKeepsNet(s: State, a: Action)
    requires Inv(s) && (a.Retire? || a.TryAdvanceHead?)
    ensures InvNet(Apply(s, a))
  {
    hide InvPins, InvCounts, InvViews, RingHolds, InvHeads, InvProgress, SameNet;
    var s' := Apply(s, a);
    if s' != s {
      forall e | e in s'.epochs ensures Accounted(s', e) { assert Accounted(s, e); }
    }
  }

  /** The batch read through the window is the stretch of history that the flushed
      structure did not account for yet. */
  lemma FlushKeepsNet(s: State, a: Action)
    requires Inv(s) && a.Flush?
    ensures InvNet(Apply(s, a))
  {
    hide InvPins, InvCounts, InvViews, AddsNet, SameNet;
    var s' := Apply(s, a);
    if s' != s {
      var n, v := s.next.epoch.value, s.phase.view;
      ViewReadsHistory(s.buffer.ring, s.log, v);
      forall e | e in s'.epochs
        ensures Accounted(s', e)
      {
        assert Accounted(s, e);
        if e == n {
          PrefixAndBatch(s.epochs[n].contents, a.flushed, s.log, v.head, v.tail);
        }
      }
    }
  }

  lemma PrefixAndBatch(before: seq<Wrapped>, after: seq<Wrapped>, log: seq<Wrapped>, head: nat, tail: nat)
    requires head <= tail <= |log| && SameNet(before, log[..head]) && AddsNet(before, log[head..tail], after)
    ensures SameNet(after, log[..tail])
  {
    assert log[..tail] == log[..head] + log[head..tail];
    forall r ensures Net(after, r) == Net(log[..tail], r) {
      NetConcat(log[..head], log[head..tail], r);
    }
  }

  lemma StepKeepsShape(s: State, a: Action)
    requires Inv(s)
    ensures Shape(Apply(s, a))
  {
    hide *;
    match a
    case DoAppend(_, _) => AppendShape(s, a);
    case GetActiveEpoch(_) => GetActiveEpochShape(s, a);
    case GetBuffer(_) => GetBufferShape(s, a);
    case ReleaseView(_) => ReleaseViewShape(s, a);
    case EndJob(_) => EndJobShape(s, a);
    case CheckWatermark(_) => FlagShape(s, a);
    case SetFlag(_) => FlagShape(s, a);
    case PinForClone => ClonePinShape(s, a);
    case CloneEpoch => CloneShape(s, a);
    case EndClonePin => ClonePinShape(s, a);
    case Merge(_) => MergeShape(s, a);
    case TakeView => TakeViewShape(s, a);
    case Flush(_) => MergeShape(s, a);
    case ReleaseFlushView => TakeViewShape(s, a);
    case Retire => RetireShape(s, a);
    case TakeCurrent => MoveSlotsShape(s, a);
    case StorePrevious => MoveSlotsShape(s, a);
    case TryAdvanceHead => TryAdvanceHeadShape(s, a);
    case SwapHead => SwapHeadShape(s, a);
    case StoreOldHead => StoreOldHeadShape(s, a);
    case InstallCurrent => InstallCurrentShape(s, a);
    case ClearNext => FinishShape(s, a);
    case ClearFlag => FinishShape(s, a);
  }

  lemma StepKeepsCounts(s: State, a: Action)
    requires Inv(s)
    ensures Counted(Apply(s, a))
  {
    hide *;
    match a
    case DoAppend(_, _) => AppendCounts(s, a);
    case GetActiveEpoch(_) => GetActiveEpochCounts(s, a);
    case GetBuffer(_) => GetBufferCounts(s, a);
    case ReleaseView(_) => ReleaseViewCounts(s, a);
    case EndJob(_) => EndJobCounts(s, a);
    case CheckWatermark(_) => FlagCounts(s, a);
    case SetFlag(_) => FlagCounts(s, a);
    case PinForClone => ClonePinCounts(s, a);
    case CloneEpoch => CloneCounts(s, a);
    case EndClonePin => ClonePinCounts(s, a);
    case Merge(_) => MergeCounts(s, a);
    case TakeView => TakeViewCounts(s, a);
    case Flush(_) => MergeCounts(s, a);
    case ReleaseFlushView => TakeViewCounts(s, a);
    case Retire => RetireCounts(s, a);
    case TakeCurrent => MoveSlotsCounts(s, a);
    case StorePrevious => MoveSlotsCounts(s, a);
    case TryAdvanceHead => TryAdvanceHeadCounts(s, a);
    case SwapHead => SwapHeadCounts(s, a);
    case StoreOldHead => StoreOldHeadCounts(s, a);
    case InstallCurrent => InstallCurrentCounts(s, a);
    case ClearNext => FinishCounts(s, a);
    case ClearFlag => FinishCounts(s, a);
  }

  lemma StepKeepsNet(s: State, a: Action)
    requires Inv(s)
    ensures InvNet(Apply(s, a))
  {
    hide *;
    if a.CloneEpoch? {
      CloneKeepsNet(s, a);
    } else if a.Flush? {
      FlushKeepsNet(s, a);
    } else if a.Merge? {
      MergeKeepsNet(s, a);
    } else if a.Retire? || a.TryAdvanceHead? {
      RetireKeepsNet(s, a);
    } else if a.DoAppend? || a.GetActiveEpoch? || a.GetBuffer? || a.ReleaseView? || a.EndJob? {
      JobKeepsNet(s, a);
    } else if a.CheckWatermark? || a.SetFlag? || a.PinForClone? || a.EndClonePin? || a.TakeView?
              || a.ReleaseFlushView? {
      BuildKeepsNet(s, a);
    } else if a.InstallCurrent? || a.ClearNext? || a.ClearFlag? {
      InstallKeepsNet(s, a);
    } else if a.SwapHead? || a.StoreOldHead? {
      MoveHeadsKeepsNet(s, a);
    } else {
      MoveSlotsKeepsNet(s, a);
    }
  }

  lemma StepKeepsInv(s: State, a: Action)
    requires Inv(s)
    ensures Inv(Apply(s, a))
  {
    StepKeepsShape(s, a);
    StepKeepsCounts(s, a);
    StepKeepsNet(s, a);
  }

  lemma InitHolds(lwm: nat, hwm: nat, blank: Wrapped)
    requires lwm <= hwm && 1 <= hwm
    ensures Inv(Init(lwm, hwm, blank))
  {
    var s := Init(lwm, hwm, blank);
    forall e ensures Pins(s, e) == SlotRefs(s, e) {
      assert Holders(s.jobs, e) == {};
    }
    forall h ensures Views(s, h) == HeadRefs(s, h) {
      assert Viewers(s.jobs, h) == {};
    }
  }
}
