/** What the epoch protocol guarantees in every state of every run. */
module EpochRuns {
  import opened Records
  import opened MutableBuffers
  import opened EpochProtocol
  import opened EpochProofs

  /** The state after a run: any actions, of any jobs, in any order. */
  ghost function Run(s: State, actions: seq<Action>): (s': State)
    requires WellFormed(s.buffer)
    ensures WellFormed(s'.buffer)
  {
    if actions == [] then s else Apply(Run(s, actions[..|actions| - 1]), actions[|actions| - 1])
  }

  lemma {:induction false} RunKeepsInv(s: State, actions: seq<Action>)
    requires Inv(s)
    ensures Inv(Run(s, actions))
  {
    if actions != [] {
      RunKeepsInv(s, actions[..|actions| - 1]);
      StepKeepsInv(Run(s, actions[..|actions| - 1]), actions[|actions| - 1]);
    }
  }

  lemma WellFormedBuffer(s: State)
    requires Inv(s)
    ensures WellFormed(s.buffer) && (s.scheduled <==> !s.phase.Idle?)
  {
  }

  lemma RunOne(s: State, a: Action)
    requires WellFormed(s.buffer)
    ensures Run(s, [a]) == Apply(s, a)
  {
    hide Apply;
    assert [a][..0] == [] && Run(s, []) == s;
  }

  lemma {:induction false} RunConcat(s: State, a: seq<Action>, b: seq<Action>)
    requires WellFormed(s.buffer)
    ensures Run(s, a + b) == Run(Run(s, a), b)
    decreases |b|
  {
    hide Apply;
    if b == [] {
      assert a + b == a;
    } else {
      var n := |b| - 1;
      RunConcat(s, a, b[..n]);
      assert (a + b)[..|a| + n] == a + b[..n];
    }
  }

  lemma RunThree(s: State, a: Action, b: Action, c: Action)
    requires WellFormed(s.buffer)
    ensures Run(s, [a, b, c]) == Apply(Apply(Apply(s, a), b), c)
  {
    hide *;
    RunOne(s, a);
    RunConcat(s, [a], [b]);
    RunOne(Run(s, [a]), b);
    RunConcat(s, [a, b], [c]);
    RunOne(Run(s, [a, b]), c);
    assert [a] + [b] == [a, b] && [a, b] + [c] == [a, b, c];
  }

  /** A run that goes on from a reachable state reaches one. */
  lemma ReachableGoesOn(s: State, actions: seq<Action>)
    requires Reachable(s)
    ensures WellFormed(s.buffer) && Reachable(Run(s, actions))
  {
    hide Apply, Run;
    var lwm: nat, hwm: nat, blank, before :| lwm <= hwm && 1 <= hwm && s == Run(Init(lwm, hwm, blank), before);
    RunConcat(Init(lwm, hwm, blank), before, actions);
    assert Run(s, actions) == Run(Init(lwm, hwm, blank), before + actions);
  }

  ghost predicate Reachable(s: State) {
    exists lwm: nat, hwm: nat, blank, actions ::
      lwm <= hwm && 1 <= hwm && s == Run(Init(lwm, hwm, blank), actions)
  }

  lemma ReachableHolds(s: State)
    requires Reachable(s)
    ensures Inv(s)
  {
    var lwm: nat, hwm: nat, blank, actions :| lwm <= hwm && 1 <= hwm && s == Run(Init(lwm, hwm, blank), actions);
    InitHolds(lwm, hwm, blank);
    RunKeepsInv(Init(lwm, hwm, blank), actions);
  }

  /** The epochs a job holds, or would get if it pinned one now or in the middle of a
      transition. */
  ghost predicate Pinnable(s: State, e: nat) {
    s.current.epoch == Some(e) || s.previous.epoch == Some(e)
    || exists j :: j in s.jobs && s.jobs[j].epoch == Some(e)
  }

  lemma PinnableIsPlaced(s: State, e: nat)
    requires Inv(s) && Pinnable(s, e)
    ensures s.current.epoch == Some(e) || s.previous.epoch == Some(e) || InHand(s).epoch == Some(e)
    ensures e in s.epochs
  {
    if j :| j in s.jobs && s.jobs[j].epoch == Some(e) {
      HeldIsCounted(s, j);
    }
  }

  /** Both heads leave the ring room: no window is longer than one lap. */
  lemma HeadsAreClose(s: State)
    requires Reachable(s)
    ensures s.buffer.head.idx <= s.buffer.tail <= s.buffer.head.idx + s.buffer.hwm
    ensures Untouched(s) || (Older(s).idx <= s.buffer.tail <= Older(s).idx + |s.buffer.ring|)
  {
    ReachableHolds(s);
  }

  lemma SplitAt(log: seq<Wrapped>, cut: nat, end: nat, r: Record)
    requires cut <= end <= |log|
    ensures Net(log[..end], r) == Net(log[..cut], r) + Net(log[cut..end], r)
  {
    assert log[..end] == log[..cut] + log[cut..end];
    NetConcat(log[..cut], log[cut..end], r);
  }

  lemma PlacedWindow(s: State, e: nat, end: nat)
    requires Inv(s) && e in s.epochs
    requires s.current.epoch == Some(e) || s.previous.epoch == Some(e) || InHand(s).epoch == Some(e)
    requires s.epochs[e].head <= end <= s.buffer.tail
    ensures s.buffer.tail <= s.epochs[e].head + |s.buffer.ring|
    ensures ViewRecords(s.buffer.ring, View(s.epochs[e].head, end)) == s.log[s.epochs[e].head..end]
    ensures SameNet(s.epochs[e].contents, s.log[..s.epochs[e].head])
  {
    hide InvPins, InvCounts, InvViews;
    assert Accounted(s, e);
    assert Cut(s, e) == s.epochs[e].head;
    ViewReadsHistory(s.buffer.ring, s.log, View(s.epochs[e].head, end));
  }

  /** Whatever epoch a job can hold, its structure and the buffer from its head on
      together count every accepted operation exactly once. */
  lemma NothingHiddenOrDoubled(s: State, e: nat, r: Record)
    requires Reachable(s) && Pinnable(s, e)
    ensures e in s.epochs && s.epochs[e].head <= s.buffer.tail <= s.epochs[e].head + |s.buffer.ring|
    ensures Net(s.epochs[e].contents, r)
            + Net(ViewRecords(s.buffer.ring, View(s.epochs[e].head, s.buffer.tail)), r)
         == Net(s.log, r)
  {
    ReachableHolds(s);
    PinnableIsPlaced(s, e);
    var head, tail := s.epochs[e].head, s.buffer.tail;
    assert head <= tail;
    PlacedWindow(s, e, tail);
    SplitAt(s.log, head, tail, r);
    assert s.log[..tail] == s.log;
  }

  /** A job that holds an epoch and a window sees the operations accepted up to the moment
      it took the window: all of those, and none of the later ones. */
  lemma JobSeesAPrefix(s: State, j: nat, r: Record)
    requires Reachable(s) && j in s.jobs && s.jobs[j].epoch.Some? && s.jobs[j].view.Some?
    ensures var e, v := s.jobs[j].epoch.value, s.jobs[j].view.value;
            && e in s.epochs && v.head <= v.tail <= |s.log|
            && Net(s.epochs[e].contents, r) + Net(ViewRecords(s.buffer.ring, v), r) == Net(s.log[..v.tail], r)
  {
    ReachableHolds(s);
    var e, v := s.jobs[j].epoch.value, s.jobs[j].view.value;
    PinnableIsPlaced(s, e);
    PlacedWindow(s, e, v.tail);
    SplitAt(s.log, v.head, v.tail, r);
  }

  /** A window held on either head lies within the last lap of the ring. */
  lemma WindowReads(s: State, v: View)
    requires Shape(s) && v.head <= v.tail <= s.buffer.tail
    requires v.head == s.buffer.head.idx || (v.head == Older(s).idx && !Untouched(s))
    ensures ViewRecords(s.buffer.ring, v) == s.log[v.head..v.tail]
  {
    ViewReadsHistory(s.buffer.ring, s.log, v);
  }

  /** Only an append writes the ring, and then into a slot that no held window covers. */
  lemma AppendSparesWindow(s: State, a: Action, v: View)
    requires Shape(s) && a.DoAppend? && v.head <= v.tail <= s.buffer.tail
    requires v.head == s.buffer.head.idx || (v.head == Older(s).idx && !Untouched(s))
    ensures ViewRecords(Apply(s, a).buffer.ring, v) == ViewRecords(s.buffer.ring, v)
  {
    var ring, tail := s.buffer.ring, s.buffer.tail;
    var ring' := Apply(s, a).buffer.ring;
    if ring' != ring {
      forall i | v.head <= i < v.tail
        ensures ring'[i % |ring|] == s.log[i]
      {
        SlotsDiffer(i, tail, |ring|);
      }
      ViewReadsHistory(ring', s.log, v);
      WindowReads(s, v);
    }
  }

  lemma OthersSpareRing(s: State, a: Action)
    requires WellFormed(s.buffer) && !a.DoAppend?
    ensures Apply(s, a).buffer.ring == s.buffer.ring
  {
  }

  /** No action of anyone changes what a window reads while it is held. */
  lemma WindowIsStable(s: State, a: Action, j: nat)
    requires Reachable(s) && j in s.jobs && s.jobs[j].view.Some?
    ensures var v := s.jobs[j].view.value;
            v.head <= v.tail && ViewRecords(Apply(s, a).buffer.ring, v) == ViewRecords(s.buffer.ring, v)
  {
    ReachableHolds(s);
    ViewIsCounted(s, j);
    if a.DoAppend? {
      AppendSparesWindow(s, a, s.jobs[j].view.value);
    } else {
      OthersSpareRing(s, a);
    }
  }

  /** The same holds for the window that a flush reads. */
  lemma FlushWindowIsStable(s: State, a: Action)
    requires Reachable(s) && (s.phase.Flushing? || s.phase.Installed?)
    ensures var v := s.phase.view;
            v.head <= v.tail && ViewRecords(Apply(s, a).buffer.ring, v) == ViewRecords(s.buffer.ring, v)
  {
    hide Run, Reachable;
    ReachableHolds(s);
    if a.DoAppend? {
      AppendSparesWindow(s, a, s.phase.view);
    } else {
      OthersSpareRing(s, a);
    }
  }

  /** A retired epoch is gone from the map, and then no job holds it. */
  lemma HeldEpochsLive(s: State, j: nat)
    requires Reachable(s) && j in s.jobs && s.jobs[j].epoch.Some?
    ensures s.jobs[j].epoch.value in s.epochs
  {
    ReachableHolds(s);
    PinnableIsPlaced(s, s.jobs[j].epoch.value);
  }

  /** Every slot's count is the number of holders of its epoch, and every head's count
      the number of windows that start there. */
  lemma CountsAreHolders(s: State)
    requires Reachable(s)
    ensures s.current.epoch.Some? ==> s.current.refcnt == Pins(s, s.current.epoch.value)
    ensures s.previous.epoch.Some? ==> s.previous.refcnt == Pins(s, s.previous.epoch.value)
    ensures s.buffer.head.refcnt == Views(s, s.buffer.head.idx)
    ensures Older(s).refcnt == Views(s, Older(s).idx)
    ensures forall h :: h != s.buffer.head.idx && h != Older(s).idx ==> Views(s, h) == 0
  {
    ReachableHolds(s);
    hide RingHolds, InvViews, InvNet;
    if s.current.epoch.Some? {
      assert Pins(s, s.current.epoch.value) == SlotRefs(s, s.current.epoch.value);
    }
    if s.previous.epoch.Some? {
      assert Pins(s, s.previous.epoch.value) == SlotRefs(s, s.previous.epoch.value);
    }
    forall h ensures Views(s, h) == HeadRefs(s, h) { }
  }

  /** The assertions written in the code, and the ones its comments rely on. */
  ghost predicate Asserted(s: State, a: Action) {
    match a
    case PinForClone => s.phase.Scheduled? ==> s.next.epoch.None?
    case CloneEpoch => s.phase.PinnedForClone? ==> s.next.epoch.None? && s.phase.source in s.epochs
    case EndJob(j) => j in s.jobs && s.jobs[j].epoch.Some? ==> UnpinHits(s, s.jobs[j].epoch.value)
    case EndClonePin => s.phase.Cloned? ==> UnpinHits(s, s.phase.source)
    case ReleaseView(j) => j in s.jobs && s.jobs[j].view.Some? ==> ReleaseHits(s.buffer, s.jobs[j].view.value.head)
    case ReleaseFlushView => s.phase.Installed? ==> ReleaseHits(s.buffer, s.phase.view.head)
    case TryAdvanceHead => s.phase.PreviousStored? ==>
        s.next.epoch.Some? && s.buffer.head.idx <= s.phase.newHead <= s.buffer.tail
    case _ => true
  }

  /** The slot that an unpin decrements is the one that holds its epoch, with a reference
      to give back; if no slot is there to decrement, the loop goes round again. */
  ghost predicate UnpinHits(s: State, e: nat) {
    if s.previous.epoch == Some(e) then s.previous.refcnt > 0
    else s.current.epoch.Some? ==> s.current.epoch == Some(e) && s.current.refcnt > 0
  }

  /** The head that a release decrements is the one it took its reference on. */
  ghost predicate ReleaseHits(b: Buffer, idx: nat) {
    ReleaseHead(b, idx).Some? ==> b.oldHead.idx == idx || b.head.idx == idx
  }

  lemma CloneIsCounted(s: State)
    requires Inv(s) && s.phase.Cloned?
    ensures SlotRefs(s, s.phase.source) > 0
  {
    assert Pins(s, s.phase.source) == SlotRefs(s, s.phase.source);
  }

  lemma AssertionsHold(s: State, a: Action)
    requires Reachable(s)
    ensures Asserted(s, a)
  {
    hide RingHolds, InvNet, Reachable, Run, InvViews, InvPins, InvCounts;
    ReachableHolds(s);
    match a {
      case EndJob(j) =>
        if j in s.jobs && s.jobs[j].epoch.Some? {
          HeldIsCounted(s, j);
        }
      case EndClonePin =>
        if s.phase.Cloned? {
          CloneIsCounted(s);
        }
      case ReleaseView(j) =>
        if j in s.jobs && s.jobs[j].view.Some? {
          ViewIsCounted(s, j);
        }
      case _ =>
    }
  }

  /** The head-acquiring loop never waits for a head that does not exist: at worst it
      waits for the one store that puts the swapped head into the old slot. */
  lemma HeadLoopEnds(s: State, e: nat)
    requires Reachable(s) && Pinnable(s, e)
    ensures e in s.epochs
    ensures GetHead(Apply(s, StoreOldHead).buffer, s.epochs[e].head).Some?
    ensures !s.phase.HeadSwapped? ==> GetHead(s.buffer, s.epochs[e].head).Some?
  {
    ReachableHolds(s);
    PinnableIsPlaced(s, e);
  }

  /** Likewise, a held window can always be given back, at worst after that store. */
  lemma ReleaseLoopEnds(s: State, j: nat)
    requires Reachable(s) && j in s.jobs && s.jobs[j].view.Some?
    ensures ReleaseHead(Apply(s, StoreOldHead).buffer, s.jobs[j].view.value.head).Some?
    ensures !s.phase.HeadSwapped? ==> ReleaseHead(s.buffer, s.jobs[j].view.value.head).Some?
  {
    ReachableHolds(s);
    ViewIsCounted(s, j);
  }
}
