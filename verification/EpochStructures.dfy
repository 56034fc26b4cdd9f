/** The epoch protocol over real structures: every epoch has its levels and shards, merges run
    the plan of its structure, and a flush puts the window into level 0. */
module EpochStructures {
  import opened Records
  import opened MutableBuffers
  import opened EpochProtocol
  import opened EpochProofs
  import opened EpochRuns
  import opened EpochHistory
  import opened ExtensionStructures
  import opened PlannerProofs
  import opened PlannerRuns
  import opened StructureRuns
  import opened ScanOrder
  import opened ScanRuns

  /** `structures` has the structure of every epoch; `prepared` says whether the plan of the
      next one has been run. */
  datatype System = System(s: State, structures: map<nat, Structure>, prepared: bool)

  datatype Move =
    | Step(action: Action)
    | RunPlan(outs: seq<Shard>)
    | TakeWindow
    | FlushWindow(flushed: Shard, merged: Shard)

  /** What an epoch's structure holds, run by run. */
  function ContentsOf(st: Structure): seq<Wrapped> {
    Flatten(OpenedRuns(st.levels))
  }

  function Begin(c: Config, lwm: nat, blank: Wrapped): System {
    System(Init(lwm, c.bufferSize, blank), map[0 := EMPTY_STRUCTURE], false)
  }

  /** The structure that the reconstruction works on is at hand. */
  predicate HasNext(x: System) {
    x.s.next.epoch.Some? && x.s.next.epoch.value in x.s.epochs && x.s.next.epoch.value in x.structures
  }

  function NextOf(x: System): Structure
    requires HasNext(x)
  {
    x.structures[x.s.next.epoch.value]
  }

  function Batch(x: System): seq<Wrapped>
    requires WellFormed(x.s.buffer) && x.s.phase.Flushing? && x.s.phase.view.head <= x.s.phase.view.tail
  {
    ViewRecords(x.s.buffer.ring, x.s.phase.view)
  }

  /** One move. The shards of a merge or a flush are any that the shard constructors may
      build; everything else is decided. */
  ghost function Go(c: Config, x: System, m: Move): (y: System)
    requires WellFormed(x.s.buffer)
    ensures WellFormed(y.s.buffer)
  {
    match m
    case Step(a) =>
      if a.Merge? || a.TakeView? || a.Flush? then x
      else if a.CloneEpoch? && x.s.phase.PinnedForClone? && x.s.phase.source in x.s.epochs
          && x.s.phase.source in x.structures then
        System(Apply(x.s, a), x.structures[x.s.epochCnt + 1 := x.structures[x.s.phase.source]], false)
      else if a.CloneEpoch? then x
      else x.(s := Apply(x.s, a))
    case RunPlan(outs) =>
      if !x.s.phase.Merging? || x.prepared || !HasNext(x) then x
      else
        var tasks := Plan(c, NextOf(x).state).0;
        if |outs| != |tasks| || !MergesOk(c, NextOf(x), tasks, outs) || !NoEmptyShard(c, outs) then x
        else
          var st := Execute(c, NextOf(x), tasks, outs);
          Installing(x, Merge(ContentsOf(st)), st, true)
    case TakeWindow =>
      if !x.prepared then x else x.(s := Apply(x.s, TakeView))
    case FlushWindow(flushed, merged) =>
      if !x.s.phase.Flushing? || !HasNext(x) || x.s.phase.view.head > x.s.phase.view.tail then x
      else if |NextOf(x).levels| != |NextOf(x).state| || !FlushOk(c, NextOf(x), Batch(x), flushed, merged)
              || !NoEmptyShard(c, [flushed]) then x
      else
        var st := FlushInto(c, NextOf(x), flushed, merged);
        Installing(x, Flush(ContentsOf(st)), st, false)
  }

  /** The protocol's action, and the structure that it puts into the next epoch. */
  ghost function Installing(x: System, a: Action, st: Structure, prepared: bool): System
    requires WellFormed(x.s.buffer) && HasNext(x)
  {
    System(Apply(x.s, a), x.structures[x.s.next.epoch.value := st], prepared)
  }

  ghost function GoAll(c: Config, x: System, moves: seq<Move>): (y: System)
    requires WellFormed(x.s.buffer)
    ensures WellFormed(y.s.buffer)
  {
    if moves == [] then x else Go(c, GoAll(c, x, moves[..|moves| - 1]), moves[|moves| - 1])
  }

  // ---------------------------------------------------------------------------
  // The invariant
  // ---------------------------------------------------------------------------

  ghost predicate Backed(c: Config, x: System, e: nat)
    requires e in x.s.epochs
  {
    e in x.structures && Sound(c, x.structures[e]) && x.s.epochs[e].contents == ContentsOf(x.structures[e])
  }

  /** Level 0 can take any batch that the buffer can hold. */
  ghost predicate Roomy(c: Config, st: Structure) {
    forall n: nat :: n <= c.bufferSize ==> RoomFor(c, st, n)
  }

  ghost predicate Whole(c: Config, x: System) {
    && Inv(x.s) && x.s.buffer.hwm == c.bufferSize
    && (forall e :: e in x.s.epochs ==> Backed(c, x, e))
    && (x.s.phase.Cloned? ==> !x.prepared)
    && ((x.s.phase.Merging? && x.prepared) || x.s.phase.Flushing? ==> HasNext(x) && Roomy(c, NextOf(x)))
  }

  lemma SameContentsSameNet(a: Structure, b: Structure)
    requires SameContents(a, b)
    ensures SameNet(ContentsOf(a), ContentsOf(b))
  {
    forall r ensures Net(ContentsOf(a), r) == Net(ContentsOf(b), r) {
      OpenedNet(a.levels, r);
      OpenedNet(b.levels, r);
    }
  }

  lemma BatchAddsNet(a: Structure, batch: seq<Wrapped>, b: Structure)
    requires BatchAdded(a, batch, b)
    ensures AddsNet(ContentsOf(a), batch, ContentsOf(b))
  {
    forall r ensures Net(ContentsOf(b), r) == Net(ContentsOf(a), r) + Net(batch, r) {
      OpenedNet(a.levels, r);
      OpenedNet(b.levels, r);
    }
  }

  lemma BeginHolds(c: Config, lwm: nat, blank: Wrapped)
    requires ConfigOk(c) && lwm <= c.bufferSize && 1 <= c.bufferSize
    ensures Whole(c, Begin(c, lwm, blank))
  {
    hide Inv;
    InitHolds(lwm, c.bufferSize, blank);
    assert AllShards([]) == [] && OpenedRuns([]) == [];
  }

  /** An action of the protocol that leaves contents alone. */
  ghost predicate Plain(s: State, t: State) {
    && (forall e :: e in t.epochs ==> e in s.epochs && t.epochs[e].contents == s.epochs[e].contents)
    && t.buffer.hwm == s.buffer.hwm
    && (t.phase.Cloned? ==> s.phase.Cloned?)
    && (t.phase.Flushing? ==> s.phase.Flushing? && t.next == s.next && t.epochs == s.epochs)
    && (t.phase.Merging? ==> (s.phase.Merging? || s.phase.Cloned?) && t.next == s.next && t.epochs == s.epochs)
  }

  lemma JobIsPlain(s: State, a: Action)
    requires Inv(s) && (a.DoAppend? || a.GetActiveEpoch? || a.GetBuffer? || a.ReleaseView? || a.EndJob?)
    ensures Plain(s, Apply(s, a))
  {
    hide InvPins, InvCounts, InvNet, RingHolds, InvViews, InvHeads, InvProgress, InvSlots;
  }

  lemma BuildIsPlain(s: State, a: Action)
    requires Inv(s)
    requires a.CheckWatermark? || a.SetFlag? || a.PinForClone? || a.EndClonePin? || a.ReleaseFlushView?
    ensures Plain(s, Apply(s, a))
  {
    hide InvPins, InvCounts, InvNet, RingHolds, InvViews, InvHeads, InvProgress;
  }

  lemma SlotsArePlain(s: State, a: Action)
    requires Inv(s) && (a.Retire? || a.TakeCurrent? || a.StorePrevious? || a.TryAdvanceHead?)
    ensures Plain(s, Apply(s, a))
  {
    hide InvPins, InvCounts, InvNet, RingHolds, InvViews, InvHeads, InvProgress;
  }

  lemma InstallIsPlain(s: State, a: Action)
    requires Inv(s) && (a.SwapHead? || a.StoreOldHead? || a.InstallCurrent? || a.ClearNext? || a.ClearFlag?)
    ensures Plain(s, Apply(s, a))
  {
    hide InvPins, InvCounts, InvNet, RingHolds, InvViews, InvHeads, InvProgress;
  }

  predicate OwnAction(a: Action) {
    a.Merge? || a.TakeView? || a.Flush? || a.CloneEpoch?
  }

  lemma StepIsPlain(s: State, a: Action)
    requires Inv(s) && !OwnAction(a)
    ensures WellFormed(s.buffer) && Plain(s, Apply(s, a))
  {
    WellFormedBuffer(s);
    hide Inv, Apply, Plain;
    if a.DoAppend? || a.GetActiveEpoch? || a.GetBuffer? || a.ReleaseView? || a.EndJob? {
      JobIsPlain(s, a);
    } else if a.CheckWatermark? || a.SetFlag? || a.PinForClone? || a.EndClonePin? || a.ReleaseFlushView? {
      BuildIsPlain(s, a);
    } else if a.Retire? || a.TakeCurrent? || a.StorePrevious? || a.TryAdvanceHead? {
      SlotsArePlain(s, a);
    } else {
      InstallIsPlain(s, a);
    }
  }

  lemma PlainKeepsWhole(c: Config, x: System, t: State)
    requires Whole(c, x) && Inv(t) && Plain(x.s, t)
    ensures Whole(c, x.(s := t))
  {
    hide Inv, Sound, Roomy, ContentsOf;
    var y := x.(s := t);
    forall e | e in t.epochs ensures Backed(c, y, e) {
      assert Backed(c, x, e);
    }
  }

  /** The clone starts with the structure of its source. */
  lemma CloneKeepsWhole(c: Config, x: System, t: State)
    requires Whole(c, x) && x.s.phase.PinnedForClone? && x.s.phase.source in x.s.epochs && Inv(t)
    requires t.epochs == x.s.epochs[x.s.epochCnt + 1 := x.s.epochs[x.s.phase.source]]
    requires t.buffer == x.s.buffer && t.phase.Cloned?
    ensures x.s.phase.source in x.structures
    ensures Whole(c, System(t, x.structures[x.s.epochCnt + 1 := x.structures[x.s.phase.source]], false))
  {
    hide Inv, Sound, Roomy, ContentsOf;
    assert Backed(c, x, x.s.phase.source);
    var y := System(t, x.structures[x.s.epochCnt + 1 := x.structures[x.s.phase.source]], false);
    forall e | e in t.epochs ensures Backed(c, y, e) {
      if e != x.s.epochCnt + 1 {
        assert Backed(c, x, e);
      }
    }
  }

  lemma CloneFacts(s: State)
    requires Inv(s) && s.phase.PinnedForClone? && s.phase.source in s.epochs
    ensures WellFormed(s.buffer)
    ensures var t := Apply(s, CloneEpoch);
            && t.epochs == s.epochs[s.epochCnt + 1 := s.epochs[s.phase.source]] && t.buffer == s.buffer
                && t.phase.Cloned?
  {
    hide InvPins, InvCounts, InvNet, RingHolds, InvViews, InvHeads, InvProgress;
  }

  lemma WindowKeepsWhole(c: Config, x: System)
    requires Whole(c, x) && x.prepared
    ensures WellFormed(x.s.buffer) && Whole(c, x.(s := Apply(x.s, TakeView)))
  {
    WellFormedBuffer(x.s);
    StepKeepsInv(x.s, TakeView);
    WindowFacts(x.s);
    hide Inv, Apply, Sound, Roomy, ContentsOf;
    var y := x.(s := Apply(x.s, TakeView));
    forall e | e in y.s.epochs ensures Backed(c, y, e) {
      assert Backed(c, x, e);
    }
  }

  lemma WindowFacts(s: State)
    requires WellFormed(s.buffer)
    ensures var t := Apply(s, TakeView);
            && t.epochs == s.epochs && t.next == s.next && t.buffer.hwm == s.buffer.hwm
            && (t.phase == s.phase || (s.phase.Merging? && t.phase.Flushing?))
  {
  }

  // ---------------------------------------------------------------------------
  // Merges and flushes are enabled
  // ---------------------------------------------------------------------------

  lemma PutFacts(s: State, a: Action)
    requires WellFormed(s.buffer) && s.next.epoch.Some? && s.next.epoch.value in s.epochs
    requires var n := s.next.epoch.value;
             || (a.Merge? && s.phase.Merging? && SameNet(s.epochs[n].contents, a.merged))
             || (a.Flush? && s.phase.Flushing? && s.phase.view.head <= s.phase.view.tail
                 && AddsNet(s.epochs[n].contents, ViewRecords(s.buffer.ring, s.phase.view), a.flushed))
    ensures var n, t := s.next.epoch.value, Apply(s, a);
            && t.epochs == s.epochs[n := s.epochs[n].(contents := if a.Merge? then a.merged else a.flushed)]
            && t.next == s.next && t.buffer == s.buffer && (if a.Merge? then t.phase == s.phase else t.phase.Installed?)
  {
    hide SameNet, AddsNet, ViewRecords;
  }

  /** The action puts the contents of this structure into the next epoch. */
  ghost predicate Enabled(x: System, a: Action, st: Structure)
    requires WellFormed(x.s.buffer) && HasNext(x)
  {
    var n := x.s.next.epoch.value;
    Apply(x.s, a).epochs == x.s.epochs[n := x.s.epochs[n].(contents := ContentsOf(st))]
  }

  lemma PutKeepsWhole(c: Config, x: System, a: Action, st: Structure, prepared: bool)
    requires Whole(c, x) && WellFormed(x.s.buffer) && HasNext(x) && Sound(c, st) && Enabled(x, a, st)
    requires (a.Merge? || a.Flush?) && Inv(Apply(x.s, a))
    requires var t := Apply(x.s, a);
             && t.next == x.s.next && t.buffer == x.s.buffer
             && (if a.Merge? then t.phase == x.s.phase == Merging else t.phase.Installed?)
    requires a.Merge? ==> Roomy(c, st)
    ensures Whole(c, Installing(x, a, st, prepared))
  {
    hide Inv, Apply, Sound, Roomy, ContentsOf;
    var y := Installing(x, a, st, prepared);
    forall e | e in y.s.epochs ensures Backed(c, y, e) {
      if e != x.s.next.epoch.value {
        assert Backed(c, x, e);
      }
    }
  }

  /** Running the plan is a merge of the protocol, and leaves room for a full buffer. */
  lemma PlanKeepsWhole(c: Config, x: System, outs: seq<Shard>)
    requires ConfigOk(c) && Whole(c, x) && x.s.phase.Merging? && HasNext(x)
    requires |outs| == |Plan(c, NextOf(x).state).0| && MergesOk(c, NextOf(x), Plan(c, NextOf(x).state).0, outs)
    requires NoEmptyShard(c, outs)
    ensures var st := Execute(c, NextOf(x), Plan(c, NextOf(x).state).0, outs);
            && WellFormed(x.s.buffer) && Enabled(x, Merge(ContentsOf(st)), st)
            && Whole(c, Installing(x, Merge(ContentsOf(st)), st, true))
  {
    hide Inv, Apply, Execute, MergesOk, Plan, ContentsOf, SameNet;
    WellFormedBuffer(x.s);
    var st := Execute(c, NextOf(x), Plan(c, NextOf(x).state).0, outs);
    assert Backed(c, x, x.s.next.epoch.value);
    PlanMakesRoom(c, NextOf(x), outs);
    SameContentsSameNet(NextOf(x), st);
    PutFacts(x.s, Merge(ContentsOf(st)));
    StepKeepsInv(x.s, Merge(ContentsOf(st)));
    PutKeepsWhole(c, x, Merge(ContentsOf(st)), st, true);
  }

  /** The window is no longer than the buffer that the plan made room for. */
  lemma WindowFits(c: Config, x: System)
    requires Whole(c, x) && x.s.phase.Flushing?
    ensures WellFormed(x.s.buffer) && x.s.phase.view.head <= x.s.phase.view.tail && |Batch(x)| <= c.bufferSize
  {
    hide InvPins, InvCounts, InvNet, RingHolds, InvViews, InvHeads, InvSlots, Backed, Roomy;
  }

  /** Putting the window into level 0 is a flush of the protocol. */
  lemma FlushKeepsWhole(c: Config, x: System, flushed: Shard, merged: Shard)
    requires ConfigOk(c) && Whole(c, x) && x.s.phase.Flushing? && HasNext(x) && WellFormed(x.s.buffer)
    requires x.s.phase.view.head <= x.s.phase.view.tail && |NextOf(x).levels| == |NextOf(x).state|
    requires FlushOk(c, NextOf(x), Batch(x), flushed, merged) && NoEmptyShard(c, [flushed])
    ensures var st := FlushInto(c, NextOf(x), flushed, merged);
            && Enabled(x, Flush(ContentsOf(st)), st) && Whole(c, Installing(x, Flush(ContentsOf(st)), st, false))
  {
    hide Inv, Apply, FlushInto, FlushOk, ContentsOf, SameNet, AddsNet, NoEmptyShard;
    var st := FlushInto(c, NextOf(x), flushed, merged);
    WindowFits(c, x);
    assert Backed(c, x, x.s.next.epoch.value);
    assert RoomFor(c, NextOf(x), |Batch(x)|);
    FlushAdds(c, NextOf(x), Batch(x), flushed, merged);
    BatchAddsNet(NextOf(x), Batch(x), st);
    PutFacts(x.s, Flush(ContentsOf(st)));
    StepKeepsInv(x.s, Flush(ContentsOf(st)));
    PutKeepsWhole(c, x, Flush(ContentsOf(st)), st, false);
  }

  // ---------------------------------------------------------------------------
  // Runs
  // ---------------------------------------------------------------------------

  /** Every move is a step of the protocol, or nothing. */
  ghost predicate Simulated(s: State, t: State)
    requires WellFormed(s.buffer)
  {
    t == s || exists a :: t == Apply(s, a)
  }

  lemma StepKeepsWhole(c: Config, x: System, a: Action)
    requires Whole(c, x)
    ensures WellFormed(x.s.buffer) && Whole(c, Go(c, x, Step(a))) && Simulated(x.s, Go(c, x, Step(a)).s)
  {
    hide Inv, Apply, Whole;
    WholeInv(c, x);
    WellFormedBuffer(x.s);
    StepKeepsInv(x.s, a);
    if !OwnAction(a) {
      StepIsPlain(x.s, a);
      PlainKeepsWhole(c, x, Apply(x.s, a));
    } else if a.CloneEpoch? && x.s.phase.PinnedForClone? && x.s.phase.source in x.s.epochs {
      CloneFacts(x.s);
      CloneKeepsWhole(c, x, Apply(x.s, a));
    }
  }

  lemma RunPlanKeepsWhole(c: Config, x: System, outs: seq<Shard>)
    requires ConfigOk(c) && Whole(c, x)
    ensures WellFormed(x.s.buffer) && Whole(c, Go(c, x, RunPlan(outs))) && Simulated(x.s, Go(c, x, RunPlan(outs)).s)
  {
    hide Inv, Apply, Whole, MergesOk, Execute, Plan, ContentsOf, NoEmptyShard;
    WholeInv(c, x);
    WellFormedBuffer(x.s);
    if Go(c, x, RunPlan(outs)) != x {
      PlanKeepsWhole(c, x, outs);
    }
  }

  lemma FlushWindowKeepsWhole(c: Config, x: System, flushed: Shard, merged: Shard)
    requires ConfigOk(c) && Whole(c, x)
    ensures WellFormed(x.s.buffer) && Whole(c, Go(c, x, FlushWindow(flushed, merged)))
    ensures Simulated(x.s, Go(c, x, FlushWindow(flushed, merged)).s)
  {
    hide Inv, Apply, Whole, FlushOk, FlushInto, ContentsOf, NoEmptyShard;
    WholeInv(c, x);
    WellFormedBuffer(x.s);
    if Go(c, x, FlushWindow(flushed, merged)) != x {
      FlushKeepsWhole(c, x, flushed, merged);
    }
  }

  lemma GoKeepsWhole(c: Config, x: System, m: Move)
    requires ConfigOk(c) && Whole(c, x)
    ensures WellFormed(x.s.buffer) && Whole(c, Go(c, x, m)) && Simulated(x.s, Go(c, x, m).s)
  {
    WholeInv(c, x);
    WellFormedBuffer(x.s);
    match m
    case Step(a) =>
      hide *;
      StepKeepsWhole(c, x, a);
    case RunPlan(outs) =>
      hide *;
      RunPlanKeepsWhole(c, x, outs);
    case TakeWindow =>
      hide Inv, Apply, Whole;
      if x.prepared {
        WindowKeepsWhole(c, x);
      }
    case FlushWindow(flushed, merged) =>
      hide *;
      FlushWindowKeepsWhole(c, x, flushed, merged);
  }

  lemma WholeInv(c: Config, x: System)
    requires Whole(c, x)
    ensures Inv(x.s) && x.s.buffer.hwm == c.bufferSize
  {
  }

  ghost predicate Reached(c: Config, x: System) {
    exists lwm: nat, blank, moves ::
      lwm <= c.bufferSize && 1 <= c.bufferSize && x == GoAll(c, Begin(c, lwm, blank), moves)
  }

  lemma {:induction false} GoAllHolds(c: Config, lwm: nat, blank: Wrapped, moves: seq<Move>)
    requires ConfigOk(c) && lwm <= c.bufferSize && 1 <= c.bufferSize
    ensures var x := GoAll(c, Begin(c, lwm, blank), moves); Whole(c, x) && Reachable(x.s)
  {
    if moves == [] {
      BeginHolds(c, lwm, blank);
      assert Init(lwm, c.bufferSize, blank) == Run(Init(lwm, c.bufferSize, blank), []);
    } else {
      var before, m := moves[..|moves| - 1], moves[|moves| - 1];
      GoAllHolds(c, lwm, blank, before);
      var x := GoAll(c, Begin(c, lwm, blank), before);
      hide Whole, Go, Apply, Reachable, Run;
      GoKeepsWhole(c, x, m);
      SimulatedIsReachable(x.s, Go(c, x, m).s);
    }
  }

  lemma SimulatedIsReachable(s: State, t: State)
    requires Reachable(s) && WellFormed(s.buffer) && Simulated(s, t)
    ensures Reachable(t)
  {
    hide Apply, Run, Reachable;
    if t != s {
      var a :| t == Apply(s, a);
      ReachableGoesOn(s, [a]);
      RunOne(s, a);
    }
  }

  lemma ReachedHolds(c: Config, x: System)
    requires ConfigOk(c) && Reached(c, x)
    ensures Whole(c, x) && Reachable(x.s)
  {
    var lwm: nat, blank, moves :|
      lwm <= c.bufferSize && 1 <= c.bufferSize && x == GoAll(c, Begin(c, lwm, blank), moves);
    GoAllHolds(c, lwm, blank, moves);
  }

  // ---------------------------------------------------------------------------
  // The theorems
  // ---------------------------------------------------------------------------

  /** In every reachable state in which a flush is due, whatever arrived since its plan was
      made: the window fits, and the assertion before the flush holds. */
  lemma FlushAssertionHolds(c: Config, x: System)
    requires ConfigOk(c) && Reached(c, x) && x.s.phase.Flushing?
    ensures WellFormed(x.s.buffer) && HasNext(x) && x.s.phase.view.head <= x.s.phase.view.tail
    ensures |Batch(x)| <= c.bufferSize && RoomFor(c, NextOf(x), |Batch(x)|)
  {
    ReachedHolds(c, x);
    hide Reached, Inv, Backed;
    WindowFits(c, x);
  }

  /** Whatever epoch a job can hold, the shards of its levels and the buffer from its head on
      together count every accepted operation exactly once. */
  lemma ShardsAndBufferCount(c: Config, x: System, e: nat, r: Record)
    requires ConfigOk(c) && Reached(c, x) && Pinnable(x.s, e)
    ensures WellFormed(x.s.buffer) && e in x.s.epochs && e in x.structures
    ensures x.s.epochs[e].head <= x.s.buffer.tail
    ensures ShardsNet(AllShards(x.structures[e].levels), r)
            + Net(ViewRecords(x.s.buffer.ring, View(x.s.epochs[e].head, x.s.buffer.tail)), r)
         == Net(x.s.log, r)
  {
    ReachedHolds(c, x);
    WholeInv(c, x);
    WellFormedBuffer(x.s);
    hide Reached, Inv, Reachable, Pinnable;
    NothingHiddenOrDoubled(x.s, e, r);
    assert Backed(c, x, e);
    OpenedNet(x.structures[e].levels, r);
  }

  /** A job's scan over its window and the shards of its epoch is the scan of the operations
      accepted when it took the window. */
  lemma JobScansShards(c: Config, x: System, j: nat, lo: int, hi: int, out: seq<Record>)
    requires ConfigOk(c) && Reached(c, x)
    requires j in x.s.jobs && x.s.jobs[j].epoch.Some? && x.s.jobs[j].view.Some?
    ensures var e, v := x.s.jobs[j].epoch.value, x.s.jobs[j].view.value;
            && WellFormed(x.s.buffer) && e in x.structures && v.head <= v.tail <= |x.s.log|
            && (IsScan(Visible(ViewRecords(x.s.buffer.ring, v), x.structures[e]), lo, hi, out)
                <==> IsScan(x.s.log[..v.tail], lo, hi, out))
  {
    ReachedHolds(c, x);
    WholeInv(c, x);
    WellFormedBuffer(x.s);
    hide Reached, Inv, Reachable, IsScan, Run;
    JobScanSeesAPrefix(x.s, j, lo, hi, out);
    assert Backed(c, x, x.s.jobs[j].epoch.value);
  }

  /** The operations that a run of moves accepts. */
  ghost function MovesAccept(c: Config, x: System, moves: seq<Move>): seq<Operation>
    requires WellFormed(x.s.buffer)
  {
    if moves == [] then []
    else
      var before, m := moves[..|moves| - 1], moves[|moves| - 1];
      MovesAccept(c, x, before) + if m.Step? then OperationOf(GoAll(c, x, before).s, m.action) else []
  }

  /** A move is its action, or one of the reconstruction's own. */
  lemma MoveIsAction(c: Config, x: System, m: Move) returns (a: Action)
    requires WellFormed(x.s.buffer)
    ensures Go(c, x, m).s == x.s || Go(c, x, m).s == Apply(x.s, a)
    ensures if m.Step? then a == m.action else a.Merge? || a.TakeView? || a.Flush?
    ensures m.Step? && a.DoAppend? ==> Go(c, x, m).s == Apply(x.s, a)
  {
    hide Apply, MergesOk, NoEmptyShard, FlushOk;
    a := TakeView;
    match m
    case Step(action) => a := action;
    case RunPlan(outs) =>
      if HasNext(x) {
        var tasks := Plan(c, NextOf(x).state).0;
        if |outs| == |tasks| {
          a := Merge(ContentsOf(Execute(c, NextOf(x), tasks, outs)));
        }
      }
    case TakeWindow =>
    case FlushWindow(flushed, merged) =>
      if HasNext(x) && |NextOf(x).levels| == |NextOf(x).state| {
        a := Flush(ContentsOf(FlushInto(c, NextOf(x), flushed, merged)));
      }
  }

  /** Moves tell the history as actions do. */
  lemma {:induction false} LogIsMoves(c: Config, lwm: nat, blank: Wrapped, moves: seq<Move>)
    requires lwm <= c.bufferSize && 1 <= c.bufferSize
    ensures var x, ops := GoAll(c, Begin(c, lwm, blank), moves), MovesAccept(c, Begin(c, lwm, blank), moves);
            && |x.s.buffer.ring| == 2 * c.bufferSize && x.s.buffer.tail == |x.s.log|
            && Told(x.s.log, ops, 2 * c.bufferSize) && forall r :: Net(x.s.log, r) == Balance(ops, r)
  {
    if moves != [] {
      var before, m := moves[..|moves| - 1], moves[|moves| - 1];
      LogIsMoves(c, lwm, blank, before);
      LastMove(c, Begin(c, lwm, blank), moves);
      hide GoAll, MovesAccept, Go, Told, Balance, OperationOf;
      MoveTells(c, GoAll(c, Begin(c, lwm, blank), before), m, MovesAccept(c, Begin(c, lwm, blank), before));
    }
  }

  lemma MoveTells(c: Config, x: System, m: Move, ops: seq<Operation>)
    requires WellFormed(x.s.buffer) && x.s.buffer.tail == |x.s.log| && Told(x.s.log, ops, |x.s.buffer.ring|)
    requires forall r :: Net(x.s.log, r) == Balance(ops, r)
    ensures var y, ops' := Go(c, x, m), ops + if m.Step? then OperationOf(x.s, m.action) else [];
            && |y.s.buffer.ring| == |x.s.buffer.ring| && y.s.buffer.tail == |y.s.log|
            && Told(y.s.log, ops', |x.s.buffer.ring|) && forall r :: Net(y.s.log, r) == Balance(ops', r)
  {
    hide Go, Apply, Told, Balance, HasRoom;
    var a := MoveIsAction(c, x, m);
    StepTells(x.s, a, ops);
    StepSpares(x.s, a);
    assert ops + [] == ops;
  }

  lemma LastMove(c: Config, x: System, moves: seq<Move>)
    requires WellFormed(x.s.buffer) && moves != []
    ensures var before, m := moves[..|moves| - 1], moves[|moves| - 1];
            && GoAll(c, x, moves) == Go(c, GoAll(c, x, before), m)
            && MovesAccept(c, x, moves)
               == MovesAccept(c, x, before) + if m.Step? then OperationOf(GoAll(c, x, before).s, m.action) else []
  {
    hide Go, OperationOf;
  }

  /** The job neither ends nor gives its window back. */
  ghost predicate KeepsIn(moves: seq<Move>, j: nat) {
    forall i :: 0 <= i < |moves| ==> moves[i] != Step(EndJob(j)) && moves[i] != Step(ReleaseView(j))
  }

  lemma {:induction false} HeldJobStaysIn(c: Config, x: System, moves: seq<Move>, j: nat)
    requires WellFormed(x.s.buffer) && KeepsIn(moves, j)
    requires j in x.s.jobs && x.s.jobs[j].epoch.Some? && x.s.jobs[j].view.Some?
    ensures var y := GoAll(c, x, moves); j in y.s.jobs && y.s.jobs[j] == x.s.jobs[j] && x.s.log <= y.s.log
  {
    if moves != [] {
      var before, m := moves[..|moves| - 1], moves[|moves| - 1];
      HeldJobStaysIn(c, x, before, j);
      LastMove(c, x, moves);
      hide GoAll, Go, Apply;
      var a := MoveIsAction(c, GoAll(c, x, before), m);
      StepSpares(GoAll(c, x, before).s, a);
    }
  }

  lemma {:induction false} GoAllConcat(c: Config, x: System, a: seq<Move>, b: seq<Move>)
    requires WellFormed(x.s.buffer)
    ensures GoAll(c, x, a + b) == GoAll(c, GoAll(c, x, a), b)
  {
    hide Go;
    if b == [] {
      assert a + b == a;
    } else {
      var n := |b| - 1;
      GoAllConcat(c, x, a, b[..n]);
      assert (a + b)[..|a| + n] == a + b[..n];
    }
  }

  /** Told by moves: a job that takes its window after `before` and keeps it gets, whatever
      happens later, reconstructions included, the scan of the operations accepted until then. */
  lemma JobScansAccepted(c: Config, lwm: nat, blank: Wrapped, before: seq<Move>, j: nat, later: seq<Move>,
                         lo: int, hi: int, out: seq<Record>)
    requires ConfigOk(c) && lwm <= c.bufferSize && KeepsIn(later, j)
    requires TakesWindow(GoAll(c, Begin(c, lwm, blank), before).s, j)
    ensures var x0 := Begin(c, lwm, blank);
            var x, y := GoAll(c, x0, before), GoAll(c, x0, before + [Step(GetBuffer(j))] + later);
            && Told(x.s.log, MovesAccept(c, x0, before), 2 * c.bufferSize)
            && j in y.s.jobs && y.s.jobs[j].epoch == x.s.jobs[j].epoch && y.s.jobs[j].view.Some?
            && y.s.jobs[j].view.value.head <= y.s.jobs[j].view.value.tail
            && y.s.jobs[j].epoch.value in y.structures
            && (IsScan(Visible(ViewRecords(y.s.buffer.ring, y.s.jobs[j].view.value),
                               y.structures[y.s.jobs[j].epoch.value]), lo, hi, out)
                <==> IsScan(x.s.log, lo, hi, out))
  {
    hide GoAll, Go, Apply, IsScan, MovesAccept, Told, Balance, KeepsIn, Visible;
    var x0 := Begin(c, lwm, blank);
    LogIsMoves(c, lwm, blank, before);
    WindowHeldIn(c, lwm, blank, before, j, later);
    var all := before + [Step(GetBuffer(j))] + later;
    var x, y := GoAll(c, x0, before), GoAll(c, x0, all);
    assert Reached(c, y);
    JobScansShards(c, y, j, lo, hi, out);
    assert y.s.log[..|x.s.log|] == x.s.log;
  }

  lemma WindowHeldIn(c: Config, lwm: nat, blank: Wrapped, before: seq<Move>, j: nat, later: seq<Move>)
    requires ConfigOk(c) && lwm <= c.bufferSize && KeepsIn(later, j)
    requires TakesWindow(GoAll(c, Begin(c, lwm, blank), before).s, j)
    ensures var x0 := Begin(c, lwm, blank);
            var x, y := GoAll(c, x0, before), GoAll(c, x0, before + [Step(GetBuffer(j))] + later);
            && j in y.s.jobs && y.s.jobs[j].epoch == x.s.jobs[j].epoch
            && y.s.jobs[j].view.Some? && y.s.jobs[j].view.value.tail == |x.s.log| && x.s.log <= y.s.log
  {
    hide Apply, KeepsIn;
    var x0, m := Begin(c, lwm, blank), Step(GetBuffer(j));
    var x := GoAll(c, x0, before);
    assert Reached(c, x);
    GoAllConcat(c, x0, before + [m], later);
    GoAllConcat(c, x0, before, [m]);
    OneMove(c, x, m);
    assert Go(c, x, m).s == Apply(x.s, GetBuffer(j));
    hide GoAll, Go, Reached;
    ReachedHolds(c, x);
    WindowReachesEnd(x.s, j);
    HeldJobStaysIn(c, Go(c, x, m), later, j);
  }

  lemma OneMove(c: Config, x: System, m: Move)
    requires WellFormed(x.s.buffer)
    ensures GoAll(c, x, [m]) == Go(c, x, m)
  {
    hide Go;
    assert [m][..0] == [] && GoAll(c, x, []) == x;
  }
}
