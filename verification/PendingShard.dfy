/** Why the Bentley-Saxe laws need shards to be non-empty: an empty shard in level 0 looks
    like room to the planner, but takes the slot that the next flush needs. What queries see
    after any run, empty shards or not, are the batches that found a slot. */
module PendingShard {
  import opened Records
  import opened ExtensionStructures
  import opened ShardOrder
  import opened PlannerProofs
  import opened PlannerBentleySaxe
  import opened ShardHistory
  import opened StructureRuns
  import opened StructureLaws

  /** A flushed batch is visible to queries exactly if the shard vector of level 0 has a
      free slot; otherwise no query sees it. */
  lemma FlushVisibleIff(c: Config, s: Structure, out: Shard, merged: Shard)
    requires !c.layout.Leveling? && |s.levels| == |s.state|
    ensures var g, s' := WithLevel(c, s, 0), FlushInto(c, s, out, merged);
            && (AllShards(s'.levels) == AllShards(s.levels) + [out] <==> |g.levels[0].shards| != g.levels[0].cap)
            && (|g.levels[0].shards| == g.levels[0].cap ==>
                  AllShards(s'.levels) == AllShards(s.levels) && s'.levels[0].pending == Some(out))
  {
    var g, s' := WithLevel(c, s, 0), FlushInto(c, s, out, merged);
    if s.levels == [] {
      assert AllShards(g.levels) == AllShards([]) + g.levels[0].shards;
    }
    assert AllShards(g.levels) == AllShards(s.levels);
    ReplaceTop(g.levels, s'.levels);
    if |g.levels[0].shards| == g.levels[0].cap {
      assert |AllShards(s.levels) + [out]| == |AllShards(s'.levels)| + 1;
    } else {
      assert AllShards(g.levels[1..]) + (g.levels[0].shards + [out]) == AllShards(s.levels) + [out];
    }
  }

  // ---------------------------------------------------------------------------
  // All runs under the Bentley-Saxe layout
  // ---------------------------------------------------------------------------

  /** The cycle without the condition that no shard is empty. */
  ghost predicate CycleRuns(c: Config, s: Structure, y: Cycle) {
    && |y.outs| == |Plan(c, s.state).0| && MergesOk(c, s, Plan(c, s.state).0, y.outs)
    && |y.batch| <= c.bufferSize && FlushOk(c, Prepared(c, s, y), y.batch, y.flushed, y.merged)
  }

  ghost predicate CyclesRun(c: Config, ys: seq<Cycle>) {
    ys == [] || (CyclesRun(c, ys[..|ys| - 1]) && CycleRuns(c, Grow(c, ys[..|ys| - 1]), ys[|ys| - 1]))
  }

  /** Every level counts its records, and has no more shards than slots. */
  ghost predicate Counted(s: Structure) {
    && |s.levels| == |s.state|
    && forall i :: 0 <= i < |s.levels| ==>
         s.state[i].reccnt == RecordCount(s.levels[i].shards) && |s.levels[i].shards| <= s.levels[i].cap
  }

  /** The next batch will be seen: level 0 is yet to be made, holds a record, so that it is
      emptied first, or has a free slot. */
  predicate Shown(s: Structure) {
    s.levels == [] || RecordCount(s.levels[0].shards) > 0 || |s.levels[0].shards| < s.levels[0].cap
  }

  ghost predicate SameShown(s: Structure, s': Structure) {
    forall r :: ShardsNet(AllShards(s'.levels), r) == ShardsNet(AllShards(s.levels), r)
  }

  lemma {:induction false} EmptyShardsWeighNothing(shards: seq<Shard>, r: Record)
    requires RecordCount(shards) == 0
    ensures ShardsNet(shards, r) == 0
  {
    if shards != [] {
      EmptyShardsWeighNothing(shards[1..], r);
    }
  }

  /** Merging all levels above into one without records. */
  lemma FlattenShows(c: Config, s: Structure, base: nat, out: Shard)
    requires Counted(s) && 1 <= base < |s.levels| && s.state[base].reccnt == 0
    requires ShardOf(AllShards(s.levels[..base]), out)
    ensures var s' := ReconstructAll(c, s, Task(Downward(base), base), out);
            Counted(s') && SameShown(s, s') && s'.levels[0] == Level(0, 1, [], None)
  {
    hide AllShards, ShardOf, ShardsNet;
    var s' := ReconstructAll(c, s, Task(Downward(base), base), out);
    SourceIndices(base);
    assert RecordCount([out]) == |out.recs| by { assert [out][1..] == []; }
    NoShards(s'.levels[..base]);
    assert s'.levels[base + 1..] == s.levels[base + 1..];
    forall r ensures ShardsNet(AllShards(s'.levels), r) == ShardsNet(AllShards(s.levels), r) {
      FlattenNet(s.levels, s'.levels, base, out, r);
    }
  }

  lemma FlattenNet(a: seq<Level>, b: seq<Level>, base: nat, out: Shard, r: Record)
    requires base < |a| == |b| && a[base + 1..] == b[base + 1..] && RecordCount(a[base].shards) == 0
    requires b[base].shards == [out] && AllShards(b[..base]) == [] && ShardOf(AllShards(a[..base]), out)
    ensures ShardsNet(AllShards(b), r) == ShardsNet(AllShards(a), r)
  {
    hide AllShards;
    AllShardsAt(a, base);
    AllShardsAt(b, base);
    var x, z := AllShards(a[base + 1..]), AllShards(a[..base]);
    EmptyShardsWeighNothing(a[base].shards, r);
    ShardsNetConcat(x + a[base].shards, z, r);
    ShardsNetConcat(x, a[base].shards, r);
    ShardsNetConcat(x, [out], r);
    assert (x + [out]) + [] == x + [out];
    assert ShardsNet([out], r) == Net(out.recs, r) by { assert [out][1..] == []; }
  }

  /** The planned task, if there is one. */
  lemma FlattenPlanned(c: Config, s: Structure)
    requires c.layout.BSM? && Counted(s) && s.levels != [] && s.state[0].reccnt != 0
    ensures var base := BaseLevel(c, s.state);
            var g, task := WithLevel(c, s, base), Task(Downward(base), base);
            && Plan(c, s.state).0 == [task] && 1 <= base < |g.levels| && Counted(g) && g.state[base].reccnt == 0
            && base <= |s.levels| && TaskFits(c, s, task)
            && TaskInputs(c, s, task) == AllShards(g.levels[..base]) != []
  {
    hide AllShards;
    var base := BaseLevel(c, s.state);
    var g := WithLevel(c, s, base);
    SourcesAreNewest(g.levels, base);
    assert g.levels[..base][0].shards == s.levels[0].shards != [];
    SomeShards(g.levels[..base]);
    assert RecordCount(NewLevel(c, base).shards) == 0;
  }

  lemma SomeShards(levels: seq<Level>)
    requires levels != [] && levels[0].shards != []
    ensures AllShards(levels) != []
  {
  }

  /** The plan changes nothing that queries see, and leaves a slot in level 0 exactly if the
      next batch is to be shown. */
  lemma PlanShows(c: Config, s: Structure, y: Cycle)
    requires ConfigOk(c) && c.layout.BSM? && Counted(s) && CycleRuns(c, s, y)
    ensures var t := Prepared(c, s, y);
            && Counted(t) && SameShown(s, t) && (!Shown(s) ==> t == s)
            && (Shown(s) <==> |WithLevel(c, t, 0).levels[0].shards| != WithLevel(c, t, 0).levels[0].cap)
  {
    if s.levels == [] || s.state[0].reccnt == 0 {
      NothingToDo(c, s, y);
    } else {
      hide Plan, Execute, MergesOk, ReconstructAll, AllShards, ShardOf, FlushOk, ShardsNet, TaskInputs, Counted;
      FlattenPlanned(c, s);
      var base := BaseLevel(c, s.state);
      var g, task := WithLevel(c, s, base), Task(Downward(base), base);
      assert y.outs == [y.outs[0]];
      ExecuteOne(c, s, task, y.outs[0]);
      FlattenShows(c, g, base, y.outs[0]);
      SameShards(c, s, base);
    }
  }

  /** The batch of any cycle of any run becomes visible if and only if it is to be shown;
      otherwise queries see what they saw before. */
  lemma BatchVisibleIff(c: Config, ys: seq<Cycle>, y: Cycle)
    requires ConfigOk(c) && c.layout.BSM? && CyclesRun(c, ys) && CycleRuns(c, Grow(c, ys), y)
    ensures var s, s' := Grow(c, ys), RunCycle(c, Grow(c, ys), y);
            && (AllShards(s'.levels) == AllShards(Prepared(c, s, y).levels) + [y.flushed] <==> Shown(s))
            && (if Shown(s) then BatchAdded(s, y.batch, s') else AllShards(s'.levels) == AllShards(s.levels))
  {
    RunsAreCounted(c, ys);
    CycleShows(c, Grow(c, ys), y);
  }

  lemma {:induction false} RunsAreCounted(c: Config, ys: seq<Cycle>)
    requires ConfigOk(c) && c.layout.BSM? && CyclesRun(c, ys)
    ensures Counted(Grow(c, ys))
  {
    hide Counted, CycleRuns, RunCycle;
    if ys == [] {
      NothingCounted();
    } else {
      RunsAreCounted(c, ys[..|ys| - 1]);
      CycleShows(c, Grow(c, ys[..|ys| - 1]), ys[|ys| - 1]);
    }
  }

  lemma NothingCounted()
    ensures Counted(EMPTY_STRUCTURE)
  {
  }

  lemma CycleShows(c: Config, s: Structure, y: Cycle)
    requires ConfigOk(c) && c.layout.BSM? && Counted(s) && CycleRuns(c, s, y)
    ensures var s' := RunCycle(c, s, y);
            && Counted(s')
            && (AllShards(s'.levels) == AllShards(Prepared(c, s, y).levels) + [y.flushed] <==> Shown(s))
            && (if Shown(s) then BatchAdded(s, y.batch, s') else AllShards(s'.levels) == AllShards(s.levels))
  {
    hide Prepared, Plan, MergesOk, AllShards, ShardsNet, Shown;
    PlanShows(c, s, y);
    var t := Prepared(c, s, y);
    FlushVisibleIff(c, t, y.flushed, y.merged);
    FlushCounted(c, t, y.flushed, y.merged);
    if Shown(s) {
      forall r ensures ShardsNet(AllShards(t.levels) + [y.flushed], r)
                    == ShardsNet(AllShards(t.levels), r) + Net(y.batch, r) {
        OneMoreShard(AllShards(t.levels), y.flushed, r);
      }
    }
  }

  lemma OneMoreShard(shards: seq<Shard>, out: Shard, r: Record)
    ensures ShardsNet(shards + [out], r) == ShardsNet(shards, r) + Net(out.recs, r)
  {
    ShardsNetConcat(shards, [out], r);
    assert [out][1..] == [];
    assert ShardsNet([out], r) == Net(out.recs, r);
  }

  lemma FlushCounted(c: Config, s: Structure, out: Shard, merged: Shard)
    requires ConfigOk(c) && c.layout.BSM? && Counted(s)
    ensures Counted(FlushInto(c, s, out, merged))
  {
    var g := WithLevel(c, s, 0);
    assert Counted(g);
  }

  /** The batches that were shown. */
  function ShownBatches(c: Config, ys: seq<Cycle>): seq<Wrapped> {
    if ys == [] then []
    else
      var before, y := ys[..|ys| - 1], ys[|ys| - 1];
      ShownBatches(c, before) + if Shown(Grow(c, before)) then y.batch else []
  }

  /** After any run queries see exactly these. */
  lemma {:induction false} QueriesSeeShown(c: Config, ys: seq<Cycle>)
    requires ConfigOk(c) && c.layout.BSM? && CyclesRun(c, ys)
    ensures forall r :: ShardsNet(AllShards(Grow(c, ys).levels), r) == Net(ShownBatches(c, ys), r)
  {
    if ys != [] {
      hide CycleRuns, RunCycle, Shown, AllShards, ShardsNet;
      var before, y := ys[..|ys| - 1], ys[|ys| - 1];
      QueriesSeeShown(c, before);
      BatchVisibleIff(c, before, y);
      forall r ensures Net(ShownBatches(c, before) + y.batch, r) == Net(ShownBatches(c, before), r) + Net(y.batch, r) {
        NetConcat(ShownBatches(c, before), y.batch, r);
      }
      assert ShownBatches(c, before) + [] == ShownBatches(c, before);
    }
  }

  // ---------------------------------------------------------------------------
  // An empty shard
  // ---------------------------------------------------------------------------

  function Insert(k: int): Wrapped {
    Wrapped(Record(k, 0), false, false, 0)
  }

  function Erase(k: int): Wrapped {
    Wrapped(Record(k, 0), true, false, 0)
  }

  const LAYOUT := Config(BSM, 2, 2)
  const FIRST := Cycle([Insert(1)], [], Shard([Insert(1)], 0, 1), Shard([], 0, 0))
  const SECOND := Cycle([Insert(2), Erase(2)], [Shard([Insert(1)], 0, 1)], Shard([], 1, 2), Shard([], 0, 0))
  const THIRD := Cycle([Insert(3)], [], Shard([Insert(3)], 2, 3), Shard([], 0, 0))

  lemma FirstCycle(s: Structure)
    requires s == EMPTY_STRUCTURE
    ensures CycleRuns(LAYOUT, s, FIRST)
    ensures RunCycle(LAYOUT, s, FIRST)
         == Structure([Level(0, 2, [FIRST.flushed], None)], [LevelState(1, RecordCap(LAYOUT, 0), 1, 2)], 1)
  {
    NothingToDo(LAYOUT, s, FIRST);
    var g := WithLevel(LAYOUT, s, 0);
    assert g.levels == [NewLevel(LAYOUT, 0)] && g.state == [NewState(LAYOUT, 0)];
    assert [] + [FIRST.flushed] == [FIRST.flushed];
    assert RecordCount([FIRST.flushed]) == 1;
  }

  lemma SecondPlan(s: Structure)
    requires s == Structure([Level(0, 2, [FIRST.flushed], None)], [LevelState(1, RecordCap(LAYOUT, 0), 1, 2)], 1)
    ensures Plan(LAYOUT, s.state).0 == [Task([0], 1)] && MergesOk(LAYOUT, s, [Task([0], 1)], SECOND.outs)
    ensures var t := Prepared(LAYOUT, s, SECOND);
            && t.levels == [Level(0, 1, [], None), Level(1, 1, [FIRST.flushed], None)]
            && |t.state| == 2 && t.state[0].reccnt == 0 && t.flushes == 1
  {
    assert FindFrom(LAYOUT, s.state, 1) == None;
    assert Downward(1) == [0] by { assert Downward(0) == []; }
    var task := Task([0], 1);
    assert Plan(LAYOUT, s.state).0 == [task];
    var g := WithLevel(LAYOUT, s, 1);
    assert SourceShards(g.levels, [0]) == [FIRST.flushed] by { assert [0][1..] == []; }
    var out := SECOND.outs[0];
    assert ShardOf([FIRST.flushed], out) by {
      assert [FIRST.flushed][1..] == [];
      forall r ensures Net(out.recs, r) == ShardsNet([FIRST.flushed], r) { }
    }
    assert [task][1..] == [] && SECOND.outs[1..] == [];
    assert TaskFits(LAYOUT, s, task);
    assert ApplyTask(LAYOUT, s, task, out) == ReconstructAll(LAYOUT, g, task, out);
    assert SECOND.outs == [out];
    assert Execute(LAYOUT, s, [task], [out]) == ApplyTask(LAYOUT, s, task, out);
  }

  lemma SecondCycle(s: Structure)
    requires s == Structure([Level(0, 2, [FIRST.flushed], None)], [LevelState(1, RecordCap(LAYOUT, 0), 1, 2)], 1)
    ensures CycleRuns(LAYOUT, s, SECOND)
    ensures var s' := RunCycle(LAYOUT, s, SECOND);
            && s'.levels == [Level(0, 1, [SECOND.flushed], None), Level(1, 1, [FIRST.flushed], None)]
            && |s'.state| == 2 && s'.state[0].reccnt == 0 && s'.flushes == 2
  {
    hide Plan, Execute, MergesOk, ReconstructAll;
    SecondPlan(s);
    forall r ensures Net(SECOND.batch, r) == Net([], r) {
      assert SECOND.batch[1..] == [Erase(2)] && [Erase(2)][1..] == [];
    }
    assert [] + [SECOND.flushed] == [SECOND.flushed];
    assert RecordCount([SECOND.flushed]) == 0 by { assert [SECOND.flushed][1..] == []; }
  }

  lemma ThirdCycle(s: Structure)
    requires s.levels == [Level(0, 1, [SECOND.flushed], None), Level(1, 1, [FIRST.flushed], None)]
    requires |s.state| == 2 && s.state[0].reccnt == 0 && s.flushes == 2
    ensures CycleRuns(LAYOUT, s, THIRD)
    ensures AllShards(RunCycle(LAYOUT, s, THIRD).levels) == [FIRST.flushed, SECOND.flushed]
  {
    NothingToDo(LAYOUT, s, THIRD);
    FlushVisibleIff(LAYOUT, s, THIRD.flushed, THIRD.merged);
    assert s.levels[1..] == [s.levels[1]] && s.levels[1..][1..] == [];
    assert AllShards(s.levels[1..]) == [FIRST.flushed];
    assert AllShards(s.levels) == [FIRST.flushed] + [SECOND.flushed];
  }

  /** Three ordinary flushes, the second of an insert and its erase, after which the record
      of the third is in the structure but no query can find it. */
  lemma EmptyShardHidesBatch()
    ensures var s1 := RunCycle(LAYOUT, EMPTY_STRUCTURE, FIRST);
            var s2 := RunCycle(LAYOUT, s1, SECOND);
            var s3 := RunCycle(LAYOUT, s2, THIRD);
            && CycleRuns(LAYOUT, EMPTY_STRUCTURE, FIRST) && CycleRuns(LAYOUT, s1, SECOND)
                && CycleRuns(LAYOUT, s2, THIRD)
            && ShardsNet(AllShards(s3.levels), Record(3, 0)) == 0
            && Net(FIRST.batch + SECOND.batch + THIRD.batch, Record(3, 0)) == 1
  {
    hide Plan, Execute, MergesOk, ReconstructAll, FlushInto, CycleRuns, AllShards, RunCycle;
    FirstCycle(EMPTY_STRUCTURE);
    var s1 := RunCycle(LAYOUT, EMPTY_STRUCTURE, FIRST);
    SecondCycle(s1);
    ThirdCycle(RunCycle(LAYOUT, s1, SECOND));
    ThirdIsMissing();
  }

  lemma ThirdIsMissing()
    ensures ShardsNet([FIRST.flushed, SECOND.flushed], Record(3, 0)) == 0
    ensures Net(FIRST.batch + SECOND.batch + THIRD.batch, Record(3, 0)) == 1
  {
    var r := Record(3, 0);
    assert [FIRST.flushed, SECOND.flushed][1..] == [SECOND.flushed] && [SECOND.flushed][1..] == [];
    assert Net([Insert(1)], r) == 0 by { assert [Insert(1)][1..] == []; }
    assert Net([Insert(2), Erase(2)], r) == 0 by {
      assert [Insert(2), Erase(2)][1..] == [Erase(2)] && [Erase(2)][1..] == [];
    }
    assert ShardsNet([SECOND.flushed], r) == Net([], r) + ShardsNet([], r) == 0;
    assert ShardsNet([FIRST.flushed, SECOND.flushed], r) == Net([Insert(1)], r) + ShardsNet([SECOND.flushed], r);
    assert Net([Insert(3)], r) == 1 by { assert [Insert(3)][1..] == []; }
    NetConcat(FIRST.batch, SECOND.batch, r);
    NetConcat(FIRST.batch + SECOND.batch, THIRD.batch, r);
  }
}
