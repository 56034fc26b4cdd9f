/** What holds of every structure grown by flushes: the plan makes room, the scratch state
    foresees the outcome, nothing is lost, and the shard counts are numerals. */
module PlannerRuns {
  import opened Numerals
  import opened ExtensionStructures
  import opened ShardOrder
  import opened PlannerProofs
  import opened PlannerBentleySaxe

  /** The room that flush_buffer asserts before it flushes n records. */
  predicate RoomFor(c: Config, s: Structure, n: nat) {
    CanReconstructWith(c, WithLevel(c, s, 0).state, 0, n)
  }

  /** Under the Bentley-Saxe layout an occupied level must be recognisable by its record
      count, so no shard may be empty. */
  ghost predicate NoEmptyShard(c: Config, outs: seq<Shard>) {
    c.layout.BSM? ==> forall k :: 0 <= k < |outs| ==> outs[k].recs != []
  }

  lemma PowMonotone(b: nat, i: nat)
    requires b >= 2
    ensures Pow(b, i) >= 1 && Pow(b, i + 1) >= Pow(b, 1) == b
    decreases i
  {
    assert Pow(b, 1) == b * Pow(b, 0) == b;
    if i > 0 {
      PowMonotone(b, i - 1);
      assert Pow(b, i) == b * Pow(b, i - 1);
      Multiples(Pow(b, i), b);
    }
  }

  lemma CapMonotone(c: Config, i: nat)
    requires ConfigOk(c)
    ensures RecordCap(c, i) >= RecordCap(c, 0) >= 2 * c.bufferSize
  {
    PowMonotone(c.scale, i);
    var a, b := Pow(c.scale, i + 1), Pow(c.scale, 1);
    assert c.bufferSize * a == c.bufferSize * b + c.bufferSize * (a - b);
    assert c.bufferSize * b == 2 * c.bufferSize + c.bufferSize * (b - 2);
  }

  lemma CountedRecords(shards: seq<Shard>)
    ensures RecordCount(shards) > 0 ==> shards != []
    ensures shards != [] && shards[0].recs != [] ==> RecordCount(shards) > 0
  {
  }

  /** The planner stops where the cascade can start: every level above is occupied. */
  lemma BlockedIsOccupied(c: Config, s: Structure, j: nat)
    requires ConfigOk(c) && LevelsOk(c, s) && j < |s.levels|
    requires !CanReconstructWith(c, s.state, 0, c.bufferSize)
    requires j > 0 ==> !CanReconstructWith(c, s.state, j, s.state[0].reccnt)
    ensures s.levels[j].shards != []
    ensures c.layout.Tiering? ==> |s.levels[j].shards| == c.scale
  {
    assert LevelOk(c, s.levels[j], s.state[j], j) && LevelOk(c, s.levels[0], s.state[0], 0);
    CapMonotone(c, j);
    CountedRecords(s.levels[j].shards);
  }

  lemma PlanIsReady(c: Config, s: Structure)
    requires ConfigOk(c) && Sound(c, s) && s.levels != []
    requires !CanReconstructWith(c, s.state, 0, c.bufferSize)
    ensures var base := BaseLevel(c, s.state);
            var g := WithLevel(c, s, base);
            && 1 <= base && Sound(c, g) && SameContents(s, g) && g.state == Grown(c, s.state, base)
            && (!c.layout.BSM? ==> Ready(c, g, base)) && (c.layout.BSM? ==> Vacant(g, base))
  {
    hide Tiled, ShardsNet, AllShards;
    var base := BaseLevel(c, s.state);
    GrownSound(c, s, base);
    forall j | 0 <= j < base
      ensures s.levels[j].shards != [] && (c.layout.Tiering? ==> |s.levels[j].shards| == c.scale)
    {
      BlockedIsOccupied(c, s, j);
    }
    if base < |s.levels| {
      assert LevelOk(c, s.levels[base], s.state[base], base);
      CountedRecords(s.levels[base].shards);
    }
  }

  /** The first task grows the structure if the plan did. */
  lemma GrowsFirst(c: Config, s: Structure, task: Task, out: Shard)
    requires |s.levels| == |s.state| && task.target <= |s.levels| && TaskFits(c, s, task)
    ensures TaskFits(c, WithLevel(c, s, task.target), task)
    ensures ApplyTask(c, s, task, out) == ApplyTask(c, WithLevel(c, s, task.target), task, out)
    ensures MergeOk(c, s, task, out) <==> MergeOk(c, WithLevel(c, s, task.target), task, out)
  {
  }

  /** What running a plan guarantees. */
  ghost predicate PlanDone(c: Config, s: Structure, s': Structure) {
    && Sound(c, s') && SameContents(s, s') && s'.flushes == s.flushes
    && Foreseen(Plan(c, s.state).1, WithLevel(c, s', 0).state)
    && (forall n: nat :: n <= c.bufferSize ==> RoomFor(c, s', n))
  }

  lemma RoomWhenEmpty(c: Config, s: Structure, n: nat)
    requires ConfigOk(c) && LevelsOk(c, s) && n <= c.bufferSize && (s.levels == [] || s.levels[0].shards == [])
    ensures RoomFor(c, s, n)
  {
    CapMonotone(c, 0);
    if s.levels != [] {
      assert LevelOk(c, s.levels[0], s.state[0], 0);
    }
  }

  lemma CascadeFromTop(c: Config, s: Structure, base: nat, outs: seq<Shard>)
    requires ConfigOk(c) && !c.layout.BSM? && Sound(c, s) && 1 <= base <= |s.levels|
    requires Sound(c, WithLevel(c, s, base)) && Ready(c, WithLevel(c, s, base), base)
    requires var tasks := Cascade(c, WithLevel(c, s, base).state, base).0;
             |outs| == |tasks| && MergesOk(c, s, tasks, outs)
    ensures var g := WithLevel(c, s, base);
            var tasks := Cascade(c, g.state, base).0;
            && Execute(c, s, tasks, outs) == Execute(c, g, tasks, outs)
            && MergesOk(c, g, tasks, outs)
            && (TasksSafe(c, g, tasks, outs) ==> TasksSafe(c, s, tasks, outs))
  {
    hide Tiled, ShardsNet, AllShards, LevelOk;
    var g := WithLevel(c, s, base);
    var tasks := Cascade(c, g.state, base).0;
    assert tasks[0] == Task([base - 1], base);
    GrowsFirst(c, s, tasks[0], outs[0]);
  }

  lemma CascadePlan(c: Config, s: Structure, outs: seq<Shard>)
    requires ConfigOk(c) && !c.layout.BSM? && Sound(c, s) && s.levels != []
    requires !CanReconstructWith(c, s.state, 0, c.bufferSize)
    requires |outs| == |Plan(c, s.state).0| && MergesOk(c, s, Plan(c, s.state).0, outs)
    ensures PlanDone(c, s, Execute(c, s, Plan(c, s.state).0, outs))
    ensures TasksSafe(c, s, Plan(c, s.state).0, outs)
    ensures var base := BaseLevel(c, s.state);
            CascadedCounts(c, WithLevel(c, s, base), Execute(c, s, Plan(c, s.state).0, outs), base)
  {
    hide Tiled, ShardsNet, AllShards, LevelOk, MergesOk, Execute, TasksSafe;
    PlanIsReady(c, s);
    var base := BaseLevel(c, s.state);
    var g := WithLevel(c, s, base);
    CascadeFromTop(c, s, base, outs);
    CascadeRuns(c, g, g.state, base, outs);
    var s' := Execute(c, s, Plan(c, s.state).0, outs);
    forall n: nat | n <= c.bufferSize ensures RoomFor(c, s', n) { RoomWhenEmpty(c, s', n); }
  }

  /** The one task of a Bentley-Saxe plan, run on the grown structure. */
  lemma FlattenTask(c: Config, s: Structure, base: nat, outs: seq<Shard>)
    requires c.layout.BSM? && |s.levels| == |s.state| && 1 <= base <= |s.levels| && |outs| == 1
    requires Vacant(WithLevel(c, s, base), base)
    requires MergesOk(c, s, [Task(Downward(base), base)], outs)
    ensures var g, tasks := WithLevel(c, s, base), [Task(Downward(base), base)];
            && ShardOf(AllShards(g.levels[..base]), outs[0])
            && Execute(c, s, tasks, outs) == ReconstructAll(c, g, tasks[0], outs[0])
            && TasksSafe(c, s, tasks, outs)
  {
    hide ShardOf, ReconstructAll;
    var g, task := WithLevel(c, s, base), Task(Downward(base), base);
    SourcesAreNewest(g.levels, base);
    NewestExist(g.levels, base);
    assert TaskFits(c, s, task);
    assert [task][1..] == [] && outs[1..] == [];
  }

  lemma FlattenPlan(c: Config, s: Structure, outs: seq<Shard>)
    requires ConfigOk(c) && c.layout.BSM? && Sound(c, s) && s.levels != []
    requires !CanReconstructWith(c, s.state, 0, c.bufferSize)
    requires |outs| == |Plan(c, s.state).0| && MergesOk(c, s, Plan(c, s.state).0, outs) && NoEmptyShard(c, outs)
    ensures PlanDone(c, s, Execute(c, s, Plan(c, s.state).0, outs))
    ensures TasksSafe(c, s, Plan(c, s.state).0, outs)
    ensures var s', base := Execute(c, s, Plan(c, s.state).0, outs), BaseLevel(c, s.state);
            && |s'.levels| == |WithLevel(c, s, base).levels|
            && forall j :: 0 <= j < |s'.levels| ==>
                 (s'.levels[j].shards != [] <==> j == base || (j > base && s.levels[j].shards != []))
  {
    hide Tiled, ShardsNet, AllShards, LevelOk, ShardOf, Execute, MergesOk, TasksSafe, ReconstructAll, ApplyTask;
    PlanIsReady(c, s);
    var base := BaseLevel(c, s.state);
    var g := WithLevel(c, s, base);
    var task := Task(Downward(base), base);
    assert Plan(c, s.state).0 == [task];
    FlattenTask(c, s, base, outs);
    FlattenStep(c, g, base, outs[0]);
    var s' := ReconstructAll(c, g, task, outs[0]);
    forall n: nat | n <= c.bufferSize ensures RoomFor(c, s', n) { RoomWhenEmpty(c, s', n); }
  }

  lemma NewestExist(levels: seq<Level>, n: nat)
    requires 1 <= n <= |levels| && levels[n - 1].shards != []
    ensures AllShards(levels[..n]) != []
  {
    PrefixShards(levels, n);
  }

  /** Executing the planned tasks in order makes the assertion of the flush true, for all
      three layouts; the real counts are the simulated ones, the real record counts at
      most the simulated ones; no task reads through a null shard, and nothing is left
      pending. */
  lemma PlanMakesRoom(c: Config, s: Structure, outs: seq<Shard>)
    requires ConfigOk(c) && Sound(c, s)
    requires |outs| == |Plan(c, s.state).0| && MergesOk(c, s, Plan(c, s.state).0, outs) && NoEmptyShard(c, outs)
    ensures PlanDone(c, s, Execute(c, s, Plan(c, s.state).0, outs))
    ensures TasksSafe(c, s, Plan(c, s.state).0, outs)
  {
    if CanReconstructWith(c, s.state, 0, c.bufferSize) {
      assert WithLevel(c, s, 0) == s;
      assert PlanDone(c, s, s);
    } else if s.levels == [] {
      GrownSound(c, s, 0);
      assert Plan(c, s.state).0 == [];
      forall n: nat | n <= c.bufferSize ensures RoomFor(c, s, n) { RoomWhenEmpty(c, s, n); }
      assert PlanDone(c, s, s);
    } else if c.layout.BSM? {
      FlattenPlan(c, s, outs);
    } else {
      CascadePlan(c, s, outs);
    }
  }
}
