/** The structure over real shards: each planned task builds its external tree, each flush the
    tree of its batch, and a scan reads the trees that the levels name. */
module TreeExecutor {
  import opened Records
  import opened ExtensionStructures
  import opened ShardSources
  import opened PlannerProofs
  import opened PlannerRuns
  import opened ShardHistory
  import opened StructureRuns
  import opened StructureLaws
  import opened StructureExecutor
  import opened ExternalISAMTrees
  import opened ShardBuilding
  import opened ScanOrder
  import opened ScanRuns
  import opened RangeScan

  // ---------------------------------------------------------------------------
  // The structure and its trees
  // ---------------------------------------------------------------------------

  /** The tree of every shard. */
  ghost predicate TreesOk(nodeSize: nat, recSize: nat, trees: map<Shard, ISAMTree>)
    reads trees.Values
  {
    forall shard :: shard in trees ==> Builds(trees[shard], nodeSize, recSize, shard)
  }

  class TreeStructure {
    const config: Config
    const nodeSize: nat
    const recSize: nat
    const fanout: nat
    const blank: Wrapped
    const structure: ExtensionStructure
    var trees: map<Shard, ISAMTree>
    /** The flush cycles so far. */
    ghost var cycles: seq<Cycle>

    ghost predicate Sizes() {
      ConfigOk(config) && 1 <= recSize <= nodeSize && fanout >= 2 && structure.config == config
    }

    ghost predicate Valid()
      reads this, structure, structure.levels, trees.Values
    {
      && Sizes() && CyclesOk(config, cycles) && structure.Valid() && structure.Value() == Grow(config, cycles)
      && TreesOk(nodeSize, recSize, trees) && Known(structure.Value().levels, trees.Keys)
    }

    constructor (config: Config, nodeSize: nat, recSize: nat, fanout: nat, blank: Wrapped)
      requires ConfigOk(config) && 1 <= recSize <= nodeSize && fanout >= 2
      ensures Valid() && fresh(structure) && cycles == [] && this.config == config
    {
      this.config, this.nodeSize, this.recSize, this.fanout, this.blank := config, nodeSize, recSize, fanout, blank;
      structure := new ExtensionStructure(config);
      trees, cycles := map[], [];
    }

    /** Merges known shards into a new one; fails if one of them has no records, which the
        merge cannot read. */
    method MergeShards(inputs: seq<Shard>) returns (ok: bool, out: Shard)
      requires Sizes() && TreesOk(nodeSize, recSize, trees) && inputs != []
      requires forall k :: 0 <= k < |inputs| ==> inputs[k] in trees
      modifies this`trees
      ensures TreesOk(nodeSize, recSize, trees) && old(trees).Keys <= trees.Keys
      ensures forall t :: t in trees.Values ==> t in old(trees).Values || fresh(t)
      ensures ok <==> !HasEmpty(inputs)
      ensures ok ==> ShardOf(inputs, out) && out in trees
    {
      hide ShardOf, Contents, ISAMTree.Valid;
      forall i | 0 <= i < |inputs| ensures trees[inputs[i]].reccnt == |inputs[i].recs| {
        CountsRecords(trees[inputs[i]], nodeSize, recSize, inputs[i]);
      }
      var ts: seq<ISAMTree> := [];
      for k := 0 to |inputs|
        invariant |ts| == k
        invariant forall i :: 0 <= i < k ==> ts[i] == trees[inputs[i]] && ts[i].reccnt > 0 && inputs[i].recs != []
      {
        var t := trees[inputs[k]];
        if t.reccnt == 0 {
          return false, inputs[0];
        }
        ts := ts + [t];
      }
      forall i | 0 <= i < |ts| ensures Builds(ts[i], nodeSize, recSize, inputs[i]) { }
      var tree;
      tree, out := ShardOfShards(nodeSize, recSize, fanout, blank, ts, inputs);
      OneMoreTree(nodeSize, recSize, trees, out, tree);
      trees := trees[out := tree];
      ok := true;
    }

    /** The shard of one task; fails where a merge would meet an empty shard or, under the
        Bentley-Saxe layout, where the task would leave one. */
    method BuildTask(s: Structure, task: Task) returns (ok: bool, out: Shard)
      requires Sizes() && TreesOk(nodeSize, recSize, trees) && Known(s.levels, trees.Keys)
      modifies this`trees
      ensures TreesOk(nodeSize, recSize, trees) && old(trees).Keys <= trees.Keys
      ensures forall t :: t in trees.Values ==> t in old(trees).Values || fresh(t)
      ensures ok ==> MergeOk(config, s, task, out) && Known(ApplyTask(config, s, task, out).levels, trees.Keys)
      ensures ok && config.layout.BSM? ==> out.recs != []
      ensures ok && TaskFits(config, s, task) ==> !HasEmpty(TaskInputs(config, s, task))
      ensures !ok ==> Stuck(config, s, task)
    {
      hide TreesOk, Known, ShardOf, ApplyTask, ConfigOk, HasEmpty;
      NoneEmpty();
      out := Shard([], 0, 0);
      if !TaskFits(config, s, task) {
        TaskKnown(config, s, task, out, trees.Keys);
        return !config.layout.BSM?, out;
      }
      var inputs := TaskInputs(config, s, task);
      InputsKnown(config, s, task, trees.Keys);
      if inputs == [] {
        if !config.layout.BSM? {
          TaskKnown(config, s, task, out, trees.Keys);
        }
        return !config.layout.BSM?, out;
      }
      ok, out := MergeShards(inputs);
      if ok {
        KnownMore(s.levels, old(trees).Keys, trees.Keys);
        TaskKnown(config, s, task, out, trees.Keys);
        ok := !config.layout.BSM? || out.recs != [];
      }
    }

    /** The shards of all planned tasks, and the structure they lead to. */
    method BuildTasks(s0: Structure, tasks: seq<Task>) returns (ok: bool, outs: seq<Shard>, s: Structure)
      requires Sizes() && TreesOk(nodeSize, recSize, trees) && Known(s0.levels, trees.Keys)
      modifies this`trees
      ensures TreesOk(nodeSize, recSize, trees) && old(trees).Keys <= trees.Keys
      ensures forall t :: t in trees.Values ==> t in old(trees).Values || fresh(t)
      ensures ok ==> |outs| == |tasks| && MergesOk(config, s0, tasks, outs) && s == Execute(config, s0, tasks, outs)
      ensures ok ==> Known(s.levels, trees.Keys) && NoEmptyShard(config, outs)
      ensures !ok ==> |outs| < |tasks| && MergesOk(config, s0, tasks[..|outs|], outs)
      ensures !ok ==> s == Execute(config, s0, tasks[..|outs|], outs) && Stuck(config, s, tasks[|outs|])
    {
      hide TreesOk, Known, ApplyTask, MergeOk, ConfigOk, MergesOk, Execute, Stuck, HasEmpty;
      outs, s, ok := [], s0, true;
      NoTasks(config, s0);
      for k := 0 to |tasks|
        invariant |outs| == k && MergesOk(config, s0, tasks[..k], outs) && s == Execute(config, s0, tasks[..k], outs)
        invariant TreesOk(nodeSize, recSize, trees) && old(trees).Keys <= trees.Keys && Known(s.levels, trees.Keys)
        invariant forall t :: t in trees.Values ==> t in old(trees).Values || fresh(t)
        invariant NoEmptyShard(config, outs)
      {
        var done, out := BuildTask(s, tasks[k]);
        if !done {
          return false, outs, s;
        }
        ExecuteSnoc(config, s0, tasks[..k], outs, tasks[k], out);
        assert tasks[..k + 1] == tasks[..k] + [tasks[k]];
        s := ApplyTask(config, s, tasks[k], out);
        outs := outs + [out];
      }
      assert tasks[..|tasks|] == tasks;
    }

    /** The shard of a batch and, where leveling asks for it, its merge into level 0. */
    method BuildFlush(s: Structure, batch: seq<Wrapped>) returns (ok: bool, flushed: Shard, merged: Shard)
      requires Sizes() && TreesOk(nodeSize, recSize, trees) && Known(s.levels, trees.Keys) && Untagged(batch)
      modifies this`trees
      ensures TreesOk(nodeSize, recSize, trees) && old(trees).Keys <= trees.Keys
      ensures forall t :: t in trees.Values ==> t in old(trees).Values || fresh(t)
      ensures ok ==> FlushOk(config, s, batch, flushed, merged) && NoEmptyShard(config, [flushed])
      ensures ok && |s.levels| == |s.state| ==> Known(FlushInto(config, s, flushed, merged).levels, trees.Keys)
      ensures !ok ==> FlushStuck(config, s, batch)
    {
      hide TreesOk, Known, ShardOf, FlushInto, ConfigOk, MergedFrom, ISAMTree.Valid;
      var tree, out := ShardOfBatch(nodeSize, recSize, fanout, blank, batch, s.flushes);
      OneMoreTree(nodeSize, recSize, trees, out, tree);
      trees := trees[out := tree];
      flushed, merged := out, out;
      ok := !config.layout.BSM? || flushed.recs != [];
      KnownMore(s.levels, old(trees).Keys, trees.Keys);
      if config.layout.Leveling? && s.levels != [] && s.levels[0].shards != [] {
        ShardKnown(s.levels, trees.Keys, 0, 0);
        var keys := trees.Keys;
        ok, merged := MergeShards([s.levels[0].shards[0], flushed]);
        KnownMore(s.levels, keys, trees.Keys);
      }
      if ok && |s.levels| == |s.state| {
        FlushKnown(config, s, flushed, merged, trees.Keys);
      }
    }

    /** The shards of the planned tasks and then those of the batch. */
    method BuildAll(s0: Structure, tasks: seq<Task>, batch: seq<Wrapped>)
      returns (ok: bool, outs: seq<Shard>, s: Structure, flushed: Shard, merged: Shard)
      requires Sizes() && TreesOk(nodeSize, recSize, trees) && Known(s0.levels, trees.Keys) && Untagged(batch)
      modifies this`trees
      ensures TreesOk(nodeSize, recSize, trees) && old(trees).Keys <= trees.Keys
      ensures forall t :: t in trees.Values ==> t in old(trees).Values || fresh(t)
      ensures |outs| <= |tasks| && MergesOk(config, s0, tasks[..|outs|], outs)
      ensures s == Execute(config, s0, tasks[..|outs|], outs)
      ensures ok ==> |outs| == |tasks| && FlushOk(config, s, batch, flushed, merged)
      ensures ok ==> NoEmptyShard(config, outs) && NoEmptyShard(config, [flushed])
      ensures ok && |s.levels| == |s.state| ==> Known(FlushInto(config, s, flushed, merged).levels, trees.Keys)
      ensures !ok && |outs| == |tasks| ==> FlushStuck(config, s, batch)
      ensures !ok && |outs| < |tasks| ==> Stuck(config, s, tasks[|outs|])
    {
      hide *;
      flushed, merged := Shard([], 0, 0), Shard([], 0, 0);
      ok, outs, s := BuildTasks(s0, tasks);
      if ok {
        assert tasks[..|outs|] == tasks;
        ok, flushed, merged := BuildFlush(s, batch);
      }
    }

    /** The structure and what it plans. */
    method PlanNext() returns (s: Structure, tasks: seq<Task>)
      requires Valid()
      ensures s == structure.Value() && |s.levels| == |s.state| && tasks == Plan(config, s.state).0
    {
      GrownIsTold(config, cycles);
      SoundMatches(config, structure.Value());
      hide CyclesOk, Grow, TreesOk, Known, Plan, ConfigOk, Sound, Values;
      var levels := structure.Levels();
      s := Structure(levels, structure.state, structure.flushSeq);
      var ts, _ := structure.GetReconstructionTasks();
      tasks := ts;
    }

    /** Builds all shards of the next cycle. */
    method BuildCycle(batch: seq<Wrapped>) returns (ok: bool, y: Cycle)
      requires Valid() && Untagged(batch) && |batch| <= config.bufferSize
      modifies this`trees
      ensures TreesOk(nodeSize, recSize, trees) && old(trees).Keys <= trees.Keys
      ensures forall t :: t in trees.Values ==> t in old(trees).Values || fresh(t)
      ensures ok ==> y.batch == batch && CycleOk(config, structure.Value(), y)
      ensures ok ==> Known(RunCycle(config, structure.Value(), y).levels, trees.Keys)
      ensures !ok ==> SomeCancel(Batches(cycles) + [batch])
    {
      hide SomeCancel, CyclesOk, Grow, TreesOk, Known, Plan, RunCycle, ConfigOk, CycleOk, Values, AllValid, Separate;
      var s, tasks := PlanNext();
      ok, y := BuildOn(s, tasks, batch);
    }

    method BuildOn(s0: Structure, tasks: seq<Task>, batch: seq<Wrapped>) returns (ok: bool, y: Cycle)
      requires Sizes() && TreesOk(nodeSize, recSize, trees) && Known(s0.levels, trees.Keys) && Untagged(batch)
      requires CyclesOk(config, cycles) && s0 == Grow(config, cycles) && tasks == Plan(config, s0.state).0
      requires |batch| <= config.bufferSize
      modifies this`trees
      ensures TreesOk(nodeSize, recSize, trees) && old(trees).Keys <= trees.Keys
      ensures forall t :: t in trees.Values ==> t in old(trees).Values || fresh(t)
      ensures ok ==> y.batch == batch && CycleOk(config, s0, y) && Known(RunCycle(config, s0, y).levels, trees.Keys)
      ensures !ok ==> SomeCancel(Batches(cycles) + [batch])
    {
      GrownIsTold(config, cycles);
      hide AllTold, Stuck, FlushStuck, SomeCancel, CyclesOk, Grow, TreesOk, Known, Plan, Execute, MergesOk, FlushOk;
      hide FlushInto, RunCycle, ConfigOk, NoEmptyShard, CycleOk, Sound, AllShards;
      var outs, s, flushed, merged;
      ok, outs, s, flushed, merged := BuildAll(s0, tasks, batch);
      y := Cycle(batch, outs, flushed, merged);
      if ok {
        assert tasks[..|outs|] == tasks;
        CycleIsOk(config, s0, y, tasks, s);
      } else {
        CycleStuck(config, s0, Batches(cycles), batch, outs, s);
      }
    }

    /** Runs the cycle on the structure. */
    method Commit(y: Cycle)
      requires Sizes() && CyclesOk(config, cycles) && structure.Valid() && structure.Value() == Grow(config, cycles)
      requires CycleOk(config, structure.Value(), y)
      modifies this`cycles, structure, Objects(structure.levels)
      ensures cycles == old(cycles) + [y] && CyclesOk(config, cycles)
      ensures Flushed(cycles) == Flushed(old(cycles)) + y.batch
      ensures structure.Valid() && structure.Value() == Grow(config, cycles)
      ensures structure.Value() == RunCycle(config, old(structure.Value()), y)
      ensures fresh(Objects(structure.levels) - old(Objects(structure.levels)))
    {
      GrownIsTold(config, cycles);
      NextCycle(config, cycles, y);
      hide CyclesOk, Grow, RunCycle, Flushed, ConfigOk, CycleOk, Sound, BatchAdded, Values, AllValid, Separate, AllTold;
      structure.ReconstructAndFlush(y);
      cycles := cycles + [y];
    }

    /** Plans, reconstructs and flushes a batch on real trees. The structure is then the one that
        the laws are about, grown by one more cycle with this batch. It fails only if some
        consecutive flushes, this one included, cancel each other out: then a merge may meet a
        shard without records. */
    method Flush(batch: seq<Wrapped>) returns (ok: bool)
      requires Valid() && Untagged(batch) && |batch| <= config.bufferSize
      modifies this`trees, this`cycles, structure, Objects(structure.levels)
      ensures Valid()
      ensures forall t :: t in trees.Values ==> t in old(trees).Values || fresh(t)
      ensures fresh(Objects(structure.levels) - old(Objects(structure.levels)))
      ensures ok ==> Flushed(cycles) == Flushed(old(cycles)) + batch && |cycles| == |old(cycles)| + 1
      ensures !ok ==> cycles == old(cycles) && structure.Value() == old(structure.Value())
      ensures !SomeCancel(Batches(old(cycles)) + [batch]) ==> ok
    {
      hide SomeCancel, CyclesOk, Grow, TreesOk, Known, RunCycle, Flushed, ConfigOk, CycleOk, Values, AllValid, Separate;
      var y;
      ok, y := BuildCycle(batch);
      if ok {
        Commit(y);
      } else {
        KnownMore(structure.Value().levels, old(trees).Keys, trees.Keys);
      }
    }

    /** Scans the buffer and all trees. The answer is that of the whole history. */
    method Scan(buffer: seq<Wrapped>, lo: int, hi: int) returns (out: seq<Record>)
      requires Valid()
      ensures IsScan(Flushed(cycles) + buffer, lo, hi, out)
    {
      hide CyclesOk, Grow, IsScan, Flushed, ConfigOk, ISAMTree.Valid;
      var levels := structure.Levels();
      var ts := OpenTrees(levels);
      out := Collect(buffer, ts, lo, hi);
      ScanSeesHistory(config, cycles, buffer, lo, hi, out);
    }

    method OpenTrees(levels: seq<Level>) returns (ts: seq<ISAMTree>)
      requires TreesOk(nodeSize, recSize, trees) && Known(levels, trees.Keys)
      ensures Contents(ts) == OpenedRuns(levels) && forall t :: t in ts ==> t.Valid()
    {
      hide ISAMTree.Valid, TreesOk, Contents;
      if levels == [] {
        NoneOpened();
        return [];
      }
      var top := OpenShards(levels[0].shards);
      var rest := OpenTrees(levels[1..]);
      ts := top + rest;
      ContentsConcat(top, rest);
    }

    method OpenShards(shards: seq<Shard>) returns (ts: seq<ISAMTree>)
      requires TreesOk(nodeSize, recSize, trees) && forall k :: 0 <= k < |shards| ==> shards[k] in trees
      ensures Contents(ts) == ShardRecords(shards) && forall t :: t in ts ==> t.Valid()
    {
      hide ISAMTree.Valid;
      if shards == [] {
        return [];
      }
      var rest := OpenShards(shards[1..]);
      assert Builds(trees[shards[0]], nodeSize, recSize, shards[0]);
      ts := [trees[shards[0]]] + rest;
      assert ts[1..] == rest;
    }
  }

  lemma NoneEmpty()
    ensures !HasEmpty([])
  {
  }

  lemma CountsRecords(t: ISAMTree, nodeSize: nat, recSize: nat, shard: Shard)
    requires Builds(t, nodeSize, recSize, shard)
    ensures t.reccnt == |shard.recs|
  {
  }

  lemma NoTasks(c: Config, s: Structure)
    ensures MergesOk(c, s, [], []) && Execute(c, s, [], []) == s
  {
  }

  lemma OneMoreTree(nodeSize: nat, recSize: nat, trees: map<Shard, ISAMTree>, shard: Shard, tree: ISAMTree)
    requires TreesOk(nodeSize, recSize, trees) && Builds(tree, nodeSize, recSize, shard)
    ensures TreesOk(nodeSize, recSize, trees[shard := tree])
  {
  }

  lemma ShardKnown(levels: seq<Level>, known: set<Shard>, i: nat, k: nat)
    requires Known(levels, known) && i < |levels| && k < |levels[i].shards|
    ensures levels[i].shards[k] in known
  {
  }

  lemma SoundMatches(c: Config, s: Structure)
    requires Sound(c, s)
    ensures |s.levels| == |s.state|
  {
  }

  lemma NoneOpened()
    ensures Contents([]) == []
  {
  }

  lemma {:induction false} ContentsConcat(a: seq<ISAMTree>, b: seq<ISAMTree>)
    ensures Contents(a + b) == Contents(a) + Contents(b)
  {
  }

  /** Some flushes of the history, or the batch with some before it, cancel where the planned
      merges or the flush of the batch come upon a shard without records. */
  lemma CycleStuck(c: Config, s0: Structure, bs: seq<seq<Wrapped>>, batch: seq<Wrapped>, outs: seq<Shard>, s: Structure)
    requires ConfigOk(c) && Sound(c, s0) && AllTold(bs, AllShards(s0.levels)) && s0.flushes == |bs|
    requires RunSoFar(c, s0, outs, s)
    requires if |outs| == |Plan(c, s0.state).0| then FlushStuck(c, s, batch)
             else Stuck(c, s, Plan(c, s0.state).0[|outs|])
    ensures SomeCancel(bs + [batch])
  {
    hide AllTold, Stuck, FlushStuck, SomeCancel, Plan, Execute, MergesOk, ConfigOk, Sound, AllShards;
    var tasks := Plan(c, s0.state).0;
    if |outs| < |tasks| {
      StuckCancels(c, s0, outs, s, bs);
      CancelLater(bs, batch);
    } else {
      assert tasks[..|outs|] == tasks;
      PlanTold(c, s0, outs, s, bs);
      ExecuteKeepsFlushes(c, s0, tasks, outs);
      FlushStuckCancels(c, s, batch, bs);
    }
  }

  /** What was built makes a cycle of the laws. */
  lemma CycleIsOk(c: Config, s0: Structure, y: Cycle, tasks: seq<Task>, s: Structure)
    requires ConfigOk(c) && Sound(c, s0) && tasks == Plan(c, s0.state).0
    requires |y.outs| == |tasks| && MergesOk(c, s0, tasks, y.outs) && s == Execute(c, s0, tasks, y.outs)
    requires FlushOk(c, s, y.batch, y.flushed, y.merged) && |y.batch| <= c.bufferSize
    requires NoEmptyShard(c, y.outs) && NoEmptyShard(c, [y.flushed])
    ensures CycleOk(c, s0, y) && |s.levels| == |s.state| && RunCycle(c, s0, y) == FlushInto(c, s, y.flushed, y.merged)
  {
    hide Plan, Execute, MergesOk, FlushOk, FlushInto, Sound;
    PreparedMatches(c, s0, y);
  }

  lemma NextCycle(c: Config, ys: seq<Cycle>, y: Cycle)
    requires ConfigOk(c) && CyclesOk(c, ys) && CycleOk(c, Grow(c, ys), y)
    ensures CyclesOk(c, ys + [y]) && Grow(c, ys + [y]) == RunCycle(c, Grow(c, ys), y)
    ensures Flushed(ys + [y]) == Flushed(ys) + y.batch
  {
    hide CycleOk, RunCycle;
    assert (ys + [y])[..|ys|] == ys;
  }

  lemma PreparedMatches(c: Config, s: Structure, y: Cycle)
    requires ConfigOk(c) && Sound(c, s) && CycleOk(c, s, y)
    ensures |Prepared(c, s, y).levels| == |Prepared(c, s, y).state|
  {
    hide Prepared, CycleOk;
    CycleKeepsSound(c, s, y);
  }
}
