/** The hierarchy of levels as the code runs it: a planner that updates a scratch state in
    loops, and an executor that changes and replaces level objects. Each method is proved equal
    to the function that the laws are about. */
module StructureExecutor {
  import opened Records
  import opened ExtensionStructures
  import opened InternalLevels
  import opened ShardOrder
  import opened PlannerProofs
  import opened PlannerBentleySaxe
  import opened PlannerRuns
  import opened StructureRuns
  import opened StructureLaws

  // ---------------------------------------------------------------------------
  // The planner's loops
  // ---------------------------------------------------------------------------

  /** The first level below level 0 that can take its records, or -1. */
  method FindReconstructionTarget(c: Config, state: seq<LevelState>) returns (target: int)
    ensures target == if state == [] || FindFrom(c, state, 1).None? then -1 else FindFrom(c, state, 1).value
  {
    if |state| == 0 {
      return -1;
    }
    var i := 1;
    while i < |state|
      invariant 1 <= i <= |state| && FindFrom(c, state, i) == FindFrom(c, state, 1)
      decreases |state| - i
    {
      if CanReconstructWith(c, state, i, state[0].reccnt) {
        return i;
      }
      i := i + 1;
    }
    return -1;
  }

  /** The tasks of the tiering and leveling layouts. */
  method PlanCascade(c: Config, state: seq<LevelState>, base: nat) returns (tasks: seq<Task>, scratch: seq<LevelState>)
    requires base < |state|
    ensures (tasks, scratch) == Cascade(c, state, base)
  {
    tasks, scratch := [], state;
    var i: nat := base;
    assert tasks + Cascade(c, scratch, i).0 == Cascade(c, state, base).0;
    while i > 0
      invariant i <= base && |scratch| == |state|
      invariant tasks + Cascade(c, scratch, i).0 == Cascade(c, state, base).0
      invariant Cascade(c, scratch, i).1 == Cascade(c, state, base).1
    {
      ghost var before, next := scratch, MoveUp(c, scratch, i);
      var moved := scratch[i - 1].reccnt;
      tasks := tasks + [Task([i - 1], i)];
      scratch := scratch[i - 1 := scratch[i - 1].(reccnt := 0, shardcnt := 0)];
      scratch := scratch[i := scratch[i].(reccnt := scratch[i].reccnt + moved)];
      if c.layout.Tiering? || scratch[i].shardcnt == 0 {
        scratch := scratch[i := scratch[i].(shardcnt := scratch[i].shardcnt + 1)];
      }
      assert scratch == next;
      assert Cascade(c, before, i).0 == [Task([i - 1], i)] + Cascade(c, next, i - 1).0;
      i := i - 1;
    }
    assert tasks + [] == tasks;
  }

  /** The one task of the Bentley-Saxe layout. */
  method PlanFlatten(c: Config, state: seq<LevelState>, base: nat) returns (task: Task, scratch: seq<LevelState>)
    requires base < |state|
    ensures task == Task(Downward(base), base) && scratch == MergeAllInto(state, base)
  {
    hide SumReccnt, MergeAllInto;
    var sources: seq<nat>, reccnt: nat, i: nat := [], 0, base;
    scratch := state;
    while i > 0
      invariant i <= base && |scratch| == |state| && |sources| == base - i
      invariant forall k :: 0 <= k < |sources| ==> sources[k] == base - 1 - k
      invariant reccnt + SumReccnt(state[..i]) == SumReccnt(state[..base])
      invariant forall j :: 0 <= j < |state| ==>
                  scratch[j] == if i <= j < base then state[j].(reccnt := 0, shardcnt := 0) else state[j]
    {
      assert state[..i] == state[..i - 1] + [state[i - 1]];
      SumSnoc(state[..i - 1], state[i - 1]);
      var moved := scratch[i - 1].reccnt;
      reccnt := reccnt + moved;
      scratch := scratch[i - 1 := scratch[i - 1].(reccnt := 0, shardcnt := 0)];
      sources := sources + [i - 1];
      i := i - 1;
    }
    task := Task(sources, base);
    NoRecords(state);
    scratch := scratch[base := scratch[base].(reccnt := reccnt, shardcnt := 1)];
    Flattened(state, base, scratch);
  }

  lemma NoRecords(state: seq<LevelState>)
    ensures SumReccnt(state[..0]) == 0
  {
  }

  lemma Flattened(state: seq<LevelState>, base: nat, scratch: seq<LevelState>)
    requires base < |state| == |scratch|
    requires forall j :: 0 <= j < base ==> scratch[j] == state[j].(reccnt := 0, shardcnt := 0)
    requires scratch[base] == state[base].(reccnt := SumReccnt(state[..base]), shardcnt := 1)
    requires forall j :: base < j < |state| ==> scratch[j] == state[j]
    ensures scratch == MergeAllInto(state, base)
  {
  }

  // ---------------------------------------------------------------------------
  // The structure
  // ---------------------------------------------------------------------------

  /** What level objects hold. */
  ghost function Values(levels: seq<InternalLevel>): (values: seq<Level>)
    requires AllValid(levels)
    reads levels
    ensures |values| == |levels| && forall i :: 0 <= i < |levels| ==> values[i] == levels[i].Value()
  {
    seq(|levels|, i requires 0 <= i < |levels| && AllValid(levels) reads levels => levels[i].Value())
  }

  ghost function Objects(levels: seq<InternalLevel>): set<InternalLevel> {
    set l | l in levels
  }

  ghost predicate AllValid(levels: seq<InternalLevel>)
    reads levels
  {
    forall i :: 0 <= i < |levels| ==> levels[i].Valid()
  }

  ghost predicate Separate(levels: seq<InternalLevel>) {
    forall i, j :: 0 <= i < j < |levels| ==> levels[i] != levels[j]
  }

  /** The levels without the shards that wait; copying loses these. */
  function Dropped(levels: seq<Level>): (out: seq<Level>)
    ensures |out| == |levels| && forall i :: 0 <= i < |levels| ==> out[i] == levels[i].(pending := None)
  {
    seq(|levels|, i requires 0 <= i < |levels| => levels[i].(pending := None))
  }

  class ExtensionStructure {
    const config: Config
    var levels: seq<InternalLevel>
    var state: seq<LevelState>
    var flushSeq: nat

    /** No two levels are the same object. */
    ghost predicate Valid()
      reads this, levels
    {
      AllValid(levels) && Separate(levels)
    }

    ghost function Value(): Structure
      requires Valid()
      reads this, levels
    {
      Structure(Values(levels), state, flushSeq)
    }

    constructor (config: Config)
      ensures this.config == config && Valid() && Value() == EMPTY_STRUCTURE && levels == []
    {
      this.config, levels, state, flushSeq := config, [], [], 0;
    }

    constructor Of(config: Config, levels: seq<InternalLevel>, state: seq<LevelState>, flushSeq: nat)
      requires AllValid(levels) && Separate(levels)
      ensures this.config == config && this.levels == levels && Valid()
      ensures Value() == Structure(Values(levels), state, flushSeq)
    {
      this.config, this.levels, this.state, this.flushSeq := config, levels, state, flushSeq;
    }

    /** A copy with levels of its own. */
    method Copy() returns (copy: ExtensionStructure)
      requires Valid()
      ensures fresh(copy) && copy.Valid() && fresh(Objects(copy.levels)) && copy.config == config
      ensures copy.Value() == Value().(levels := Dropped(Value().levels))
    {
      var ls := CloneLevels();
      hide AllValid, Separate, Values, Dropped;
      copy := new ExtensionStructure.Of(config, ls, state, flushSeq);
    }

    method CloneLevels() returns (ls: seq<InternalLevel>)
      requires Valid()
      ensures AllValid(ls) && Separate(ls) && fresh(Objects(ls)) && Values(ls) == Dropped(Value().levels)
    {
      ls := [];
      for i := 0 to |levels|
        invariant |ls| == i && AllValid(ls) && Separate(ls) && forall l :: l in ls ==> fresh(l)
        invariant forall j :: 0 <= j < i ==> ls[j].Value() == levels[j].Value().(pending := None)
      {
        var l := levels[i].Clone();
        ls := ls + [l];
      }
    }

    /** The levels, read out. */
    method Levels() returns (values: seq<Level>)
      requires Valid()
      ensures values == Values(levels)
    {
      values := [];
      for i := 0 to |levels|
        invariant |values| == i && forall j :: 0 <= j < i ==> values[j] == levels[j].Value()
      {
        var v := levels[i].Read();
        values := values + [v];
      }
    }

    /** Plans the reconstructions that make room in level 0 for a full buffer. */
    method GetReconstructionTasks() returns (tasks: seq<Task>, ghost scratch: seq<LevelState>)
      requires |levels| == |state|
      ensures (tasks, scratch) == Plan(config, state)
    {
      hide FindFrom, Cascade, MergeAllInto;
      tasks, scratch := [], state;
      if CanReconstructWith(config, state, 0, config.bufferSize) {
        return;
      }
      var target := FindReconstructionTarget(config, state);
      var s := state;
      if target == -1 {
        target := |levels|;
        s := s + [NewState(config, target)];
      }
      assert target == BaseLevel(config, state) && s == Grown(config, state, target);
      if config.layout.BSM? {
        scratch := s;
        if target == 0 {
          return;
        }
        var task, after := PlanFlatten(config, s, target);
        tasks, scratch := [task], after;
      } else {
        var after;
        tasks, after := PlanCascade(config, s, target);
        scratch := after;
      }
    }

    method AddLevel(i: nat)
      requires Valid() && |levels| == |state|
      modifies this`levels, this`state
      ensures Valid() && Value() == WithLevel(config, old(Value()), i) && |levels| == |state|
      ensures fresh(Objects(levels) - old(Objects(levels)))
    {
      if i >= |levels| {
        var level := new InternalLevel(i, ShardCap(config));
        levels := levels + [level];
        state := state + [NewState(config, i)];
        assert Values(levels) == old(Values(levels)) + [NewLevel(config, i)];
      }
    }

    /** Puts another object in the place of a level. */
    method Replace(i: nat, level: InternalLevel)
      requires Valid() && i < |levels| && level.Valid() && level !in levels
      modifies this`levels
      ensures Valid() && |levels| == |old(levels)| && levels == old(levels)[i := level] && old(levels)[i] !in levels
      ensures Values(levels) == old(Values(levels))[i := level.Value()]
      ensures Objects(levels) <= old(Objects(levels)) + {level}
    {
      levels := levels[i := level];
    }

    method Renew(i: nat, cap: nat)
      requires Valid() && i < |levels|
      modifies this`levels
      ensures Valid() && |levels| == |old(levels)| && old(levels)[i] !in levels
      ensures Values(levels) == old(Values(levels))[i := Level(i, cap, [], None)]
      ensures fresh(Objects(levels) - old(Objects(levels)))
    {
      var level := new InternalLevel(i, cap);
      Replace(i, level);
    }

    method ReadLevel(i: nat) returns (level: Level)
      requires Valid() && i < |levels|
      ensures level == Values(levels)[i]
    {
      level := levels[i].Read();
    }

    /** Combines two adjacent levels; `out` is the shard that the merge builds. */
    method ReconstructLevels(base: nat, incoming: nat, out: Shard)
      requires Valid() && |levels| == |state| && base <= |levels| && incoming < |levels| && base != incoming
      requires ShardCap(config) >= 1 && Settled(config, Value())
      modifies this`levels, this`state, Objects(levels)
      ensures Valid() && |levels| == |state| && Settled(config, Value())
      ensures Value() == Reconstruct(config, WithLevel(config, old(Value()), base), base, incoming, out)
      ensures fresh(Objects(levels) - old(Objects(levels)))
    {
      ghost var s := Value();
      StateFollows(config, WithLevel(config, s, base), base, incoming, out);
      hide AllValid, Separate, Values, Settled, Reconstruct, StateOf;
      GrowAndCombine(base, incoming, out);
      UpdateState(base, incoming);
      StaysSettled(config, s, base, incoming, out);
    }

    method GrowAndCombine(base: nat, incoming: nat, out: Shard)
      requires Valid() && |levels| == |state| && base <= |levels| && incoming < |levels| && base != incoming
      requires ShardCap(config) >= 1 && Settled(config, Value())
      modifies this`levels, this`state, Objects(levels)
      ensures var g := WithLevel(config, old(Value()), base);
              && Valid() && |levels| == |state| && state == g.state
              && Values(levels) == Reconstruct(config, g, base, incoming, out).levels
      ensures fresh(Objects(levels) - old(Objects(levels)))
    {
      StaysSettled(config, Value(), base, incoming, out);
      hide AllValid, Separate, Values, Settled, Reconstruct;
      AddLevel(base);
      CombineLevels(base, incoming, out);
    }

    method UpdateState(base: nat, incoming: nat)
      requires Valid() && |levels| == |state| && base < |levels| && incoming < |levels|
      modifies this`state
      ensures Valid() && Values(levels) == old(Values(levels))
      ensures var top := StateOf(config, Values(levels)[base], base);
              state == old(state)[base := top][incoming := NewState(config, incoming)]
    {
      var target := ReadLevel(base);
      state := state[base := StateOf(config, target, base)];
      state := state[incoming := NewState(config, incoming)];
    }

    /** The level objects of such a combination. */
    method CombineLevels(base: nat, incoming: nat, out: Shard)
      requires Valid() && |levels| == |state| && base < |levels| && incoming < |levels| && base != incoming
      requires ShardCap(config) >= 1 && Settled(config, Value())
      modifies this`levels, Objects(levels)
      ensures Valid() && |levels| == |old(levels)|
      ensures Values(levels) == Reconstruct(config, old(Value()), base, incoming, out).levels
      ensures fresh(Objects(levels) - old(Objects(levels)))
    {
      hide Separate, Values, InternalLevel.Valid;
      if config.layout.Leveling? {
        if levels[base].shardCnt > 0 {
          var single := new InternalLevel.Single(levels[base].no, out);
          Replace(base, single);
          Renew(incoming, ShardCap(config));
        } else {
          var source := levels[incoming];
          Renew(incoming, ShardCap(config));
          Replace(base, source);
        }
      } else {
        AppendInto(base, incoming, out);
        Renew(incoming, ShardCap(config));
      }
    }

    method AppendInto(base: nat, incoming: nat, out: Shard)
      requires Valid() && base < |levels| && incoming < |levels| && base != incoming
      requires !config.layout.Leveling? && Settled(config, Value())
      modifies Objects(levels)
      ensures Valid()
      ensures var before := old(Values(levels));
              Values(levels) == before[base := AppendLevel(before[base], before[incoming], out)]
    {
      ghost var before := Values(levels);
      levels[base].AppendAndFinalize(levels[incoming], out);
      assert forall i :: 0 <= i < |levels| && i != base ==> levels[i].Value() == before[i];
    }

    /** Flattens several levels into one; `out` is the shard that the merge builds. */
    method ReconstructTask(task: Task, out: Shard)
      requires Valid() && Settled(config, Value())
      requires config.layout.BSM? && TaskFits(config, Value(), task) && task.target !in task.sources
      modifies this`levels, this`state
      ensures Valid() && |levels| == |state| && Settled(config, Value())
      ensures Value() == ReconstructAll(config, WithLevel(config, old(Value()), task.target), task, out)
      ensures fresh(Objects(levels) - old(Objects(levels)))
    {
      ghost var g := WithLevel(config, Value(), task.target);
      hide AllValid, Separate, Values, Settled, ReconstructAll;
      PlaceTarget(task.target, out, LevelState(|out.recs|, RecordCap(config, task.target), 1, 1));
      EmptySources(task.sources, RecordCap(config, task.target));
      FlattenedIs(config, g, task, out, Value());
      FlattenSettled(config, old(Value()), task, out);
    }

    method EmptySources(sources: seq<nat>, reccap: nat)
      requires Valid() && |levels| == |state| && forall k :: 0 <= k < |sources| ==> sources[k] < |levels|
      modifies this`levels, this`state
      ensures Valid() && |levels| == |state| == |old(levels)|
      ensures forall j :: 0 <= j < |levels| ==>
                && Values(levels)[j] == (if j in sources then Level(j, 1, [], None) else old(Values(levels))[j])
                && state[j] == if j in sources then LevelState(0, reccap, 0, 1) else old(state)[j]
      ensures fresh(Objects(levels) - old(Objects(levels)))
    {
      hide AllValid, Separate, Values;
      for i := 0 to |sources|
        invariant Valid() && |levels| == |state| == |old(levels)| && fresh(Objects(levels) - old(Objects(levels)))
        invariant forall j :: 0 <= j < |levels| ==>
                    && Values(levels)[j]
                       == (if j in sources[..i] then Level(j, 1, [], None) else old(Values(levels))[j])
                    && state[j] == if j in sources[..i] then LevelState(0, reccap, 0, 1) else old(state)[j]
      {
        var k := sources[i];
        assert sources[..i + 1] == sources[..i] + [k];
        Renew(k, 1);
        state := state[k := LevelState(0, reccap, 0, 1)];
      }
      assert sources[..|sources|] == sources;
    }

    method PlaceTarget(target: nat, out: Shard, entry: LevelState)
      requires Valid() && |levels| == |state| && target <= |levels|
      modifies this`levels, this`state
      ensures Valid() && |levels| == |state| == if target < |old(levels)| then |old(levels)| else target + 1
      ensures fresh(Objects(levels) - old(Objects(levels)))
      ensures forall j :: 0 <= j < |levels| ==>
                && Values(levels)[j] == (if j == target then Level(target, 1, [out], None) else old(Values(levels))[j])
                && state[j] == if j == target then entry else old(state)[j]
    {
      var level := new InternalLevel.Single(target, out);
      if target >= |levels| {
        levels, state := levels + [level], state + [entry];
      } else {
        levels, state := levels[target := level], state[target := entry];
      }
    }

    /** One planned task. */
    method RunTask(task: Task, out: Shard)
      requires Valid() && Settled(config, Value()) && ShardCap(config) >= 1
      requires TaskFits(config, Value(), task) && task.target !in task.sources
      modifies this`levels, this`state, Objects(levels)
      ensures Valid() && |levels| == |state| && Settled(config, Value())
      ensures Value() == ApplyTask(config, old(Value()), task, out)
      ensures fresh(Objects(levels) - old(Objects(levels)))
    {
      hide Reconstruct, ReconstructAll;
      if config.layout.BSM? {
        ReconstructTask(task, out);
      } else {
        ReconstructLevels(task.target, task.sources[0], out);
      }
    }

    /** Flushes a batch; `out` is its shard, `merged` its merge with the shard in level 0
        that leveling asks for. The assertion of the code is the precondition. */
    method FlushBuffer(ghost batch: seq<Wrapped>, out: Shard, merged: Shard)
      requires Valid() && |levels| == |state| && RoomFor(config, Value(), |batch|)
      modifies this, Objects(levels)
      ensures Valid() && Value() == FlushInto(config, old(Value()), out, merged)
      ensures fresh(Objects(levels) - old(Objects(levels)))
    {
      hide RoomFor, AllValid, Separate, Values;
      FlushLevel(out, merged);
      UpdateTop();
    }

    method UpdateTop()
      requires Valid() && |levels| == |state| && levels != []
      modifies this`state, this`flushSeq
      ensures Valid() && Values(levels) == old(Values(levels)) && flushSeq == old(flushSeq) + 1
      ensures var shards := Values(levels)[0].shards;
              state == old(state)[0 := old(state)[0].(reccnt := RecordCount(shards), shardcnt := |shards|)]
    {
      var level := ReadLevel(0);
      state := state[0 := state[0].(reccnt := RecordCount(level.shards), shardcnt := |level.shards|)];
      flushSeq := flushSeq + 1;
    }

    /** The level object of such a flush. */
    method FlushLevel(out: Shard, merged: Shard)
      requires Valid() && |levels| == |state|
      modifies this`levels, this`state, Objects(levels)
      ensures Valid() && |levels| == |state| && levels != [] && state == WithLevel(config, old(Value()), 0).state
      ensures Values(levels) == FlushInto(config, old(Value()), out, merged).levels
      ensures fresh(Objects(levels) - old(Objects(levels)))
    {
      hide AllValid, Separate, Values;
      AddLevel(0);
      if config.layout.Leveling? {
        ReplaceTop(out, merged);
      } else {
        AppendTop(out);
      }
    }

    method ReplaceTop(out: Shard, merged: Shard)
      requires Valid() && levels != []
      modifies this`levels
      ensures Valid() && |levels| == |old(levels)| && fresh(Objects(levels) - old(Objects(levels)))
      ensures var top := old(Values(levels))[0];
              Values(levels) == old(Values(levels))[0 := if top.shards != [] then Level(top.no, 1, [merged], None)
                                                         else Level(0, 1, [out], None)]
    {
      hide Separate, Values;
      var level;
      if levels[0].shardCnt > 0 {
        level := new InternalLevel.Single(levels[0].no, merged);
      } else {
        level := new InternalLevel(0, 1);
        level.AppendFlushed(out);
        assert [] + [out] == [out];
      }
      Replace(0, level);
    }

    method AppendTop(out: Shard)
      requires Valid() && levels != []
      modifies Objects(levels)
      ensures Valid() && Values(levels) == old(Values(levels))[0 := AppendBuffer(old(Values(levels))[0], out)]
    {
      ghost var before := Values(levels);
      levels[0].AppendFlushed(out);
      assert forall i :: 1 <= i < |levels| ==> levels[i].Value() == before[i];
    }

    /** A whole cycle: plan, reconstruct, flush. Whatever the layout, the assertion before the
        flush holds, the structure stays sound, and exactly the batch is added. */
    method ReconstructAndFlush(y: Cycle)
      requires Valid() && ConfigOk(config) && Sound(config, Value()) && CycleOk(config, Value(), y)
      modifies this, Objects(levels)
      ensures Valid() && Value() == RunCycle(config, old(Value()), y)
      ensures Sound(config, Value()) && BatchAdded(old(Value()), y.batch, Value())
      ensures fresh(Objects(levels) - old(Objects(levels)))
    {
      ghost var s := Value();
      CycleKeepsSound(config, s, y);
      CycleFacts(config, s, y);
      hide Plan, Execute, MergesOk, TasksSafe, Sound, CycleOk, PlanDone, RoomFor, FlushInto, RunCycle, BatchAdded;
      hide ConfigOk, Settled, Values, NoSelfMerge, AllValid, Separate;
      Prepare(y.outs);
      FlushBuffer(y.batch, y.flushed, y.merged);
    }

    /** Makes room in level 0 for a full buffer. */
    method Prepare(outs: seq<Shard>)
      requires Valid() && Settled(config, Value()) && ShardCap(config) >= 1 && |levels| == |state|
      requires var tasks := Plan(config, state).0;
               |outs| == |tasks| && TasksSafe(config, Value(), tasks, outs) && NoSelfMerge(tasks)
      modifies this`levels, this`state, Objects(levels)
      ensures Valid() && |levels| == |state|
      ensures Value() == Execute(config, old(Value()), Plan(config, old(state)).0, outs)
      ensures fresh(Objects(levels) - old(Objects(levels)))
    {
      hide Plan, Execute, TasksSafe, Settled, Values, NoSelfMerge, AllValid, Separate;
      var tasks, _ := GetReconstructionTasks();
      RunTasks(tasks, outs);
    }

    /** A cycle on a copy: nothing that existed before is changed, this structure and its levels
        included. */
    method RestructureCopy(y: Cycle) returns (copy: ExtensionStructure)
      requires Valid() && ConfigOk(config) && Sound(config, Value()) && CycleOk(config, Value(), y)
      ensures fresh(copy) && copy.Valid() && fresh(Objects(copy.levels)) && copy.config == config
      ensures copy.Value() == RunCycle(config, Value(), y) && Sound(config, copy.Value())
      ensures BatchAdded(Value(), y.batch, copy.Value())
    {
      hide ConfigOk, Sound, CycleOk, RunCycle, BatchAdded, AllValid, Separate, Values;
      copy := ExactCopy();
      copy.ReconstructAndFlush(y);
    }

    method ExactCopy() returns (copy: ExtensionStructure)
      requires Valid() && ConfigOk(config) && Sound(config, Value())
      ensures fresh(copy) && copy.Valid() && fresh(Objects(copy.levels)) && copy.config == config
      ensures copy.Value() == Value()
    {
      hide ConfigOk, Sound, AllValid, Separate, Values, Dropped, Settled;
      SoundIsSettled(config, Value());
      NothingDropped(config, Value());
      copy := Copy();
    }

    method RunTasks(tasks: seq<Task>, outs: seq<Shard>)
      requires Valid() && Settled(config, Value()) && ShardCap(config) >= 1
      requires |tasks| == |outs| && |levels| == |state| && TasksSafe(config, Value(), tasks, outs) && NoSelfMerge(tasks)
      modifies this`levels, this`state, Objects(levels)
      ensures Valid() && Value() == Execute(config, old(Value()), tasks, outs) && |levels| == |state|
      ensures fresh(Objects(levels) - old(Objects(levels)))
      decreases |tasks|
    {
      hide ApplyTask, Settled, Values;
      if tasks != [] {
        RunTask(tasks[0], outs[0]);
        RunTasks(tasks[1..], outs[1..]);
      }
    }
  }

  /** No level has a shard waiting, and each has a slot. */
  ghost predicate Settled(c: Config, s: Structure) {
    forall i :: 0 <= i < |s.levels| ==> s.levels[i].pending.None? && (c.layout.Leveling? || s.levels[i].cap >= 1)
  }

  lemma SoundIsSettled(c: Config, s: Structure)
    requires ConfigOk(c) && Sound(c, s)
    ensures Settled(c, s)
  {
    hide Tiled, AllShards;
    forall i | 0 <= i < |s.levels| ensures s.levels[i].pending.None? && (c.layout.Leveling? || s.levels[i].cap >= 1) {
      assert LevelOk(c, s.levels[i], s.state[i], i);
    }
  }

  lemma StateFollows(c: Config, s: Structure, base: nat, incoming: nat, out: Shard)
    requires |s.levels| == |s.state| && base < |s.levels| && incoming < |s.levels| && base != incoming
    ensures var s' := Reconstruct(c, s, base, incoming, out);
            && |s'.levels| == |s.levels| && s'.flushes == s.flushes
            && s'.state == s.state[base := StateOf(c, s'.levels[base], base)][incoming := NewState(c, incoming)]
  {
  }

  lemma NothingDropped(c: Config, s: Structure)
    requires Settled(c, s)
    ensures Dropped(s.levels) == s.levels
  {
  }

  lemma FlattenedIs(c: Config, g: Structure, task: Task, out: Shard, s: Structure)
    requires |g.levels| == |g.state| == |s.levels| == |s.state| && task.target < |g.levels| && s.flushes == g.flushes
    requires forall j :: 0 <= j < |s.levels| ==>
               && s.levels[j] == (if j in task.sources then Level(j, 1, [], None)
                                  else if j == task.target then Level(j, 1, [out], None) else g.levels[j])
               && s.state[j] == (if j in task.sources then LevelState(0, RecordCap(c, task.target), 0, 1)
                                 else if j == task.target then LevelState(|out.recs|, RecordCap(c, task.target), 1, 1)
                                 else g.state[j])
    ensures s == ReconstructAll(c, g, task, out)
  {
    var t := ReconstructAll(c, g, task, out);
    assert s.levels == t.levels && s.state == t.state;
  }

  lemma FlattenSettled(c: Config, s: Structure, task: Task, out: Shard)
    requires Settled(c, s) && TaskFits(c, s, task)
    ensures Settled(c, ReconstructAll(c, WithLevel(c, s, task.target), task, out))
  {
  }

  lemma StaysSettled(c: Config, s: Structure, base: nat, incoming: nat, out: Shard)
    requires |s.levels| == |s.state| && base <= |s.levels| && incoming < |s.levels|
    requires Settled(c, s) && ShardCap(c) >= 1
    ensures Settled(c, WithLevel(c, s, base))
    ensures Settled(c, Reconstruct(c, WithLevel(c, s, base), base, incoming, out))
  {
  }

  ghost predicate NoSelfMerge(tasks: seq<Task>) {
    forall k :: 0 <= k < |tasks| ==> tasks[k].target !in tasks[k].sources
  }

  lemma {:induction false} CascadeTasks(c: Config, state: seq<LevelState>, i: nat)
    requires i < |state|
    ensures NoSelfMerge(Cascade(c, state, i).0)
    decreases i
  {
    if i > 0 {
      CascadeTasks(c, MoveUp(c, state, i), i - 1);
    }
  }

  lemma CycleFacts(c: Config, s: Structure, y: Cycle)
    requires ConfigOk(c) && Sound(c, s) && CycleOk(c, s, y) && PlanDone(c, s, Prepared(c, s, y))
    ensures |s.levels| == |s.state| && NoSelfMerge(Plan(c, s.state).0) && |y.outs| == |Plan(c, s.state).0|
    ensures Prepared(c, s, y) == Execute(c, s, Plan(c, s.state).0, y.outs)
    ensures RoomFor(c, Prepared(c, s, y), |y.batch|) && Settled(c, s) && ShardCap(c) >= 1
  {
    SoundIsSettled(c, s);
    hide Execute, MergesOk, Tiled, ShardsNet, AllShards, MergeAllInto, FindFrom, LevelOk, Foreseen, Settled;
    var base := BaseLevel(c, s.state);
    if !c.layout.BSM? {
      CascadeTasks(c, Grown(c, s.state, base), base);
    }
  }
}
