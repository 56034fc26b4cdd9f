/** The hierarchy of levels: what the planner decides on its scratch state, and what the
    executor then does to the real levels, for the three layout policies. */
module ExtensionStructures {
  import opened Records
  import opened Numerals

  datatype Layout = Tiering | Leveling | BSM

  datatype Config = Config(layout: Layout, scale: nat, bufferSize: nat)

  /** A shard and the flushes it stems from, numbered first, ..., last - 1. */
  datatype Shard = Shard(recs: seq<Wrapped>, first: nat, last: nat)

  /** A level with room for `cap` shards, oldest first. A shard that finds no room is left
      pending, where no query sees it. */
  datatype Level = Level(no: nat, cap: nat, shards: seq<Shard>, pending: Option<Shard>)

  datatype LevelState = LevelState(reccnt: nat, reccap: nat, shardcnt: nat, shardcap: nat)

  datatype Structure = Structure(levels: seq<Level>, state: seq<LevelState>, flushes: nat)

  datatype Task = Task(sources: seq<nat>, target: nat)

  const EMPTY_STRUCTURE := Structure([], [], 0)

  function RecordCap(c: Config, i: nat): nat {
    c.bufferSize * Pow(c.scale, i + 1)
  }

  function ShardCap(c: Config): nat {
    if c.layout.Leveling? then 1 else c.scale
  }

  function NewLevel(c: Config, i: nat): Level {
    Level(i, ShardCap(c), [], None)
  }

  function NewState(c: Config, i: nat): LevelState {
    LevelState(0, RecordCap(c, i), 0, ShardCap(c))
  }

  function RecordCount(shards: seq<Shard>): nat {
    if shards == [] then 0 else |shards[0].recs| + RecordCount(shards[1..])
  }

  /** All visible shards, oldest first: the deepest level holds the oldest ones. */
  function AllShards(levels: seq<Level>): seq<Shard> {
    if levels == [] then [] else AllShards(levels[1..]) + levels[0].shards
  }

  function ShardsNet(shards: seq<Shard>, r: Record): int {
    if shards == [] then 0 else Net(shards[0].recs, r) + ShardsNet(shards[1..], r)
  }

  // ---------------------------------------------------------------------------
  // The planner
  // ---------------------------------------------------------------------------

  predicate CanReconstructWith(c: Config, state: seq<LevelState>, i: nat, incoming: nat) {
    i < |state| &&
    match c.layout
    case Leveling => state[i].reccnt + incoming <= state[i].reccap
    case BSM => state[i].reccnt == 0
    case Tiering => state[i].shardcnt < state[i].shardcap
  }

  /** The first level from `i` on that can take the records of level 0. */
  function FindFrom(c: Config, state: seq<LevelState>, i: nat): (found: Option<nat>)
    requires |state| > 0
    ensures found.Some? ==> i <= found.value < |state| && CanReconstructWith(c, state, found.value, state[0].reccnt)
    ensures forall j :: i <= j < (if found.Some? then found.value else |state|) ==>
              !CanReconstructWith(c, state, j, state[0].reccnt)
    decreases |state| - i
  {
    if i >= |state| then None
    else if CanReconstructWith(c, state, i, state[0].reccnt) then Some(i)
    else FindFrom(c, state, i + 1)
  }

  /** The level that the plan starts from; if none has room, a new one at the bottom. */
  function BaseLevel(c: Config, state: seq<LevelState>): (base: nat)
    ensures base <= |state| && (state != [] ==> 1 <= base)
  {
    if state == [] then 0
    else match FindFrom(c, state, 1)
      case None => |state|
      case Some(i) => i
  }

  function Grown(c: Config, state: seq<LevelState>, base: nat): seq<LevelState> {
    if base >= |state| then state + [NewState(c, |state|)] else state
  }

  /** Simulates moving level i - 1 into level i. */
  function MoveUp(c: Config, state: seq<LevelState>, i: nat): seq<LevelState>
    requires 1 <= i < |state|
  {
    var moved := state[i - 1].reccnt;
    var target := state[i].(reccnt := state[i].reccnt + moved,
                            shardcnt := if c.layout.Tiering? || state[i].shardcnt == 0 then state[i].shardcnt + 1
                                        else state[i].shardcnt);
    state[i - 1 := state[i - 1].(reccnt := 0, shardcnt := 0)][i := target]
  }

  /** Moves every level above `i` down by one, deepest first. */
  function Cascade(c: Config, state: seq<LevelState>, i: nat): (p: (seq<Task>, seq<LevelState>))
    requires i < |state|
    ensures |p.0| == i && |p.1| == |state|
    decreases i
  {
    if i == 0 then ([], state)
    else
      var rest := Cascade(c, MoveUp(c, state, i), i - 1);
      ([Task([i - 1], i)] + rest.0, rest.1)
  }

  function Downward(n: nat): (s: seq<nat>)
    ensures |s| == n && forall k :: 0 <= k < n ==> s[k] == n - 1 - k
  {
    if n == 0 then [] else [n - 1] + Downward(n - 1)
  }

  function SumReccnt(state: seq<LevelState>): nat {
    if state == [] then 0 else state[0].reccnt + SumReccnt(state[1..])
  }

  /** Simulates merging levels 0, ..., base - 1 into level base. */
  function MergeAllInto(state: seq<LevelState>, base: nat): (s: seq<LevelState>)
    requires base < |state|
    ensures |s| == |state|
  {
    seq(|state|, i requires 0 <= i < |state| =>
      if i < base then state[i].(reccnt := 0, shardcnt := 0)
      else if i == base then state[i].(reccnt := SumReccnt(state[..base]), shardcnt := 1)
      else state[i])
  }

  /** The tasks that make room in level 0, and the scratch state they lead to. */
  function Plan(c: Config, state: seq<LevelState>): (seq<Task>, seq<LevelState>) {
    if CanReconstructWith(c, state, 0, c.bufferSize) then ([], state)
    else
      var base := BaseLevel(c, state);
      var scratch := Grown(c, state, base);
      if !c.layout.BSM? then Cascade(c, scratch, base)
      else if base == 0 then ([], scratch)
      else ([Task(Downward(base), base)], MergeAllInto(scratch, base))
  }

  // ---------------------------------------------------------------------------
  // The executor
  // ---------------------------------------------------------------------------

  /** `out` is a shard built from the records of `inputs`. */
  ghost predicate MergedFrom(inputs: seq<Wrapped>, out: seq<Wrapped>) {
    Sorted(out) && SameNet(inputs, out) && |out| <= |inputs|
  }

  ghost predicate ShardOf(inputs: seq<Shard>, out: Shard) {
    && inputs != []
    && Sorted(out.recs)
    && (forall r :: Net(out.recs, r) == ShardsNet(inputs, r))
    && |out.recs| <= RecordCount(inputs)
    && out.first == inputs[0].first && out.last == inputs[|inputs| - 1].last
  }

  ghost predicate FlushOf(batch: seq<Wrapped>, n: nat, out: Shard) {
    MergedFrom(batch, out.recs) && out.first == n && out.last == n + 1
  }

  /** Appends the merge of `incoming` to a level. With no room left the merge would become
      the pending shard, and finalizing the level would drop every other shard. */
  function AppendLevel(level: Level, incoming: Level, out: Shard): Level {
    if incoming.shards == [] then level
    else if |level.shards| == level.cap then level.(shards := [out], pending := None)
    else level.(shards := level.shards + [out])
  }

  /** Appends a flushed batch to a level. Nothing finalizes the level afterwards. */
  function AppendBuffer(level: Level, out: Shard): Level {
    if |level.shards| == level.cap then level.(pending := Some(out))
    else level.(shards := level.shards + [out])
  }

  function WithLevel(c: Config, s: Structure, i: nat): Structure {
    if i < |s.levels| then s
    else s.(levels := s.levels + [NewLevel(c, i)], state := s.state + [NewState(c, i)])
  }

  /** The shards that one task merges. */
  function MergeInputs(c: Config, s: Structure, base: nat, incoming: nat): seq<Shard>
    requires base < |s.levels| && incoming < |s.levels|
  {
    if !c.layout.Leveling? then s.levels[incoming].shards
    else if s.levels[base].shards == [] then []
    else [s.levels[base].shards[0]] + s.levels[incoming].shards
  }

  function StateOf(c: Config, level: Level, i: nat): LevelState {
    LevelState(RecordCount(level.shards), RecordCap(c, i), |level.shards|, ShardCap(c))
  }

  /** Combines the incoming level with the base level; `out` is the merged shard. Leveling
      moves the incoming level when the base is empty, its old number included. */
  function Reconstruct(c: Config, s: Structure, base: nat, incoming: nat, out: Shard): Structure
    requires |s.levels| == |s.state| && base < |s.levels| && incoming < |s.levels|
  {
    var target :=
      if !c.layout.Leveling? then AppendLevel(s.levels[base], s.levels[incoming], out)
      else if s.levels[base].shards != [] then Level(s.levels[base].no, 1, [out], None)
      else s.levels[incoming];
    s.(levels := s.levels[base := target][incoming := NewLevel(c, incoming)],
       state := s.state[base := StateOf(c, target, base)][incoming := NewState(c, incoming)])
  }

  /** The sources of a task of the Bentley-Saxe layout, flattened into one shard. */
  function SourceShards(levels: seq<Level>, sources: seq<nat>): seq<Shard>
    requires forall k :: 0 <= k < |sources| ==> sources[k] < |levels|
  {
    if sources == [] then [] else levels[sources[0]].shards + SourceShards(levels, sources[1..])
  }

  function ReconstructAll(c: Config, s: Structure, task: Task, out: Shard): Structure
    requires |s.levels| == |s.state| && task.target < |s.levels|
  {
    var n := |s.levels|;
    s.(levels := seq(n, i requires 0 <= i < n =>
                   if i in task.sources then Level(i, 1, [], None)
                   else if i == task.target then Level(i, 1, [out], None) else s.levels[i]),
       state := seq(n, i requires 0 <= i < n =>
                  if i in task.sources then LevelState(0, RecordCap(c, task.target), 0, 1)
                  else if i == task.target then LevelState(|out.recs|, RecordCap(c, task.target), 1, 1)
                  else s.state[i]))
  }

  /** The levels that a task names exist, the target at least as the next one to add. */
  predicate TaskFits(c: Config, s: Structure, task: Task) {
    && |s.levels| == |s.state|
    && task.target <= |s.levels|
    && (forall k :: 0 <= k < |task.sources| ==> task.sources[k] < |s.levels|)
    && (!c.layout.BSM? ==> |task.sources| == 1)
  }

  function ApplyTask(c: Config, s: Structure, task: Task, out: Shard): (s': Structure)
    ensures s'.flushes == s.flushes
  {
    if !TaskFits(c, s, task) then s else
    var g := WithLevel(c, s, task.target);
    if c.layout.BSM? then ReconstructAll(c, g, task, out)
    else Reconstruct(c, g, task.target, task.sources[0], out)
  }

  /** The shards that a task hands to the shard constructor; a pure move hands over none. */
  function TaskInputs(c: Config, s: Structure, task: Task): seq<Shard>
    requires TaskFits(c, s, task)
  {
    var g := WithLevel(c, s, task.target);
    if c.layout.BSM? then SourceShards(g.levels, task.sources)
    else MergeInputs(c, g, task.target, task.sources[0])
  }

  /** `out` is what the merge of this task may produce. */
  ghost predicate MergeOk(c: Config, s: Structure, task: Task, out: Shard) {
    TaskFits(c, s, task) && TaskInputs(c, s, task) != [] ==> ShardOf(TaskInputs(c, s, task), out)
  }

  /** Runs the tasks in order; outs[k] is the shard that task k builds. */
  function Execute(c: Config, s: Structure, tasks: seq<Task>, outs: seq<Shard>): Structure
    requires |tasks| == |outs|
    decreases |tasks|
  {
    if tasks == [] then s else Execute(c, ApplyTask(c, s, tasks[0], outs[0]), tasks[1..], outs[1..])
  }

  ghost predicate MergesOk(c: Config, s: Structure, tasks: seq<Task>, outs: seq<Shard>)
    requires |tasks| == |outs|
    decreases |tasks|
  {
    tasks == [] ||
    (MergeOk(c, s, tasks[0], outs[0]) && MergesOk(c, ApplyTask(c, s, tasks[0], outs[0]), tasks[1..], outs[1..]))
  }

  /** What a task needs so as not to read past the levels or through a null shard, and for
      the assertion on level numbers to hold. */
  predicate TaskSafe(c: Config, s: Structure, task: Task) {
    && TaskFits(c, s, task)
    && (forall k :: 0 <= k < |task.sources| && !c.layout.BSM? ==> s.levels[task.sources[k]].shards != [])
    && (c.layout.Leveling? && task.target < |s.levels| && s.levels[task.target].shards != [] ==>
          s.levels[task.target].no > s.levels[task.sources[0]].no
          || s.levels[task.target].no == s.levels[task.sources[0]].no == 0)
  }

  predicate TasksSafe(c: Config, s: Structure, tasks: seq<Task>, outs: seq<Shard>)
    requires |tasks| == |outs|
    decreases |tasks|
  {
    tasks == [] ||
    (TaskSafe(c, s, tasks[0]) && TasksSafe(c, ApplyTask(c, s, tasks[0], outs[0]), tasks[1..], outs[1..]))
  }

  /** Flushes a batch into level 0. `out` is the shard of the batch and `merged`, under
      leveling, its merge with the shard already there. */
  function FlushInto(c: Config, s: Structure, out: Shard, merged: Shard): Structure
    requires |s.levels| == |s.state|
  {
    var g := WithLevel(c, s, 0);
    var level :=
      if !c.layout.Leveling? then AppendBuffer(g.levels[0], out)
      else if g.levels[0].shards != [] then Level(g.levels[0].no, 1, [merged], None)
      else Level(0, 1, [out], None);
    Structure(g.levels[0 := level],
              g.state[0 := g.state[0].(reccnt := RecordCount(level.shards), shardcnt := |level.shards|)],
              s.flushes + 1)
  }

  ghost predicate FlushOk(c: Config, s: Structure, batch: seq<Wrapped>, out: Shard, merged: Shard) {
    && FlushOf(batch, s.flushes, out)
    && (c.layout.Leveling? && s.levels != [] && s.levels[0].shards != [] ==>
          ShardOf([s.levels[0].shards[0], out], merged))
  }
}
