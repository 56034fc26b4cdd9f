/** Each task that the planner schedules keeps the structure sound, and the scratch state
    predicts what it does. */
module PlannerProofs {
  import opened Records
  import opened Numerals
  import opened ExtensionStructures
  import opened ShardOrder

  predicate ConfigOk(c: Config) {
    c.scale >= 2 && c.bufferSize >= 1 && (c.layout.BSM? ==> c.scale == 2)
  }

  /** How many flushes a shard on level i stems from, under tiering and Bentley-Saxe. */
  function SpanAt(c: Config, i: nat): nat {
    if c.layout.BSM? then (if i == 0 then 1 else Pow(2, i - 1)) else Pow(c.scale, i)
  }

  /** A level agrees with its entry in the state vector and with its layout policy. */
  ghost predicate LevelOk(c: Config, level: Level, st: LevelState, i: nat) {
    && level.pending.None?
    && st.reccnt == RecordCount(level.shards) && st.shardcnt == |level.shards|
    && Sized(c, level.shards)
    && (!c.layout.Leveling? ==> forall k :: 0 <= k < |level.shards| ==>
        level.shards[k].last - level.shards[k].first == SpanAt(c, i))
    && match c.layout
       case Tiering => |level.shards| <= level.cap == c.scale == st.shardcap
       case Leveling => |level.shards| <= 1 && st.reccap == RecordCap(c, i) && (level.shards != [] ==> level.no == 0)
       case BSM => |level.shards| <= 1 <= level.cap && (level.shards != [] ==> level.shards[0].recs != [])
  }

  ghost predicate LevelsOk(c: Config, s: Structure) {
    && |s.levels| == |s.state|
    && (forall i :: 0 <= i < |s.levels| ==> LevelOk(c, s.levels[i], s.state[i], i))
    && (c.layout.Leveling? && s.levels != [] ==> s.state[0].reccnt <= RecordCap(c, 0))
  }

  /** The invariant of a structure grown by flushes and reconstructions. */
  ghost predicate Sound(c: Config, s: Structure) {
    LevelsOk(c, s) && Tiled(AllShards(s.levels), 0, s.flushes)
  }

  ghost predicate SameContents(s: Structure, s': Structure) {
    forall r :: ShardsNet(AllShards(s'.levels), r) == ShardsNet(AllShards(s.levels), r)
  }

  /** The real state never has more than the scratch state foresaw. */
  ghost predicate Foreseen(scratch: seq<LevelState>, state: seq<LevelState>) {
    && |scratch| == |state|
    && forall i :: 0 <= i < |state| ==>
         state[i].shardcnt == scratch[i].shardcnt && state[i].reccnt <= scratch[i].reccnt
  }

  lemma NewLevelOk(c: Config, i: nat)
    requires ConfigOk(c)
    ensures LevelOk(c, NewLevel(c, i), NewState(c, i), i)
  {
  }

  lemma GrownSound(c: Config, s: Structure, i: nat)
    requires ConfigOk(c) && Sound(c, s) && i <= |s.levels|
    ensures Sound(c, WithLevel(c, s, i)) && SameContents(s, WithLevel(c, s, i))
  {
    if i == |s.levels| {
      NewLevelOk(c, i);
      AllShardsConcat(s.levels, [NewLevel(c, i)]);
      assert AllShards([NewLevel(c, i)]) == [];
      assert [] + AllShards(s.levels) == AllShards(s.levels);
    }
  }

  /** Two neighbouring levels whose shards `pre + z` become `pre + [out]`, with `out` the
      merge of `z`: the tiling and the contents stay, and `z` is a stretch of flushes. */
  lemma PairMerge(a: seq<Level>, b: seq<Level>, i: nat, pre: seq<Shard>, z: seq<Shard>, out: Shard, hi: nat)
      returns (lo: nat, up: nat)
    requires |a| == |b| && 1 <= i < |a| && a[i + 1..] == b[i + 1..] && a[..i - 1] == b[..i - 1]
    requires a[i].shards + a[i - 1].shards == pre + z && b[i].shards + b[i - 1].shards == pre + [out]
    requires Tiled(AllShards(a), 0, hi) && ShardOf(z, out)
    ensures Tiled(AllShards(b), 0, hi) && Tiled(z, lo, up)
    ensures forall r :: ShardsNet(AllShards(b), r) == ShardsNet(AllShards(a), r)
  {
    var x, y := AllShards(a[i + 1..]), AllShards(a[..i - 1]);
    AllShardsPair(a, i);
    AllShardsPair(b, i);
    assert AllShards(a) == (x + pre) + (z + y);
    assert AllShards(b) == (x + pre) + ([out] + y);
    TiledMerge(x + pre, z, y, out, hi);
    forall r ensures ShardsNet(AllShards(b), r) == ShardsNet(AllShards(a), r) {
      NetMerge(x + pre, z, y, out, r);
    }
    lo := End(x + pre, 0);
    up := End(z, lo);
    TiledConcat(x + pre, z + y, 0, hi);
    TiledConcat(z, y, lo, hi);
  }

  lemma SizedSnoc(c: Config, a: seq<Shard>, out: Shard)
    requires Sized(c, a) && out.first <= out.last && |out.recs| <= c.bufferSize * (out.last - out.first)
    ensures Sized(c, a + [out])
  {
  }

  lemma SizedConcat(c: Config, a: seq<Shard>, b: seq<Shard>)
    requires Sized(c, a) && Sized(c, b)
    ensures Sized(c, a + b)
  {
  }

  /** Tiering: a full level moves down as one shard. */
  lemma TieringStep(c: Config, s: Structure, i: nat, out: Shard)
    requires ConfigOk(c) && c.layout.Tiering? && Sound(c, s) && 1 <= i < |s.levels|
    requires |s.levels[i - 1].shards| == c.scale && |s.levels[i].shards| < c.scale
    requires ShardOf(s.levels[i - 1].shards, out)
    ensures var s' := Reconstruct(c, s, i, i - 1, out);
            Sound(c, s') && SameContents(s, s') && s'.levels[i].shards == s.levels[i].shards + [out]
  {
    var s' := Reconstruct(c, s, i, i - 1, out);
    var z, a := s.levels[i - 1].shards, s.levels[i].shards;
    var lo, up := PairMerge(s.levels, s'.levels, i, a, z, out, s.flushes);
    MergeSize(c, z, out, lo, up);
    TiledSpan(z, lo, up, Pow(c.scale, i - 1));
    SizedSnoc(c, a, out);
    RecordCountConcat(a, [out]);
    NewLevelOk(c, i - 1);
    assert LevelOk(c, s.levels[i], s.state[i], i);
    assert LevelOk(c, s'.levels[i], s'.state[i], i);
  }

  lemma LevelingMergeTiles(c: Config, s: Structure, i: nat, out: Shard)
    requires ConfigOk(c) && c.layout.Leveling? && Sound(c, s) && 1 <= i < |s.levels|
    requires s.levels[i].shards != [] && ShardOf([s.levels[i].shards[0]] + s.levels[i - 1].shards, out)
    ensures var s' := Reconstruct(c, s, i, i - 1, out);
            Tiled(AllShards(s'.levels), 0, s.flushes) && SameContents(s, s') && Sized(c, [out])
  {
    var s' := Reconstruct(c, s, i, i - 1, out);
    assert LevelOk(c, s.levels[i], s.state[i], i) && LevelOk(c, s.levels[i - 1], s.state[i - 1], i - 1);
    var older, newer := s.levels[i].shards, s.levels[i - 1].shards;
    assert older == [older[0]];
    SizedConcat(c, older, newer);
    assert [] + (older + newer) == older + newer;
    var lo, up := PairMerge(s.levels, s'.levels, i, [], older + newer, out, s.flushes);
    MergeSize(c, older + newer, out, lo, up);
  }

  /** Leveling: a level with a shard absorbs the one above it. */
  lemma LevelingMergeStep(c: Config, s: Structure, i: nat, out: Shard)
    requires ConfigOk(c) && c.layout.Leveling? && Sound(c, s) && 1 <= i < |s.levels|
    requires s.levels[i].shards != [] && ShardOf([s.levels[i].shards[0]] + s.levels[i - 1].shards, out)
    ensures var s' := Reconstruct(c, s, i, i - 1, out);
            Sound(c, s') && SameContents(s, s') && s'.levels[i].shards == [out]
  {
    var s' := Reconstruct(c, s, i, i - 1, out);
    LevelingMergeTiles(c, s, i, out);
    hide Tiled, ShardsNet, AllShards;
    NewLevelOk(c, i - 1);
    assert LevelOk(c, s.levels[i], s.state[i], i);
    assert LevelOk(c, s'.levels[i], s'.state[i], i);
  }

  /** Leveling: an empty level takes over the one above it, shards and all. */
  lemma LevelingMoveStep(c: Config, s: Structure, i: nat, out: Shard)
    requires ConfigOk(c) && c.layout.Leveling? && Sound(c, s) && 1 <= i < |s.levels|
    requires s.levels[i - 1].shards != [] && s.levels[i].shards == []
    ensures var s' := Reconstruct(c, s, i, i - 1, out);
            Sound(c, s') && SameContents(s, s') && s'.levels[i].shards == s.levels[i - 1].shards
  {
    var s' := Reconstruct(c, s, i, i - 1, out);
    AllShardsPair(s.levels, i);
    AllShardsPair(s'.levels, i);
    assert s'.levels[i + 1..] == s.levels[i + 1..] && s'.levels[..i - 1] == s.levels[..i - 1];
    assert s'.levels[i].shards + s'.levels[i - 1].shards == s.levels[i].shards + s.levels[i - 1].shards;
    NewLevelOk(c, i - 1);
    assert LevelOk(c, s.levels[i - 1], s.state[i - 1], i - 1);
    assert LevelOk(c, s'.levels[i], s'.state[i], i);
  }

  /** Level i can take the level above it, and all levels above that one are occupied,
      under tiering full. */
  ghost predicate Ready(c: Config, s: Structure, i: nat) {
    && i < |s.levels|
    && (forall j :: 0 <= j < i ==> s.levels[j].shards != [])
    && (c.layout.Tiering? ==> forall j :: 0 <= j < i ==> |s.levels[j].shards| == c.scale)
    && (c.layout.Tiering? && i > 0 ==> |s.levels[i].shards| < c.scale)
  }

  /** What moving level i - 1 into level i leaves alone. */
  ghost predicate OnlyMoved(c: Config, s: Structure, s': Structure, i: nat) {
    && 1 <= i < |s.levels| == |s'.levels| && s'.flushes == s.flushes
    && (forall j :: 0 <= j < |s.levels| && j != i && j != i - 1 ==> s'.levels[j] == s.levels[j])
    && s'.levels[i - 1].shards == []
    && (c.layout.Tiering? ==> |s'.levels[i].shards| == |s.levels[i].shards| + 1)
  }

  lemma StepIsSound(c: Config, s: Structure, i: nat, out: Shard)
    requires ConfigOk(c) && !c.layout.BSM? && Sound(c, s) && i > 0 && Ready(c, s, i)
    requires MergeOk(c, s, Task([i - 1], i), out)
    ensures var s' := ApplyTask(c, s, Task([i - 1], i), out);
            Sound(c, s') && SameContents(s, s') && OnlyMoved(c, s, s', i)
  {
    hide Tiled, ShardsNet, AllShards, RecordCount, LevelOk, ShardOf;
    var task := Task([i - 1], i);
    assert TaskFits(c, s, task);
    assert ApplyTask(c, s, task, out) == Reconstruct(c, s, i, i - 1, out);
    assert TaskInputs(c, s, task) == MergeInputs(c, s, i, i - 1);
    if c.layout.Tiering? {
      TieringStep(c, s, i, out);
    } else if s.levels[i].shards != [] {
      LevelingMergeStep(c, s, i, out);
    } else {
      LevelingMoveStep(c, s, i, out);
    }
  }

  lemma StepIsSafe(c: Config, s: Structure, i: nat)
    requires ConfigOk(c) && !c.layout.BSM? && Sound(c, s) && i > 0 && Ready(c, s, i)
    ensures TaskSafe(c, s, Task([i - 1], i))
  {
    hide Tiled, AllShards;
    assert LevelOk(c, s.levels[i], s.state[i], i) && LevelOk(c, s.levels[i - 1], s.state[i - 1], i - 1);
  }

  /** A move never makes records: the target has at most those of both levels. */
  lemma StepRecords(c: Config, s: Structure, i: nat, out: Shard)
    requires ConfigOk(c) && !c.layout.BSM? && LevelsOk(c, s) && i > 0 && Ready(c, s, i)
    requires var inputs := MergeInputs(c, s, i, i - 1); inputs != [] ==> ShardOf(inputs, out)
    ensures var st := Reconstruct(c, s, i, i - 1, out).state;
            && st[i].reccnt <= s.state[i].reccnt + s.state[i - 1].reccnt
            && st[i].shardcnt == if c.layout.Tiering? then s.state[i].shardcnt + 1 else 1
  {
    hide ShardsNet;
    assert LevelOk(c, s.levels[i], s.state[i], i) && LevelOk(c, s.levels[i - 1], s.state[i - 1], i - 1);
    var a, z := s.levels[i].shards, s.levels[i - 1].shards;
    if c.layout.Tiering? {
      RecordCountConcat(a, [out]);
    } else if a != [] {
      assert a == [a[0]];
      RecordCountConcat(a, z);
    }
    assert RecordCount([out]) == |out.recs|;
  }

  /** The scratch state foresees one move. */
  lemma StepIsForeseen(c: Config, s: Structure, scratch: seq<LevelState>, i: nat, out: Shard)
    requires ConfigOk(c) && !c.layout.BSM? && Sound(c, s) && i > 0 && Ready(c, s, i)
    requires Foreseen(scratch, s.state) && MergeOk(c, s, Task([i - 1], i), out)
    ensures Foreseen(MoveUp(c, scratch, i), ApplyTask(c, s, Task([i - 1], i), out).state)
  {
    hide Tiled, ShardsNet, AllShards, RecordCount, ShardOf;
    var task := Task([i - 1], i);
    assert TaskInputs(c, s, task) == MergeInputs(c, s, i, i - 1);
    assert ApplyTask(c, s, task, out) == Reconstruct(c, s, i, i - 1, out);
    StepRecords(c, s, i, out);
    assert LevelOk(c, s.levels[i], s.state[i], i);
  }

  /** Running a cascade keeps the structure sound, does what the scratch state foresaw, is
      safe at every task, and empties level 0. */
  lemma {:induction false} CascadeRuns(c: Config, s: Structure, scratch: seq<LevelState>, i: nat, outs: seq<Shard>)
    requires ConfigOk(c) && !c.layout.BSM? && Sound(c, s) && Ready(c, s, i)
    requires Foreseen(scratch, s.state) && |outs| == i && MergesOk(c, s, Cascade(c, scratch, i).0, outs)
    ensures var s' := Execute(c, s, Cascade(c, scratch, i).0, outs);
            && Sound(c, s') && SameContents(s, s') && s'.flushes == s.flushes
            && Foreseen(Cascade(c, scratch, i).1, s'.state)
            && (i > 0 ==> s'.levels[0].shards == [])
            && CascadedCounts(c, s, s', i)
    ensures TasksSafe(c, s, Cascade(c, scratch, i).0, outs)
    decreases i
  {
    hide Tiled, ShardsNet, AllShards, RecordCount, LevelOk, MergeOk, ApplyTask, TaskSafe;
    if i > 0 {
      var task := Task([i - 1], i);
      var tasks := Cascade(c, scratch, i).0;
      assert tasks[0] == task;
      var s1 := ApplyTask(c, s, task, outs[0]);
      StepIsSound(c, s, i, outs[0]);
      StepIsForeseen(c, s, scratch, i, outs[0]);
      StepIsSafe(c, s, i);
      var scratch1 := MoveUp(c, scratch, i);
      assert tasks[1..] == Cascade(c, scratch1, i - 1).0;
      CascadeRuns(c, s1, scratch1, i - 1, outs[1..]);
    }
  }

  /** Under tiering: level i gains a shard, the levels between keep one, level 0 none. */
  ghost predicate CascadedCounts(c: Config, s: Structure, s': Structure, i: nat) {
    |s'.levels| == |s.levels| &&
    (c.layout.Tiering? ==> forall j :: 0 <= j < |s.levels| ==>
       |s'.levels[j].shards| == if j > i || i == 0 then |s.levels[j].shards|
                                else if j == i then |s.levels[j].shards| + 1
                                else if j == 0 then 0 else 1)
  }
}
