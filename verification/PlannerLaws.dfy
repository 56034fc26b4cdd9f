/** What is planned, said of the levels as they are: the tasks for every structure that flush
    cycles grow, under each layout. */
module PlannerLaws {
  import opened Numerals
  import opened ExtensionStructures
  import opened ShardOrder
  import opened PlannerProofs
  import opened StructureLaws

  /** The records on a level. */
  function Held(s: Structure, i: nat): nat
    requires i < |s.levels|
  {
    RecordCount(s.levels[i].shards)
  }

  /** Levels base - 1, ..., 0 move down by one, in this order. */
  predicate MovesDown(tasks: seq<Task>, base: nat) {
    |tasks| == base && forall k :: 0 <= k < base ==> tasks[k] == Task([base - 1 - k], base - k)
  }

  /** One task takes levels base - 1, ..., 0 into level base. */
  predicate TakesAll(tasks: seq<Task>, base: nat) {
    && |tasks| == 1 && tasks[0].target == base && |tasks[0].sources| == base
    && forall k :: 0 <= k < base ==> tasks[0].sources[k] == base - 1 - k
  }

  lemma {:induction false} CascadeMovesDown(c: Config, state: seq<LevelState>, i: nat)
    requires i < |state|
    ensures MovesDown(Cascade(c, state, i).0, i)
    decreases i
  {
    if i > 0 {
      CascadeMovesDown(c, MoveUp(c, state, i), i - 1);
    }
  }

  /** The plan in terms of the state vector. */
  lemma PlanOf(c: Config, state: seq<LevelState>) returns (base: nat)
    ensures Plan(c, state).0 == [] <==> state == [] || CanReconstructWith(c, state, 0, c.bufferSize)
    ensures Plan(c, state).0 != [] ==>
              && 1 <= base <= |state|
              && (base < |state| ==> CanReconstructWith(c, state, base, state[0].reccnt))
              && (forall i :: 1 <= i < base ==> !CanReconstructWith(c, state, i, state[0].reccnt))
              && if c.layout.BSM? then TakesAll(Plan(c, state).0, base) else MovesDown(Plan(c, state).0, base)
  {
    hide CanReconstructWith, MoveUp, MergeAllInto;
    base := BaseLevel(c, state);
    CascadeMovesDown(c, Grown(c, state, base), base);
    if state == [] {
      NothingFits(c);
    }
  }

  lemma NothingFits(c: Config)
    ensures !CanReconstructWith(c, [], 0, c.bufferSize)
  {
  }

  /** The state vector says what is on the levels. */
  ghost predicate StateTells(c: Config, s: Structure) {
    && |s.levels| == |s.state|
    && forall i :: 0 <= i < |s.levels| ==>
         && s.state[i].reccnt == Held(s, i) && s.state[i].shardcnt == |s.levels[i].shards|
         && (c.layout.Tiering? ==> s.state[i].shardcap == c.scale)
         && (c.layout.Leveling? ==> s.state[i].reccap == c.bufferSize * Pow(c.scale, i + 1))
         && (c.layout.BSM? ==> (s.state[i].reccnt == 0 <==> s.levels[i].shards == []))
  }

  lemma SoundStateTells(c: Config, s: Structure)
    requires ConfigOk(c) && Sound(c, s)
    ensures StateTells(c, s)
  {
    hide Tiled, AllShards, Sized, SpanAt;
    forall i | 0 <= i < |s.levels|
      ensures s.state[i].reccnt == Held(s, i) && s.state[i].shardcnt == |s.levels[i].shards|
      ensures c.layout.Tiering? ==> s.state[i].shardcap == c.scale
      ensures c.layout.Leveling? ==> s.state[i].reccap == c.bufferSize * Pow(c.scale, i + 1)
      ensures c.layout.BSM? ==> (s.state[i].reccnt == 0 <==> s.levels[i].shards == [])
    {
      assert LevelOk(c, s.levels[i], s.state[i], i);
      if c.layout.BSM? && s.levels[i].shards != [] {
        assert s.levels[i].shards == [s.levels[i].shards[0]];
      }
    }
  }

  /** Leveling: nothing is planned if and only if level 0 is yet to be made or can take a full
      buffer. Otherwise every level above `base` moves down, where `base` is the first level
      that can take as many records as level 0 holds, or a new one if there is none. */
  ghost predicate LevelingPlan(c: Config, s: Structure, tasks: seq<Task>) {
    && (tasks == [] <==> s.levels == [] || Held(s, 0) + c.bufferSize <= c.bufferSize * c.scale)
    && (tasks != [] ==>
          var base := |tasks|;
          && 1 <= base <= |s.levels| && MovesDown(tasks, base)
          && (base < |s.levels| ==> Held(s, base) + Held(s, 0) <= c.bufferSize * Pow(c.scale, base + 1))
          && forall i :: 1 <= i < base ==> Held(s, i) + Held(s, 0) > c.bufferSize * Pow(c.scale, i + 1))
  }

  /** Tiering: the same with the number of shards for the number of records. */
  ghost predicate TieringPlan(c: Config, s: Structure, tasks: seq<Task>) {
    && (tasks == [] <==> s.levels == [] || |s.levels[0].shards| < c.scale)
    && (tasks != [] ==>
          var base := |tasks|;
          && 1 <= base <= |s.levels| && MovesDown(tasks, base)
          && (base < |s.levels| ==> |s.levels[base].shards| < c.scale)
          && forall i :: 1 <= i < base ==> |s.levels[i].shards| >= c.scale)
  }

  /** Bentley-Saxe: all levels above the first vacant one go into it at once. */
  ghost predicate BentleySaxePlan(s: Structure, tasks: seq<Task>) {
    && (tasks == [] <==> s.levels == [] || s.levels[0].shards == [])
    && (tasks != [] ==>
          var base := |tasks[0].sources|;
          && 1 <= base <= |s.levels| && TakesAll(tasks, base)
          && (base < |s.levels| ==> s.levels[base].shards == [])
          && forall i :: 1 <= i < base ==> s.levels[i].shards != [])
  }

  lemma LevelingPlans(c: Config, s: Structure)
    requires StateTells(c, s) && c.layout.Leveling?
    ensures LevelingPlan(c, s, Plan(c, s.state).0)
  {
    hide Plan, Held;
    var base := PlanOf(c, s.state);
    assert Pow(c.scale, 1) == c.scale;
    if Plan(c, s.state).0 != [] {
      forall i | 1 <= i < base ensures Held(s, i) + Held(s, 0) > c.bufferSize * Pow(c.scale, i + 1) {
        assert !CanReconstructWith(c, s.state, i, s.state[0].reccnt);
      }
    }
  }

  lemma TieringPlans(c: Config, s: Structure)
    requires StateTells(c, s) && c.layout.Tiering?
    ensures TieringPlan(c, s, Plan(c, s.state).0)
  {
    hide Plan, Held;
    var base := PlanOf(c, s.state);
    if Plan(c, s.state).0 != [] {
      forall i | 1 <= i < base ensures |s.levels[i].shards| >= c.scale {
        assert !CanReconstructWith(c, s.state, i, s.state[0].reccnt);
      }
    }
  }

  lemma BentleySaxePlans(c: Config, s: Structure)
    requires StateTells(c, s) && c.layout.BSM?
    ensures BentleySaxePlan(s, Plan(c, s.state).0)
  {
    hide Plan, Held;
    var base := PlanOf(c, s.state);
    if Plan(c, s.state).0 != [] {
      forall i | 1 <= i < base ensures s.levels[i].shards != [] {
        assert !CanReconstructWith(c, s.state, i, s.state[0].reccnt);
      }
    }
  }

  ghost predicate Planned(c: Config, s: Structure, tasks: seq<Task>) {
    match c.layout
    case Leveling => LevelingPlan(c, s, tasks)
    case Tiering => TieringPlan(c, s, tasks)
    case BSM => BentleySaxePlan(s, tasks)
  }

  lemma PlanIsPlanned(c: Config, s: Structure)
    requires StateTells(c, s)
    ensures Planned(c, s, Plan(c, s.state).0)
  {
    hide StateTells, Plan, LevelingPlan, TieringPlan, BentleySaxePlan;
    match c.layout
    case Leveling => LevelingPlans(c, s);
    case Tiering => TieringPlans(c, s);
    case BSM => BentleySaxePlans(c, s);
  }

  /** What is planned after any run of flush cycles. */
  lemma PlanLaw(c: Config, ys: seq<Cycle>)
    requires ConfigOk(c) && CyclesOk(c, ys)
    ensures Planned(c, Grow(c, ys), Plan(c, Grow(c, ys).state).0)
  {
    GrownIsTold(c, ys);
    hide *;
    SoundStateTells(c, Grow(c, ys));
    PlanIsPlanned(c, Grow(c, ys));
  }
}
