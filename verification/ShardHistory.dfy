/** Every shard holds the flushes that it is labelled with: its net counts are those of the
    batches first, ..., last - 1. */
module ShardHistory {
  import opened Records
  import opened ExtensionStructures
  import opened ShardSources
  import opened ShardOrder
  import opened PlannerProofs
  import opened PlannerBentleySaxe
  import opened PlannerRuns

  ghost predicate Told(batches: seq<seq<Wrapped>>, x: Shard) {
    && x.first < x.last <= |batches|
    && forall r :: Net(x.recs, r) == Net(Flatten(batches[x.first..x.last]), r)
  }

  ghost predicate AllTold(batches: seq<seq<Wrapped>>, shards: seq<Shard>) {
    forall x :: x in shards ==> Told(batches, x)
  }

  /** Neighbouring shards together hold their flushes together. */
  lemma {:induction false} TiledTold(batches: seq<seq<Wrapped>>, z: seq<Shard>, lo: nat, hi: nat, r: Record)
    requires Tiled(z, lo, hi) && AllTold(batches, z) && z != []
    ensures lo < hi <= |batches| && ShardsNet(z, r) == Net(Flatten(batches[lo..hi]), r)
  {
    var x, rest := z[0], z[1..];
    assert Told(batches, x);
    if rest == [] {
      assert ShardsNet(z, r) == Net(x.recs, r);
    } else {
      forall y | y in rest ensures Told(batches, y) { assert y in z; }
      TiledTold(batches, rest, x.last, hi, r);
      assert batches[lo..hi] == batches[lo..x.last] + batches[x.last..hi];
      FlattenConcat(batches[lo..x.last], batches[x.last..hi]);
      NetConcat(Flatten(batches[lo..x.last]), Flatten(batches[x.last..hi]), r);
    }
  }

  lemma MergedTold(batches: seq<seq<Wrapped>>, inputs: seq<Shard>, lo: nat, hi: nat, out: Shard)
    requires Tiled(inputs, lo, hi) && AllTold(batches, inputs) && ShardOf(inputs, out)
    ensures Told(batches, out)
  {
    TiledTold(batches, inputs, lo, hi, Record(0, 0));
    TiledUp(inputs, lo, hi);
    forall r ensures Net(out.recs, r) == Net(Flatten(batches[lo..hi]), r) {
      TiledTold(batches, inputs, lo, hi, r);
    }
  }

  /** A later batch changes nothing about the shards so far. */
  lemma ToldLater(batches: seq<seq<Wrapped>>, batch: seq<Wrapped>, shards: seq<Shard>)
    requires AllTold(batches, shards)
    ensures AllTold(batches + [batch], shards)
  {
    forall x | x in shards ensures Told(batches + [batch], x) {
      assert Told(batches, x);
      assert (batches + [batch])[x.first..x.last] == batches[x.first..x.last];
    }
  }

  // ---------------------------------------------------------------------------
  // Tasks
  // ---------------------------------------------------------------------------

  ghost function ShardSet(levels: seq<Level>): set<Shard> {
    set x | x in AllShards(levels)
  }

  lemma TaskTold(c: Config, s: Structure, task: Task, out: Shard, batches: seq<seq<Wrapped>>)
    requires AllTold(batches, AllShards(s.levels))
    requires TaskFits(c, s, task) && (c.layout.BSM? || TaskInputs(c, s, task) != []) ==> Told(batches, out)
    ensures AllTold(batches, AllShards(ApplyTask(c, s, task, out).levels))
  {
    hide Told, AllShards, ApplyTask, TaskInputs;
    var old' := ShardSet(s.levels);
    var known := if Told(batches, out) then old' + {out} else old';
    KnownIff(s.levels, known);
    TaskKnown(c, s, task, out, known);
    KnownIff(ApplyTask(c, s, task, out).levels, known);
  }

  /** What a planned move merges is a stretch of flushes. */
  lemma InputsTiled(c: Config, s: Structure, i: nat) returns (lo: nat, hi: nat)
    requires ConfigOk(c) && !c.layout.BSM? && Sound(c, s) && i > 0 && Ready(c, s, i)
    requires MergeInputs(c, s, i, i - 1) != []
    ensures Tiled(MergeInputs(c, s, i, i - 1), lo, hi)
    ensures forall x :: x in MergeInputs(c, s, i, i - 1) ==> x in AllShards(s.levels)
  {
    assert LevelOk(c, s.levels[i], s.state[i], i);
    hide LevelOk, Tiled, AllShards;
    var a, z := s.levels[i].shards, s.levels[i - 1].shards;
    var x, y := AllShards(s.levels[i + 1..]), AllShards(s.levels[..i - 1]);
    AllShardsPair(s.levels, i);
    var inputs := MergeInputs(c, s, i, i - 1);
    var pre := if c.layout.Leveling? then [] else a;
    assert pre + inputs == a + z;
    lo, hi := Stretch(x, pre, inputs, y, s.flushes);
  }

  /** A stretch of a tiling is a tiling. */
  lemma Stretch(x: seq<Shard>, pre: seq<Shard>, z: seq<Shard>, y: seq<Shard>, n: nat) returns (lo: nat, hi: nat)
    requires Tiled(x + ((pre + z) + y), 0, n)
    ensures Tiled(z, lo, hi)
    ensures forall e :: e in z ==> e in x + ((pre + z) + y)
  {
    assert x + ((pre + z) + y) == (x + pre) + (z + y);
    TiledConcat(x + pre, z + y, 0, n);
    lo := End(x + pre, 0);
    hi := End(z, lo);
    TiledConcat(z, y, lo, n);
  }

  lemma StepTold(c: Config, s: Structure, i: nat, out: Shard, batches: seq<seq<Wrapped>>)
    requires ConfigOk(c) && !c.layout.BSM? && Sound(c, s) && i > 0 && Ready(c, s, i)
    requires MergeOk(c, s, Task([i - 1], i), out) && AllTold(batches, AllShards(s.levels))
    ensures AllTold(batches, AllShards(ApplyTask(c, s, Task([i - 1], i), out).levels))
  {
    hide Sound, Told, AllShards, ApplyTask, ShardOf, Tiled;
    var task := Task([i - 1], i);
    LevelsAndState(c, s);
    assert TaskFits(c, s, task);
    assert TaskInputs(c, s, task) == MergeInputs(c, s, i, i - 1);
    if MergeInputs(c, s, i, i - 1) != [] {
      var lo, hi := InputsTiled(c, s, i);
      MergedTold(batches, MergeInputs(c, s, i, i - 1), lo, hi, out);
    }
    TaskTold(c, s, task, out, batches);
  }

  lemma LevelsAndState(c: Config, s: Structure)
    requires Sound(c, s)
    ensures |s.levels| == |s.state|
  {
  }

  lemma ReadyAgain(c: Config, s: Structure, s': Structure, i: nat)
    requires ConfigOk(c) && Ready(c, s, i) && OnlyMoved(c, s, s', i)
    ensures Ready(c, s', i - 1)
  {
  }

  /** After any number of the planned moves: sound, ready for the next, and told. */
  lemma {:induction false} CascadePrefix(c: Config, s: Structure, scratch: seq<LevelState>, i: nat, outs: seq<Shard>,
                                         batches: seq<seq<Wrapped>>)
    requires ConfigOk(c) && !c.layout.BSM? && Sound(c, s) && Ready(c, s, i) && AllTold(batches, AllShards(s.levels))
    requires i < |scratch| && |outs| <= i && MergesOk(c, s, Cascade(c, scratch, i).0[..|outs|], outs)
    ensures var s' := Execute(c, s, Cascade(c, scratch, i).0[..|outs|], outs);
            Sound(c, s') && Ready(c, s', i - |outs|) && AllTold(batches, AllShards(s'.levels))
    decreases i
  {
    hide Sound, Ready, Told, AllShards, MergeOk, ApplyTask, OnlyMoved, AllTold;
    var tasks := Cascade(c, scratch, i).0;
    if outs != [] {
      var task := Task([i - 1], i);
      var front := tasks[..|outs|];
      assert front[0] == tasks[0] == task;
      var s1 := ApplyTask(c, s, task, outs[0]);
      StepIsSound(c, s, i, outs[0]);
      StepTold(c, s, i, outs[0], batches);
      ReadyAgain(c, s, s1, i);
      var scratch1 := MoveUp(c, scratch, i);
      assert front[1..] == Cascade(c, scratch1, i - 1).0[..|outs| - 1];
      CascadePrefix(c, s1, scratch1, i - 1, outs[1..], batches);
    }
  }

  // ---------------------------------------------------------------------------
  // The Bentley-Saxe task
  // ---------------------------------------------------------------------------

  /** The one task of a Bentley-Saxe plan can run, and has something to merge. */
  lemma FlattenFits(c: Config, s: Structure)
    requires ConfigOk(c) && c.layout.BSM? && Sound(c, s) && Plan(c, s.state).0 != []
    ensures var base := BaseLevel(c, s.state);
            var g, task := WithLevel(c, s, base), Task(Downward(base), base);
            && Plan(c, s.state).0 == [task] && Vacant(g, base) && Sound(c, g) && 1 <= base <= |s.levels|
            && TaskFits(c, s, task) && TaskInputs(c, s, task) == AllShards(g.levels[..base]) != []
  {
    hide Sound, AllShards, LevelOk;
    LevelsAndState(c, s);
    PlanIsReady(c, s);
    var base := BaseLevel(c, s.state);
    var g := WithLevel(c, s, base);
    SourcesAreNewest(g.levels, base);
    NewestExist(g.levels, base);
  }

  /** The newest levels hold a stretch of flushes. */
  lemma NewestTiled(levels: seq<Level>, base: nat, n: nat) returns (lo: nat, hi: nat)
    requires base < |levels| && Tiled(AllShards(levels), 0, n)
    ensures Tiled(AllShards(levels[..base]), lo, hi)
    ensures forall x :: x in AllShards(levels[..base]) ==> x in AllShards(levels)
  {
    hide Tiled, AllShards;
    AllShardsAt(levels, base);
    var x, z := AllShards(levels[base + 1..]) + levels[base].shards, AllShards(levels[..base]);
    assert x + (([] + z) + []) == x + z;
    lo, hi := Stretch(x, [], z, [], n);
  }

  lemma FlattenTold(c: Config, s: Structure, out: Shard, batches: seq<seq<Wrapped>>)
    requires ConfigOk(c) && c.layout.BSM? && Sound(c, s) && Plan(c, s.state).0 != []
    requires AllTold(batches, AllShards(s.levels)) && MergeOk(c, s, Plan(c, s.state).0[0], out)
    ensures Told(batches, out) && AllTold(batches, AllShards(ApplyTask(c, s, Plan(c, s.state).0[0], out).levels))
  {
    hide Told, Tiled, AllShards, ApplyTask, ShardOf, Plan, TaskInputs;
    FlattenFits(c, s);
    var base := BaseLevel(c, s.state);
    var g, task := WithLevel(c, s, base), Task(Downward(base), base);
    SameShards(c, s, base);
    var lo, hi := NewestTiled(g.levels, base, g.flushes);
    MergedTold(batches, AllShards(g.levels[..base]), lo, hi, out);
    TaskTold(c, s, task, out, batches);
  }

  lemma SameShards(c: Config, s: Structure, i: nat)
    requires i <= |s.levels|
    ensures AllShards(WithLevel(c, s, i).levels) == AllShards(s.levels)
  {
    if i == |s.levels| {
      AllShardsConcat(s.levels, [NewLevel(c, i)]);
      assert AllShards([NewLevel(c, i)]) == [];
      assert [] + AllShards(s.levels) == AllShards(s.levels);
    }
  }

  // ---------------------------------------------------------------------------
  // The plan, as far as it has been run
  // ---------------------------------------------------------------------------

  lemma CascadeOnGrown(c: Config, s: Structure, base: nat, outs: seq<Shard>)
    requires ConfigOk(c) && !c.layout.BSM? && Sound(c, s) && 1 <= base <= |s.levels| && outs != []
    requires |outs| <= base && base < |WithLevel(c, s, base).state|
    requires MergesOk(c, s, Cascade(c, WithLevel(c, s, base).state, base).0[..|outs|], outs)
    ensures var g := WithLevel(c, s, base);
            var tasks := Cascade(c, g.state, base).0[..|outs|];
            Execute(c, s, tasks, outs) == Execute(c, g, tasks, outs) && MergesOk(c, g, tasks, outs)
  {
    hide Sound, ApplyTask, MergeOk;
    LevelsAndState(c, s);
    var g := WithLevel(c, s, base);
    var tasks := Cascade(c, g.state, base).0[..|outs|];
    assert tasks[0] == Task([base - 1], base);
    GrowsFirst(c, s, tasks[0], outs[0]);
  }

  /** The first planned tasks, run on the structure. */
  ghost predicate RunSoFar(c: Config, s: Structure, outs: seq<Shard>, t: Structure) {
    var tasks := Plan(c, s.state).0;
    && |outs| <= |tasks| && MergesOk(c, s, tasks[..|outs|], outs)
    && t == Execute(c, s, tasks[..|outs|], outs)
  }

  lemma ExecuteOne(c: Config, s: Structure, task: Task, out: Shard)
    ensures Execute(c, s, [task], [out]) == ApplyTask(c, s, task, out)
    ensures MergesOk(c, s, [task], [out]) <==> MergeOk(c, s, task, out)
  {
    hide ApplyTask, MergeOk;
    assert [task][1..] == [] && [out][1..] == [];
  }

  /** Tasks are planned only where there are levels, and level 0 is full. */
  lemma PlanNeeded(c: Config, s: Structure)
    requires Sound(c, s) && Plan(c, s.state).0 != []
    ensures s.levels != [] && !CanReconstructWith(c, s.state, 0, c.bufferSize)
  {
    LevelsAndState(c, s);
  }

  lemma PlanTold(c: Config, s: Structure, outs: seq<Shard>, t: Structure, batches: seq<seq<Wrapped>>)
    requires ConfigOk(c) && Sound(c, s) && AllTold(batches, AllShards(s.levels)) && RunSoFar(c, s, outs, t)
    ensures AllTold(batches, AllShards(t.levels))
  {
    if outs != [] {
      PlanNeeded(c, s);
      if c.layout.BSM? {
        FlattenPlanTold(c, s, outs, t, batches);
      } else {
        CascadePlanTold(c, s, outs, t, batches);
      }
    }
  }

  lemma FlattenPlanTold(c: Config, s: Structure, outs: seq<Shard>, t: Structure, batches: seq<seq<Wrapped>>)
    requires ConfigOk(c) && c.layout.BSM? && Sound(c, s) && AllTold(batches, AllShards(s.levels)) && outs != []
    requires RunSoFar(c, s, outs, t)
    ensures AllTold(batches, AllShards(t.levels)) && |outs| == 1 && Told(batches, outs[0])
  {
    hide Sound, AllTold, AllShards, ApplyTask, MergeOk, Plan, Execute, MergesOk, Told;
    FlattenFits(c, s);
    var tasks := Plan(c, s.state).0;
    assert tasks[..1] == [tasks[0]] && outs == [outs[0]];
    ExecuteOne(c, s, tasks[0], outs[0]);
    FlattenTold(c, s, outs[0], batches);
  }

  lemma CascadePlanTold(c: Config, s: Structure, outs: seq<Shard>, t: Structure, batches: seq<seq<Wrapped>>)
    requires ConfigOk(c) && !c.layout.BSM? && Sound(c, s) && AllTold(batches, AllShards(s.levels)) && outs != []
    requires s.levels != [] && !CanReconstructWith(c, s.state, 0, c.bufferSize) && RunSoFar(c, s, outs, t)
    ensures AllTold(batches, AllShards(t.levels))
  {
    hide Sound, AllTold, AllShards, Cascade, Execute, MergesOk, Ready;
    PlanIsReady(c, s);
    var base := BaseLevel(c, s.state);
    var g := WithLevel(c, s, base);
    LevelsAndState(c, s);
    LevelsAndState(c, g);
    SameShards(c, s, base);
    CascadeOnGrown(c, s, base, outs);
    CascadePrefix(c, g, g.state, base, outs, batches);
  }

  // ---------------------------------------------------------------------------
  // Flushes
  // ---------------------------------------------------------------------------

  lemma BatchTold(batches: seq<seq<Wrapped>>, batch: seq<Wrapped>, out: Shard)
    requires FlushOf(batch, |batches|, out)
    ensures Told(batches + [batch], out)
  {
    var n := |batches|;
    assert (batches + [batch])[n..n + 1] == [batch];
    assert [batch][1..] == [] && Flatten([batch]) == batch + [] == batch;
  }

  /** The shard in level 0 under leveling is the newest, so the batch joins on. */
  lemma TopIsNewest(c: Config, s: Structure, out: Shard)
    requires c.layout.Leveling? && Sound(c, s) && s.levels != [] && s.levels[0].shards != []
    requires out.first == s.flushes && out.last == s.flushes + 1
    ensures var x := s.levels[0].shards[0];
            s.levels[0].shards == [x] && x in AllShards(s.levels) && Tiled([x, out], x.first, out.last)
  {
    assert LevelOk(c, s.levels[0], s.state[0], 0);
    hide LevelOk, Tiled;
    var x := s.levels[0].shards[0];
    assert s.levels[0].shards == [x];
    var older := AllShards(s.levels[1..]);
    assert AllShards(s.levels) == older + [x];
    TiledConcat(older, [x], 0, s.flushes);
    JoinOn(x, out, End(older, 0));
  }

  lemma JoinOn(x: Shard, out: Shard, lo: nat)
    requires Tiled([x], lo, out.first) && out.first < out.last
    ensures Tiled([x, out], x.first, out.last)
  {
    assert [x][1..] == [] && [x, out][1..] == [out] && [out][1..] == [];
    assert Tiled([out], out.first, out.last);
  }

  /** A flush adds a shard of its own batch, or merges it into the shard before it. */
  lemma FlushTold(c: Config, s: Structure, batch: seq<Wrapped>, out: Shard, merged: Shard, batches: seq<seq<Wrapped>>)
    requires ConfigOk(c) && Sound(c, s) && AllTold(batches, AllShards(s.levels)) && s.flushes == |batches|
    requires FlushOk(c, s, batch, out, merged) && |s.levels| == |s.state|
    ensures Told(batches + [batch], out)
    ensures AllTold(batches + [batch], AllShards(FlushInto(c, s, out, merged).levels))
  {
    hide Sound, Told, AllShards, FlushInto, Tiled;
    var all := batches + [batch];
    ToldLater(batches, batch, AllShards(s.levels));
    BatchTold(batches, batch, out);
    var known := ShardSet(s.levels) + {out};
    if c.layout.Leveling? && s.levels != [] && s.levels[0].shards != [] {
      TopIsNewest(c, s, out);
      var x := s.levels[0].shards[0];
      MergedTold(all, [x, out], x.first, out.last, merged);
      known := known + {merged};
    }
    KnownIff(s.levels, known);
    FlushKnown(c, s, out, merged, known);
    KnownIff(FlushInto(c, s, out, merged).levels, known);
  }

  // ---------------------------------------------------------------------------
  // Where an empty shard comes from
  // ---------------------------------------------------------------------------

  /** The flushes i, ..., j - 1 cancel each other out: every insert has its tombstone. */
  ghost predicate Cancels(batches: seq<seq<Wrapped>>, i: nat, j: nat) {
    i < j <= |batches| && forall r :: Net(Flatten(batches[i..j]), r) == 0
  }

  ghost predicate SomeCancel(batches: seq<seq<Wrapped>>) {
    exists i: nat, j: nat :: Cancels(batches, i, j)
  }

  lemma EmptyCancels(batches: seq<seq<Wrapped>>, x: Shard)
    requires Told(batches, x) && x.recs == []
    ensures SomeCancel(batches)
  {
    forall r ensures Net(Flatten(batches[x.first..x.last]), r) == 0 { assert Net(x.recs, r) == 0; }
    assert Cancels(batches, x.first, x.last);
  }

  lemma CancelLater(batches: seq<seq<Wrapped>>, batch: seq<Wrapped>)
    requires SomeCancel(batches)
    ensures SomeCancel(batches + [batch])
  {
    var i: nat, j: nat :| Cancels(batches, i, j);
    assert (batches + [batch])[i..j] == batches[i..j];
    assert Cancels(batches + [batch], i, j);
  }

  ghost predicate HasEmpty(shards: seq<Shard>) {
    exists k :: 0 <= k < |shards| && shards[k].recs == []
  }

  /** A task that the shard constructors cannot do, or whose shard the layout cannot bear: an
      input has no records or, under the Bentley-Saxe layout, the outcome has none. */
  ghost predicate Stuck(c: Config, s: Structure, task: Task) {
    || (TaskFits(c, s, task) && HasEmpty(TaskInputs(c, s, task)))
    || (c.layout.BSM? && (!TaskFits(c, s, task) || TaskInputs(c, s, task) == []
                          || exists out :: ShardOf(TaskInputs(c, s, task), out) && out.recs == []))
  }

  /** A plan gets stuck only where flushes cancel each other out. */
  lemma StuckCancels(c: Config, s0: Structure, outs: seq<Shard>, s: Structure, batches: seq<seq<Wrapped>>)
    requires ConfigOk(c) && Sound(c, s0) && AllTold(batches, AllShards(s0.levels)) && RunSoFar(c, s0, outs, s)
    requires |outs| < |Plan(c, s0.state).0| && Stuck(c, s, Plan(c, s0.state).0[|outs|])
    ensures SomeCancel(batches)
  {
    hide Sound, AllShards, Plan, Execute, MergesOk, TaskInputs, ShardOf, SomeCancel, Told;
    var task := Plan(c, s0.state).0[|outs|];
    PlanTold(c, s0, outs, s, batches);
    if TaskFits(c, s, task) && HasEmpty(TaskInputs(c, s, task)) {
      var inputs := TaskInputs(c, s, task);
      var k :| 0 <= k < |inputs| && inputs[k].recs == [];
      KnownIff(s.levels, ShardSet(s.levels));
      InputsKnown(c, s, task, ShardSet(s.levels));
      EmptyCancels(batches, inputs[k]);
    } else {
      FlattenFits(c, s0);
      assert outs == [];
      ExecuteNothing(c, s0, Plan(c, s0.state).0);
      var out :| ShardOf(TaskInputs(c, s, task), out) && out.recs == [];
      FlattenTold(c, s0, out, batches);
      EmptyCancels(batches, out);
    }
  }

  lemma ExecuteNothing(c: Config, s: Structure, tasks: seq<Task>)
    ensures Execute(c, s, tasks[..0], []) == s
  {
  }

  /** Likewise for the flush: its shard, or under leveling the one that it joins, is empty. */
  ghost predicate FlushStuck(c: Config, s: Structure, batch: seq<Wrapped>) {
    || (!c.layout.Tiering? && exists out :: FlushOf(batch, s.flushes, out) && out.recs == [])
    || (c.layout.Leveling? && s.levels != [] && s.levels[0].shards != [] && s.levels[0].shards[0].recs == [])
  }

  lemma FlushStuckCancels(c: Config, s: Structure, batch: seq<Wrapped>, batches: seq<seq<Wrapped>>)
    requires AllTold(batches, AllShards(s.levels)) && s.flushes == |batches| && FlushStuck(c, s, batch)
    ensures SomeCancel(batches + [batch])
  {
    hide SomeCancel, Told;
    if c.layout.Leveling? && s.levels != [] && s.levels[0].shards != [] && s.levels[0].shards[0].recs == [] {
      assert AllShards(s.levels) == AllShards(s.levels[1..]) + s.levels[0].shards;
      assert s.levels[0].shards[0] in AllShards(s.levels);
      EmptyCancels(batches, s.levels[0].shards[0]);
      CancelLater(batches, batch);
    } else {
      var out :| FlushOf(batch, s.flushes, out) && out.recs == [];
      BatchTold(batches, batch, out);
      EmptyCancels(batches + [batch], out);
    }
  }

  lemma {:induction false} ExecuteKeepsFlushes(c: Config, s: Structure, tasks: seq<Task>, outs: seq<Shard>)
    requires |tasks| == |outs|
    ensures Execute(c, s, tasks, outs).flushes == s.flushes
    decreases |tasks|
  {
    hide ApplyTask;
    if tasks != [] {
      ExecuteKeepsFlushes(c, ApplyTask(c, s, tasks[0], outs[0]), tasks[1..], outs[1..]);
    }
  }
}
