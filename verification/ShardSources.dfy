/** Where the shards of a structure come from: each task and each flush brings in at most what
    it builds. */
module ShardSources {
  import opened ExtensionStructures

  /** Every shard of the levels is one of `known`. */
  ghost predicate Known(levels: seq<Level>, known: set<Shard>) {
    forall i, k :: 0 <= i < |levels| && 0 <= k < |levels[i].shards| ==> levels[i].shards[k] in known
  }

  lemma {:induction false} SourcesKnown(levels: seq<Level>, sources: seq<nat>, known: set<Shard>)
    requires Known(levels, known) && forall k :: 0 <= k < |sources| ==> sources[k] < |levels|
    ensures forall k :: 0 <= k < |SourceShards(levels, sources)| ==> SourceShards(levels, sources)[k] in known
  {
    if sources != [] {
      SourcesKnown(levels, sources[1..], known);
    }
  }

  lemma InputsKnown(c: Config, s: Structure, task: Task, known: set<Shard>)
    requires TaskFits(c, s, task) && Known(s.levels, known)
    ensures forall k :: 0 <= k < |TaskInputs(c, s, task)| ==> TaskInputs(c, s, task)[k] in known
  {
    var g := WithLevel(c, s, task.target);
    assert Known(g.levels, known);
    if c.layout.BSM? {
      SourcesKnown(g.levels, task.sources, known);
    }
  }

  /** A task brings in at most the shard that it builds. */
  lemma TaskKnown(c: Config, s: Structure, task: Task, out: Shard, known: set<Shard>)
    requires Known(s.levels, known)
    requires TaskFits(c, s, task) && (c.layout.BSM? || TaskInputs(c, s, task) != []) ==> out in known
    ensures Known(ApplyTask(c, s, task, out).levels, known)
  {
    if TaskFits(c, s, task) {
      assert Known(WithLevel(c, s, task.target).levels, known);
    }
  }

  lemma FlushKnown(c: Config, s: Structure, out: Shard, merged: Shard, known: set<Shard>)
    requires |s.levels| == |s.state| && Known(s.levels, known) && out in known
    requires c.layout.Leveling? && s.levels != [] && s.levels[0].shards != [] ==> merged in known
    ensures Known(FlushInto(c, s, out, merged).levels, known)
  {
    assert Known(WithLevel(c, s, 0).levels, known);
  }

  lemma KnownMore(levels: seq<Level>, known: set<Shard>, more: set<Shard>)
    requires Known(levels, known) && known <= more
    ensures Known(levels, more)
  {
  }

  lemma {:induction false} ExecuteSnoc(c: Config, s: Structure, tasks: seq<Task>, outs: seq<Shard>, task: Task,
        out: Shard)
    requires |tasks| == |outs| && MergesOk(c, s, tasks, outs) && MergeOk(c, Execute(c, s, tasks, outs), task, out)
    ensures MergesOk(c, s, tasks + [task], outs + [out])
    ensures Execute(c, s, tasks + [task], outs + [out]) == ApplyTask(c, Execute(c, s, tasks, outs), task, out)
    decreases |tasks|
  {
    hide ApplyTask, MergeOk;
    if tasks == [] {
      assert [] + [task] == [task] && [] + [out] == [out];
      assert [task][1..] == [] && [out][1..] == [];
    } else {
      assert (tasks + [task])[1..] == tasks[1..] + [task] && (outs + [out])[1..] == outs[1..] + [out];
      ExecuteSnoc(c, ApplyTask(c, s, tasks[0], outs[0]), tasks[1..], outs[1..], task, out);
    }
  }

  /** The same said of all shards together. */
  lemma {:induction false} KnownIff(levels: seq<Level>, known: set<Shard>)
    ensures Known(levels, known) <==> forall x :: x in AllShards(levels) ==> x in known
  {
    if levels != [] {
      KnownIff(levels[1..], known);
      assert levels == [levels[0]] + levels[1..];
      assert AllShards(levels) == AllShards(levels[1..]) + levels[0].shards;
      if forall x :: x in AllShards(levels) ==> x in known {
        forall x | x in AllShards(levels[1..]) ensures x in known { assert x in AllShards(levels); }
        forall k | 0 <= k < |levels[0].shards| ensures levels[0].shards[k] in known {
          assert levels[0].shards[k] in AllShards(levels);
        }
      }
    }
  }
}
