/** The laws of structures grown by any number of flush cycles. */
module StructureLaws {
  import opened Records
  import opened Numerals
  import opened ExtensionStructures
  import opened ShardOrder
  import opened PlannerProofs
  import opened PlannerRuns
  import opened ShardHistory
  import opened StructureRuns

  /** One flush cycle: the batch, the shard that each planned task builds, the shard of the
      batch and, under leveling, its merge into level 0. */
  datatype Cycle = Cycle(batch: seq<Wrapped>, outs: seq<Shard>, flushed: Shard, merged: Shard)

  function Prepared(c: Config, s: Structure, y: Cycle): Structure {
    if |y.outs| == |Plan(c, s.state).0| then Execute(c, s, Plan(c, s.state).0, y.outs) else s
  }

  function RunCycle(c: Config, s: Structure, y: Cycle): Structure {
    var t := Prepared(c, s, y);
    if |t.levels| == |t.state| then FlushInto(c, t, y.flushed, y.merged) else t
  }

  /** The shards of the cycle are what the shard constructors may build, the batch fits the
      buffer, and under the Bentley-Saxe layout no shard comes out empty. */
  ghost predicate CycleOk(c: Config, s: Structure, y: Cycle) {
    && |y.outs| == |Plan(c, s.state).0| && MergesOk(c, s, Plan(c, s.state).0, y.outs)
    && |y.batch| <= c.bufferSize && FlushOk(c, Prepared(c, s, y), y.batch, y.flushed, y.merged)
    && NoEmptyShard(c, y.outs) && NoEmptyShard(c, [y.flushed])
  }

  function Grow(c: Config, ys: seq<Cycle>): Structure {
    if ys == [] then EMPTY_STRUCTURE else RunCycle(c, Grow(c, ys[..|ys| - 1]), ys[|ys| - 1])
  }

  ghost predicate CyclesOk(c: Config, ys: seq<Cycle>) {
    ys == [] || (CyclesOk(c, ys[..|ys| - 1]) && CycleOk(c, Grow(c, ys[..|ys| - 1]), ys[|ys| - 1]))
  }

  /** Everything that was ever flushed. */
  function Flushed(ys: seq<Cycle>): seq<Wrapped> {
    if ys == [] then [] else Flushed(ys[..|ys| - 1]) + ys[|ys| - 1].batch
  }

  lemma CycleKeepsSound(c: Config, s: Structure, y: Cycle)
    requires ConfigOk(c) && Sound(c, s) && CycleOk(c, s, y)
    ensures PlanDone(c, s, Prepared(c, s, y)) && TasksSafe(c, s, Plan(c, s.state).0, y.outs)
    ensures RunCycle(c, s, y) == FlushInto(c, Prepared(c, s, y), y.flushed, y.merged)
    ensures var s' := RunCycle(c, s, y); Sound(c, s') && BatchAdded(s, y.batch, s') && s'.flushes == s.flushes + 1
  {
    hide ShardsNet, AllShards, Tiled, LevelOk, Plan, Execute, MergesOk, TasksSafe;
    PlanMakesRoom(c, s, y.outs);
    var t := Prepared(c, s, y);
    assert RoomFor(c, t, |y.batch|);
    FlushAdds(c, t, y.batch, y.flushed, y.merged);
  }

  /** The batches, flush by flush. */
  function Batches(ys: seq<Cycle>): (batches: seq<seq<Wrapped>>)
    ensures |batches| == |ys| && forall i :: 0 <= i < |ys| ==> batches[i] == ys[i].batch
  {
    seq(|ys|, i requires 0 <= i < |ys| => ys[i].batch)
  }

  lemma {:induction false} FlushedIsFlatten(ys: seq<Cycle>)
    ensures Flushed(ys) == Flatten(Batches(ys))
  {
    if ys != [] {
      var before, y := ys[..|ys| - 1], ys[|ys| - 1];
      FlushedIsFlatten(before);
      assert Batches(ys) == Batches(before) + [y.batch];
      FlattenConcat(Batches(before), [y.batch]);
      assert [y.batch][1..] == [] && Flatten([y.batch]) == y.batch + [];
    }
  }

  /** A shard has the net counts of the flushes first, ..., last - 1, and of no others. */
  ghost predicate HoldsFlushes(ys: seq<Cycle>, x: Shard) {
    && x.first < x.last <= |ys|
    && forall r :: Net(x.recs, r) == Net(Flushed(ys[x.first..x.last]), r)
  }

  lemma ToldHolds(ys: seq<Cycle>, x: Shard)
    requires Told(Batches(ys), x)
    ensures HoldsFlushes(ys, x)
  {
    var part := ys[x.first..x.last];
    assert Batches(part) == Batches(ys)[x.first..x.last];
    FlushedIsFlatten(part);
  }

  lemma CycleTold(c: Config, s: Structure, y: Cycle, batches: seq<seq<Wrapped>>)
    requires ConfigOk(c) && Sound(c, s) && CycleOk(c, s, y)
    requires AllTold(batches, AllShards(s.levels)) && s.flushes == |batches|
    ensures AllTold(batches + [y.batch], AllShards(RunCycle(c, s, y).levels))
  {
    CycleKeepsSound(c, s, y);
    hide AllTold, AllShards, Sound, Plan, Execute, MergesOk, TasksSafe, FlushInto;
    var tasks, t := Plan(c, s.state).0, Prepared(c, s, y);
    assert tasks[..|y.outs|] == tasks;
    PlanTold(c, s, y.outs, t, batches);
    LevelsMatch(c, t);
    FlushTold(c, t, y.batch, y.flushed, y.merged, batches);
  }

  lemma {:induction false} GrownIsTold(c: Config, ys: seq<Cycle>)
    requires ConfigOk(c) && CyclesOk(c, ys)
    ensures Sound(c, Grow(c, ys)) && Grow(c, ys).flushes == |ys|
    ensures AllTold(Batches(ys), AllShards(Grow(c, ys).levels))
  {
    if ys == [] {
      assert AllShards([]) == [];
    } else {
      var before, y := ys[..|ys| - 1], ys[|ys| - 1];
      GrownIsTold(c, before);
      hide Sound, AllTold, CycleOk, RunCycle;
      CycleKeepsSound(c, Grow(c, before), y);
      CycleTold(c, Grow(c, before), y, Batches(before));
      assert Batches(ys) == Batches(before) + [y.batch];
    }
  }

  /** Whatever the batches and merges were: the structure is sound, its shards tile the
      flushes in order of age, every shard holds the flushes it is labelled with, and all
      together count every flushed record exactly once. */
  lemma {:induction false} GrownIsSound(c: Config, ys: seq<Cycle>)
    requires ConfigOk(c) && CyclesOk(c, ys)
    ensures var s := Grow(c, ys);
            && Sound(c, s) && s.flushes == |ys|
            && (forall x :: x in AllShards(s.levels) ==> HoldsFlushes(ys, x))
            && forall r :: ShardsNet(AllShards(s.levels), r) == Net(Flushed(ys), r)
  {
    hide HoldsFlushes;
    GrownIsTold(c, ys);
    forall x | x in AllShards(Grow(c, ys).levels) ensures HoldsFlushes(ys, x) { ToldHolds(ys, x); }
    forall r ensures ShardsNet(AllShards(Grow(c, ys).levels), r) == Net(Flushed(ys), r) { GrownNet(c, ys, r); }
  }

  lemma GrownNet(c: Config, ys: seq<Cycle>, r: Record)
    requires AllTold(Batches(ys), AllShards(Grow(c, ys).levels)) && Sound(c, Grow(c, ys)) && Grow(c, ys).flushes == |ys|
    ensures ShardsNet(AllShards(Grow(c, ys).levels), r) == Net(Flushed(ys), r)
  {
    hide Grow, AllTold, Flushed;
    var shards := AllShards(Grow(c, ys).levels);
    FlushedIsFlatten(ys);
    if shards != [] {
      TiledTold(Batches(ys), shards, 0, |ys|, r);
      assert Batches(ys)[0..|ys|] == Batches(ys);
    }
  }

  /** In every cycle of every run the planned tasks are safe, the scratch state foresees
      the real one, the assertion of the flush holds, and no shard is left pending. */
  lemma EveryFlushHasRoom(c: Config, ys: seq<Cycle>, y: Cycle)
    requires ConfigOk(c) && CyclesOk(c, ys) && CycleOk(c, Grow(c, ys), y)
    ensures var s, t := Grow(c, ys), Prepared(c, Grow(c, ys), y);
            && TasksSafe(c, s, Plan(c, s.state).0, y.outs)
            && Foreseen(Plan(c, s.state).1, WithLevel(c, t, 0).state)
            && RoomFor(c, t, |y.batch|)
            && forall i :: 0 <= i < |RunCycle(c, s, y).levels| ==> RunCycle(c, s, y).levels[i].pending.None?
  {
    GrownIsSound(c, ys);
    CycleKeepsSound(c, Grow(c, ys), y);
    var s' := RunCycle(c, Grow(c, ys), y);
    forall i | 0 <= i < |s'.levels|
      ensures s'.levels[i].pending.None?
    {
      assert LevelOk(c, s'.levels[i], s'.state[i], i);
    }
  }

  // ---------------------------------------------------------------------------
  // Tiering counts in bijective base B
  // ---------------------------------------------------------------------------

  function Counts(s: Structure): (counts: seq<nat>)
    ensures |counts| == |s.levels| && forall i :: 0 <= i < |counts| ==> counts[i] == |s.levels[i].shards|
  {
    seq(|s.levels|, i requires 0 <= i < |s.levels| => |s.levels[i].shards|)
  }

  /** Counting up in closed form: the leading full digits become ones. */
  lemma {:induction false} IncClosed(b: nat, d: seq<nat>, i: nat, e: seq<nat>)
    requires i <= |d| && (forall j :: 0 <= j < i ==> d[j] == b) && (i < |d| ==> d[i] < b)
    requires |e| == if i < |d| then |d| else i + 1
    requires forall j :: 0 <= j < |e| ==>
               e[j] == if j < i then 1 else if j > i then d[j] else if i < |d| then d[i] + 1 else 1
    ensures e == Inc(b, d)
    decreases i
  {
    if i > 0 {
      IncClosed(b, d[1..], i - 1, e[1..]);
      assert e == [e[0]] + e[1..];
    } else if d != [] {
      assert e == [d[0] + 1] + d[1..];
    }
  }

  lemma FlushCounts(c: Config, s: Structure, y: Cycle)
    requires ConfigOk(c) && c.layout.Tiering? && Sound(c, s) && CycleOk(c, s, y)
    ensures var t, e := Prepared(c, s, y), Counts(RunCycle(c, s, y));
            && |e| == (if t.levels == [] then 1 else |t.levels|)
            && e[0] == (if t.levels == [] then 0 else |t.levels[0].shards|) + 1
            && forall j :: 1 <= j < |e| ==> e[j] == |t.levels[j].shards|
  {
    hide ShardsNet, AllShards, Tiled, Plan, Execute, MergesOk, TasksSafe;
    CycleKeepsSound(c, s, y);
    var t := Prepared(c, s, y);
    var g := WithLevel(c, t, 0);
    assert RoomFor(c, t, |y.batch|);
    GrownSound(c, t, 0);
    TopRoom(c, g, |y.batch|);
  }

  /** With room in level 0 there is nothing to plan. */
  lemma NothingToDo(c: Config, s: Structure, y: Cycle)
    requires |s.levels| == |s.state| && (s.levels == [] || CanReconstructWith(c, s.state, 0, c.bufferSize))
    ensures Plan(c, s.state).0 == [] && Prepared(c, s, y) == s
  {
  }

  lemma CarryCounts(c: Config, s: Structure, y: Cycle)
    requires ConfigOk(c) && c.layout.Tiering? && Sound(c, s) && CycleOk(c, s, y)
    requires s.levels != [] && !CanReconstructWith(c, s.state, 0, c.bufferSize)
    ensures Counts(RunCycle(c, s, y)) == Inc(c.scale, Counts(s))
  {
    hide ShardsNet, AllShards, Tiled, Execute, MergesOk, TasksSafe, LevelOk, Plan, PlanDone, FlushOk, Sound, Inc;
    FlushCounts(c, s, y);
    CascadePlan(c, s, y.outs);
    PlanIsReady(c, s);
    var base := BaseLevel(c, s.state);
    var d, e := Counts(s), Counts(RunCycle(c, s, y));
    LevelsMatch(c, s);
    var g := WithLevel(c, s, base);
    forall j | 0 <= j < base ensures d[j] == c.scale { assert |g.levels[j].shards| == c.scale; }
    IncClosed(c.scale, d, base, e);
  }

  lemma LevelsMatch(c: Config, s: Structure)
    requires Sound(c, s)
    ensures |s.levels| == |s.state|
  {
  }

  lemma CycleCounts(c: Config, s: Structure, y: Cycle)
    requires ConfigOk(c) && c.layout.Tiering? && Sound(c, s) && CycleOk(c, s, y)
    ensures Counts(RunCycle(c, s, y)) == Inc(c.scale, Counts(s))
  {
    if s.levels == [] || CanReconstructWith(c, s.state, 0, c.bufferSize) {
      hide ShardsNet, AllShards, Tiled, Execute, MergesOk, TasksSafe, Plan;
      FlushCounts(c, s, y);
      NothingToDo(c, s, y);
      if s.levels != [] {
        assert LevelOk(c, s.levels[0], s.state[0], 0);
      }
      IncClosed(c.scale, Counts(s), 0, Counts(RunCycle(c, s, y)));
    } else {
      CarryCounts(c, s, y);
    }
  }

  lemma {:induction false} TieringCounts(c: Config, ys: seq<Cycle>)
    requires ConfigOk(c) && c.layout.Tiering? && CyclesOk(c, ys)
    ensures Counts(Grow(c, ys)) == Numeral(c.scale, |ys|)
  {
    if ys != [] {
      var before, y := ys[..|ys| - 1], ys[|ys| - 1];
      TieringCounts(c, before);
      GrownIsSound(c, before);
      CycleCounts(c, Grow(c, before), y);
      IncNumeral(c.scale, |before|);
    }
  }

  /** Shards of equal span fill a level at most to its record capacity. */
  lemma {:induction false} EqualSpans(c: Config, shards: seq<Shard>, w: nat)
    requires Sized(c, shards) && forall k :: 0 <= k < |shards| ==> shards[k].last - shards[k].first == w
    ensures RecordCount(shards) <= |shards| * (c.bufferSize * w)
  {
    if shards != [] {
      var rest := shards[1..];
      assert forall k :: 0 <= k < |rest| ==> rest[k] == shards[k + 1];
      EqualSpans(c, rest, w);
      assert |shards[0].recs| <= c.bufferSize * w;
      assert |rest| * (c.bufferSize * w) + c.bufferSize * w == |shards| * (c.bufferSize * w);
    }
  }

  lemma FullLevelBound(c: Config, n: nat, i: nat)
    requires n <= c.scale
    ensures n * (c.bufferSize * Pow(c.scale, i)) <= RecordCap(c, i)
  {
    var w := c.bufferSize * Pow(c.scale, i);
    assert c.scale * w == n * w + (c.scale - n) * w;
    calc {
      RecordCap(c, i);
      c.bufferSize * (c.scale * Pow(c.scale, i));
      c.scale * w;
    }
  }

  /** Tiering: after n flushes the shard counts are the bijective base-B numeral of n, so
      the height is determined by n; a shard on level i holds B^i flushes; and level i
      never exceeds its record capacity, although the planner never looks at it. */
  lemma TieringLaw(c: Config, ys: seq<Cycle>, i: nat)
    requires ConfigOk(c) && c.layout.Tiering? && CyclesOk(c, ys) && i < |Grow(c, ys).levels|
    ensures Counts(Grow(c, ys)) == Numeral(c.scale, |ys|)
    ensures var shards := Grow(c, ys).levels[i].shards;
            && (forall k :: 0 <= k < |shards| ==>
                  shards[k].last - shards[k].first == Pow(c.scale, i) && HoldsFlushes(ys, shards[k]))
            && RecordCount(shards) <= RecordCap(c, i)
  {
    hide HoldsFlushes;
    TieringCounts(c, ys);
    GrownIsSound(c, ys);
    var s := Grow(c, ys);
    LevelShards(s.levels, i);
    assert LevelOk(c, s.levels[i], s.state[i], i);
    EqualSpans(c, s.levels[i].shards, Pow(c.scale, i));
    FullLevelBound(c, |s.levels[i].shards|, i);
  }

  // ---------------------------------------------------------------------------
  // Bentley-Saxe counts in binary
  // ---------------------------------------------------------------------------

  function Occupied(levels: seq<Level>): (occ: seq<bool>)
    ensures |occ| == |levels| && forall i :: 0 <= i < |occ| ==> occ[i] == (levels[i].shards != [])
  {
    seq(|levels|, i requires 0 <= i < |levels| => levels[i].shards != [])
  }

  lemma {:induction false} BitIncClosed(d: seq<bool>, i: nat, e: seq<bool>)
    requires i <= |d| && (forall j :: 0 <= j < i ==> d[j]) && (i < |d| ==> !d[i])
    requires |e| == if i < |d| then |d| else i + 1
    requires forall j :: 0 <= j < |e| ==> e[j] == if j < i then false else if j > i then d[j] else true
    ensures e == BitInc(d)
    decreases i
  {
    if i > 0 {
      BitIncClosed(d[1..], i - 1, e[1..]);
      assert e == [e[0]] + e[1..];
    } else if d != [] {
      assert e == [true] + d[1..];
    }
  }

  lemma FlushOccupies(c: Config, s: Structure, y: Cycle)
    requires ConfigOk(c) && c.layout.BSM? && Sound(c, s) && CycleOk(c, s, y)
    ensures var t, s' := Prepared(c, s, y), RunCycle(c, s, y);
            && |s'.levels| == (if t.levels == [] then 1 else |t.levels|)
            && s'.levels[0].shards == [y.flushed]
            && forall j :: 1 <= j < |s'.levels| ==> s'.levels[j].shards == t.levels[j].shards
  {
    hide ShardsNet, AllShards, Tiled, Plan, Execute, MergesOk, TasksSafe;
    CycleKeepsSound(c, s, y);
    var t := Prepared(c, s, y);
    assert RoomFor(c, t, |y.batch|);
    GrownSound(c, t, 0);
    TopRoom(c, WithLevel(c, t, 0), |y.batch|);
  }

  lemma CycleBits(c: Config, s: Structure, y: Cycle)
    requires ConfigOk(c) && c.layout.BSM? && Sound(c, s) && CycleOk(c, s, y)
    requires s.levels != [] && s.levels[0].shards != []
    ensures var s' := RunCycle(c, s, y);
            s'.levels != [] && Occupied(s'.levels[1..]) == BitInc(Occupied(s.levels[1..]))
  {
    hide ShardsNet, AllShards, Tiled, Execute, MergesOk, TasksSafe, Plan, PlanDone, FlushOk, BitInc;
    FlushOccupies(c, s, y);
    assert LevelOk(c, s.levels[0], s.state[0], 0);
    CountedRecords(s.levels[0].shards);
    FlattenPlan(c, s, y.outs);
    PlanIsReady(c, s);
    var base := BaseLevel(c, s.state);
    var g, d := WithLevel(c, s, base), Occupied(s.levels[1..]);
    forall j | 0 <= j < base - 1 ensures d[j] { assert g.levels[j + 1].shards != []; }
    BitIncClosed(d, base - 1, Occupied(RunCycle(c, s, y).levels[1..]));
  }

  lemma LastCycle(c: Config, ys: seq<Cycle>)
    requires CyclesOk(c, ys) && ys != []
    ensures var before, y := ys[..|ys| - 1], ys[|ys| - 1];
            CyclesOk(c, before) && CycleOk(c, Grow(c, before), y) && Grow(c, ys) == RunCycle(c, Grow(c, before), y)
    ensures Grow(c, []) == EMPTY_STRUCTURE
  {
    hide CycleOk, RunCycle;
  }

  lemma NoBits()
    ensures Bits(0) == []
  {
  }

  lemma OccupiedSpans(c: Config, s: Structure)
    requires ConfigOk(c) && c.layout.BSM? && Sound(c, s)
    ensures forall i :: 1 <= i < |s.levels| && s.levels[i].shards != [] ==>
              |s.levels[i].shards| == 1 && s.levels[i].shards[0].last - s.levels[i].shards[0].first == Pow(2, i - 1)
  {
    forall i | 1 <= i < |s.levels| && s.levels[i].shards != []
      ensures |s.levels[i].shards| == 1 && s.levels[i].shards[0].last - s.levels[i].shards[0].first == Pow(2, i - 1)
    {
      assert LevelOk(c, s.levels[i], s.state[i], i);
    }
  }

  /** After n flushes level 0 holds the last flush, and the levels below it spell n - 1. */
  lemma {:induction false} BentleySaxeBits(c: Config, ys: seq<Cycle>)
    requires ConfigOk(c) && c.layout.BSM? && CyclesOk(c, ys) && ys != []
    ensures var levels := Grow(c, ys).levels;
            && levels != [] && levels[0].shards == [ys[|ys| - 1].flushed]
            && Occupied(levels[1..]) == Bits(|ys| - 1)
  {
    var before, y := ys[..|ys| - 1], ys[|ys| - 1];
    var s := Grow(c, before);
    LastCycle(c, ys);
    hide Grow, CyclesOk, CycleOk, RunCycle, Prepared, Plan, Sound, ShardsNet, AllShards, BitInc, Bits, Pow, WithLevel;
    GrownIsSound(c, before);
    FlushOccupies(c, s, y);
    if before == [] {
      NothingToDo(c, s, y);
      assert Occupied(Grow(c, ys).levels[1..]) == [] == Bits(0) by { NoBits(); }
    } else {
      BentleySaxeBits(c, before);
      CycleBits(c, s, y);
      BitIncBits(|before| - 1);
    }
  }

  /** Bentley-Saxe: after n flushes level 0 holds the last flush; below it level i exists and
      is occupied if and only if bit i - 1 of n - 1 is set, and then holds 2^(i-1) flushes. */
  lemma BentleySaxeLaw(c: Config, ys: seq<Cycle>, i: nat)
    requires ConfigOk(c) && c.layout.BSM? && CyclesOk(c, ys) && ys != [] && i >= 1
    ensures var levels := Grow(c, ys).levels;
            && levels != [] && levels[0].shards == [ys[|ys| - 1].flushed] && Pow(2, i - 1) >= 1
            && (i < |levels| && levels[i].shards != [] <==> ((|ys| - 1) / Pow(2, i - 1)) % 2 == 1)
            && (i < |levels| && levels[i].shards != [] ==>
                  |levels[i].shards| == 1 && levels[i].shards[0].last - levels[i].shards[0].first == Pow(2, i - 1)
                  && HoldsFlushes(ys, levels[i].shards[0]))
            && HoldsFlushes(ys, levels[0].shards[0]) && levels[0].shards[0].first == |ys| - 1
  {
    hide Grow, CyclesOk, Sound, ShardsNet, AllShards, Bits, Pow, HoldsFlushes, CycleOk;
    BentleySaxeBits(c, ys);
    LastFlushed(c, ys);
    LevelShards(Grow(c, ys).levels, 0);
    BitsAt(|ys| - 1, i - 1);
    GrownIsSound(c, ys);
    OccupiedSpans(c, Grow(c, ys));
    var levels := Grow(c, ys).levels;
    assert |levels[1..]| == |levels| - 1;
    if i < |levels| {
      assert levels[1..][i - 1] == levels[i];
      LevelShards(levels, i);
    }
  }

  /** The shard of the last flush is labelled so. */
  lemma LastFlushed(c: Config, ys: seq<Cycle>)
    requires ConfigOk(c) && CyclesOk(c, ys) && ys != []
    ensures ys[|ys| - 1].flushed.first == |ys| - 1
  {
    hide Sound;
    LastCycle(c, ys);
    var before, y := ys[..|ys| - 1], ys[|ys| - 1];
    GrownIsSound(c, before);
    CycleKeepsSound(c, Grow(c, before), y);
  }

  lemma {:induction false} LevelShards(levels: seq<Level>, i: nat)
    requires i < |levels|
    ensures forall k :: 0 <= k < |levels[i].shards| ==> levels[i].shards[k] in AllShards(levels)
  {
    if i > 0 {
      LevelShards(levels[1..], i - 1);
    }
  }
}
