/** The checkpoints of the durability model are those of the structure: a reconstruction saves
    what the plan makes of it, a flush what the batch adds to it. */
module DurableStructures {
  import opened Records
  import opened ExtensionStructures
  import opened PlannerProofs
  import opened StructureLaws
  import opened EpochStructures
  import opened Durability

  /** From a structure grown by any cycles, with the batch in the buffer: the checkpoint after
      the reconstruction and the one after the flush are both saved. */
  lemma SavesAreEnabled(c: Config, ys: seq<Cycle>, y: Cycle, s: State)
    requires ConfigOk(c) && CyclesOk(c, ys) && CycleOk(c, Grow(c, ys), y)
    requires s.structure == ContentsOf(Grow(c, ys)) && s.buffer == y.batch && |s.buffer| >= s.lwm
    requires !InWindow(s) && s.inFlight.None?
    ensures var merged, flushed := ContentsOf(Prepared(c, Grow(c, ys), y)), ContentsOf(RunCycle(c, Grow(c, ys), y));
            var t := Apply(s, SaveReconstruction(merged));
            && t.checkpoint == merged && t.buffer == s.buffer
            && Apply(t, SaveFlush(flushed)).checkpoint == flushed && Apply(t, SaveFlush(flushed)).phase == Saved
  {
    hide Grow, CyclesOk, CycleOk, Prepared, RunCycle, ContentsOf, SameNet, AddsNet, ConfigOk;
    CycleNets(c, ys, y);
  }

  lemma CycleNets(c: Config, ys: seq<Cycle>, y: Cycle)
    requires ConfigOk(c) && CyclesOk(c, ys) && CycleOk(c, Grow(c, ys), y)
    ensures var g := Grow(c, ys);
            && SameNet(ContentsOf(g), ContentsOf(Prepared(c, g, y)))
            && AddsNet(ContentsOf(Prepared(c, g, y)), y.batch, ContentsOf(RunCycle(c, g, y)))
  {
    hide Grow, CyclesOk, CycleOk, Prepared, RunCycle, ContentsOf, SameNet, AddsNet, Sound, FlushInto, Plan, TasksSafe;
    var g := Grow(c, ys);
    GrownIsSound(c, ys);
    CycleKeepsSound(c, g, y);
    var p, u := Prepared(c, g, y), RunCycle(c, g, y);
    SameContentsSameNet(g, p);
    forall r ensures ShardsNet(AllShards(u.levels), r) == ShardsNet(AllShards(p.levels), r) + Net(y.batch, r) { }
    BatchAddsNet(p, y.batch, u);
  }
}
