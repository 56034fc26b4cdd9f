/** What a range scan returns over whole runs: the layout of the shards, and how much of the
    history has already left the buffer, make no difference to it. */
module ScanRuns {
  import opened Records
  import opened MutableBuffers
  import opened EpochProtocol
  import opened EpochRuns
  import opened EpochHistory
  import opened ExtensionStructures
  import opened ShardOrder
  import opened PlannerProofs
  import opened PlannerRuns
  import opened StructureLaws
  import opened ScanOrder

  /** The runs in the order in which a scan opens them: level by level from the top. */
  function OpenedRuns(levels: seq<Level>): seq<seq<Wrapped>> {
    if levels == [] then [] else ShardRecords(levels[0].shards) + OpenedRuns(levels[1..])
  }

  function ShardRecords(shards: seq<Shard>): seq<seq<Wrapped>> {
    if shards == [] then [] else [shards[0].recs] + ShardRecords(shards[1..])
  }

  /** What a scan reads: the buffer and then every run. */
  function Visible(buffer: seq<Wrapped>, s: Structure): seq<Wrapped> {
    buffer + Flatten(OpenedRuns(s.levels))
  }

  lemma {:induction false} ShardRecordsNet(shards: seq<Shard>, r: Record)
    ensures Net(Flatten(ShardRecords(shards)), r) == ShardsNet(shards, r)
  {
    if shards != [] {
      ShardRecordsNet(shards[1..], r);
      NetConcat(shards[0].recs, Flatten(ShardRecords(shards[1..])), r);
    }
  }

  lemma {:induction false} OpenedNet(levels: seq<Level>, r: Record)
    ensures Net(Flatten(OpenedRuns(levels)), r) == ShardsNet(AllShards(levels), r)
  {
    if levels != [] {
      var top, rest := ShardRecords(levels[0].shards), OpenedRuns(levels[1..]);
      OpenedNet(levels[1..], r);
      FlattenConcat(top, rest);
      NetConcat(Flatten(top), Flatten(rest), r);
      ShardRecordsNet(levels[0].shards, r);
      ShardsNetConcat(AllShards(levels[1..]), levels[0].shards, r);
    }
  }

  lemma VisibleNet(buffer: seq<Wrapped>, s: Structure, r: Record)
    ensures Net(Visible(buffer, s), r) == Net(buffer, r) + ShardsNet(AllShards(s.levels), r)
  {
    NetConcat(buffer, Flatten(OpenedRuns(s.levels)), r);
    OpenedNet(s.levels, r);
  }

  /** After any run of flush cycles, a scan of the buffer and the shards is a scan of the
      whole history: every record in range, in order, inserts minus erases times. */
  lemma ScanSeesHistory(c: Config, ys: seq<Cycle>, buffer: seq<Wrapped>, lo: int, hi: int, out: seq<Record>)
    requires ConfigOk(c) && CyclesOk(c, ys)
    ensures IsScan(Visible(buffer, Grow(c, ys)), lo, hi, out) <==> IsScan(Flushed(ys) + buffer, lo, hi, out)
  {
    hide ConfigOk, CyclesOk, Grow;
    GrownIsSound(c, ys);
    forall r ensures Net(Visible(buffer, Grow(c, ys)), r) == Net(Flushed(ys) + buffer, r) {
      VisibleNet(buffer, Grow(c, ys), r);
      NetConcat(Flushed(ys), buffer, r);
    }
    ScanOfNet(Visible(buffer, Grow(c, ys)), Flushed(ys) + buffer, lo, hi, out);
  }

  lemma ScanOfNet(a: seq<Wrapped>, b: seq<Wrapped>, lo: int, hi: int, out: seq<Record>)
    requires SameNet(a, b)
    ensures IsScan(a, lo, hi, out) <==> IsScan(b, lo, hi, out)
  {
    assert forall r :: Net(a, r) == Net(b, r);
  }

  /** One cycle, scanned before it, between reconstruction and flush, and after it, with
      `later` the records that arrived behind the batch: three times the same answer. */
  lemma CycleKeepsScan(c: Config, ys: seq<Cycle>, y: Cycle, later: seq<Wrapped>, lo: int, hi: int,
                       before: seq<Record>, between: seq<Record>, after: seq<Record>)
    requires ConfigOk(c) && CyclesOk(c, ys) && CycleOk(c, Grow(c, ys), y)
    requires IsScan(Visible(y.batch + later, Grow(c, ys)), lo, hi, before)
    requires IsScan(Visible(y.batch + later, Prepared(c, Grow(c, ys), y)), lo, hi, between)
    requires IsScan(Visible(later, RunCycle(c, Grow(c, ys), y)), lo, hi, after)
    ensures before == between == after
  {
    hide Grow, CyclesOk, CycleOk, IsScan, Prepared, RunCycle, Visible, Plan, TasksSafe, Sound, FlushInto, Foreseen,
         RoomFor;
    var s := Grow(c, ys);
    var t, u := Prepared(c, s, y), RunCycle(c, s, y);
    GrownIsSound(c, ys);
    CycleKeepsSound(c, s, y);
    forall r
      ensures Net(Visible(y.batch + later, s), r) == Net(Visible(y.batch + later, t), r) == Net(Visible(later, u), r)
    {
      VisibleNet(y.batch + later, s, r);
      VisibleNet(y.batch + later, t, r);
      VisibleNet(later, u, r);
      NetConcat(y.batch, later, r);
    }
    ScanDependsOnNet(Visible(y.batch + later, s), Visible(y.batch + later, t), lo, hi, before, between);
    ScanDependsOnNet(Visible(y.batch + later, s), Visible(later, u), lo, hi, before, after);
  }

  /** In every reachable state of the concurrent protocol, the scan of a job's window and
      epoch is the scan of the operations accepted when it took the window. */
  lemma JobScanSeesAPrefix(s: State, j: nat, lo: int, hi: int, out: seq<Record>)
    requires Reachable(s) && j in s.jobs && s.jobs[j].epoch.Some? && s.jobs[j].view.Some?
    ensures var e, v := s.jobs[j].epoch.value, s.jobs[j].view.value;
            && WellFormed(s.buffer) && e in s.epochs && v.head <= v.tail <= |s.log|
            && (IsScan(ViewRecords(s.buffer.ring, v) + s.epochs[e].contents, lo, hi, out)
                <==> IsScan(s.log[..v.tail], lo, hi, out))
  {
    hide IsScan, Inv, Run;
    var e, v := s.jobs[j].epoch.value, s.jobs[j].view.value;
    ReachableHolds(s);
    WellFormedBuffer(s);
    JobSeesAPrefix(s, j, Record(0, 0));
    forall r ensures Net(ViewRecords(s.buffer.ring, v) + s.epochs[e].contents, r) == Net(s.log[..v.tail], r) {
      JobSeesAPrefix(s, j, r);
      NetConcat(ViewRecords(s.buffer.ring, v), s.epochs[e].contents, r);
    }
    ScanOfNet(ViewRecords(s.buffer.ring, v) + s.epochs[e].contents, s.log[..v.tail], lo, hi, out);
  }

  /** Told by actions: a job that takes its window after `before` and keeps it gets, whatever
      happens later, the scan of the operations accepted until then. */
  lemma JobScanSeesAccepted(lwm: nat, hwm: nat, blank: Wrapped, before: seq<Action>, j: nat, later: seq<Action>,
                            lo: int, hi: int, out: seq<Record>)
    requires lwm <= hwm && 1 <= hwm && Keeps(later, j) && TakesWindow(Run(Init(lwm, hwm, blank), before), j)
    ensures var s, t := Run(Init(lwm, hwm, blank), before), Run(Init(lwm, hwm, blank), before + [GetBuffer(j)] + later);
            && Told(s.log, Accepted(Init(lwm, hwm, blank), before), 2 * hwm)
            && j in t.jobs && t.jobs[j].epoch == s.jobs[j].epoch && t.jobs[j].epoch.value in t.epochs
            && t.jobs[j].view.Some? && t.jobs[j].view.value.head <= t.jobs[j].view.value.tail
            && (var seen := ViewRecords(t.buffer.ring, t.jobs[j].view.value) + t.epochs[t.jobs[j].epoch.value].contents;
                IsScan(seen, lo, hi, out) <==> IsScan(s.log, lo, hi, out))
  {
    hide IsScan, Run, Reachable, Accepted, Told, Apply, Keeps, Balance;
    var s0 := Init(lwm, hwm, blank);
    JobSeesAccepted(lwm, hwm, blank, before, j, later, Record(0, 0));
    LogIsAccepted(lwm, hwm, blank, before);
    StartReachable(lwm, hwm, blank);
    ReachableGoesOn(s0, before + [GetBuffer(j)] + later);
    var s, t := Run(s0, before), Run(s0, before + [GetBuffer(j)] + later);
    JobScanSeesAPrefix(t, j, lo, hi, out);
    assert t.log[..|s.log|] == s.log;
  }
}
