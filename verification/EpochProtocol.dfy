/** The epoch protocol as a transition system.

    Jobs pin epochs and take windows on the buffer while one reconstruction at a time
    clones the current epoch, restructures the clone, flushes the buffer into it and
    installs it. Every action is one iteration of a compare-and-swap loop or one atomic
    store of the code; an iteration that would spin leaves the state as it is. */
module EpochProtocol {
  import opened Records
  import opened MutableBuffers

  /** An atomic slot: an epoch and the number of jobs that hold it through this slot. */
  datatype Slot = Slot(epoch: Option<nat>, refcnt: nat)

  const EMPTY := Slot(None, 0)

  /** What an epoch knows: the shards of its structure, flattened, and the buffer
      position from which on its records are still in the buffer. */
  datatype Epoch = Epoch(contents: seq<Wrapped>, head: nat)

  /** A query job. The pin and the window are given back independently: a query ends its
      job before its window goes out of scope, a range scan the other way round. */
  datatype Job = Job(epoch: Option<nat>, view: Option<View>)

  /** Where the one reconstruction stands. */
  datatype Phase =
    | Idle
    | Scheduled
    | PinnedForClone(source: nat)
    | Cloned(source: nat)
    | Merging
    | Flushing(view: View)
    | Installed(view: View)
    | Advancing(newHead: nat)
    | Retired(newHead: nat)
    | CurrentTaken(newHead: nat, taken: Slot)
    | PreviousStored(newHead: nat)
    | HeadChecked(newHead: nat)
    | HeadSwapped(newHead: nat, swapped: Head)
    | HeadAdvanced
    | CurrentStored
    | NextCleared

  /** `checked` are the callers that have seen the low watermark reached and not yet tried
      to set the flag; `log` is history: every accepted operation, in buffer order. */
  datatype State = State(
    buffer: Buffer,
    epochs: map<nat, Epoch>,
    epochCnt: nat,
    current: Slot,
    previous: Slot,
    next: Slot,
    checked: set<nat>,
    scheduled: bool,
    phase: Phase,
    jobs: map<nat, Job>,
    log: seq<Wrapped>)

  datatype Action =
    | DoAppend(rec: Record, tombstone: bool)
    | GetActiveEpoch(job: nat)
    | GetBuffer(job: nat)
    | ReleaseView(job: nat)
    | EndJob(job: nat)
    | CheckWatermark(caller: nat)
    | SetFlag(caller: nat)
    | PinForClone
    | CloneEpoch
    | EndClonePin
    | Merge(merged: seq<Wrapped>)
    | TakeView
    | Flush(flushed: seq<Wrapped>)
    | ReleaseFlushView
    | Retire
    | TakeCurrent
    | StorePrevious
    | TryAdvanceHead
    | SwapHead
    | StoreOldHead
    | InstallCurrent
    | ClearNext
    | ClearFlag

  function Init(lwm: nat, hwm: nat, blank: Wrapped): State {
    State(NewBuffer(lwm, hwm, 0, blank), map[0 := Epoch([], 0)], 0,
          Slot(Some(0), 0), EMPTY, EMPTY, {}, false, Idle, map[], [])
  }

  /** One iteration of the pin loop: the previous epoch stands in while the current slot
      is empty. */
  function Pin(s: State): Option<(nat, State)> {
    if s.current.epoch.None? then
      if s.previous.epoch.None? then None
      else Some((s.previous.epoch.value, s.(previous := s.previous.(refcnt := s.previous.refcnt + 1))))
    else Some((s.current.epoch.value, s.(current := s.current.(refcnt := s.current.refcnt + 1))))
  }

  /** One iteration of the unpin loop. The second branch decrements the current slot
      without looking at which epoch it holds, exactly as the code does. */
  function Unpin(s: State, e: nat): Option<State> {
    if s.previous.epoch == Some(e) then
      if s.previous.refcnt == 0 then None
      else Some(s.(previous := s.previous.(refcnt := s.previous.refcnt - 1)))
    else if s.current.epoch.None? || s.current.refcnt == 0 then None
    else Some(s.(current := s.current.(refcnt := s.current.refcnt - 1)))
  }

  function ApplyJob(s: State, a: Action): State {
    match a
    case GetActiveEpoch(j) =>
      if j in s.jobs then s else
      (match Pin(s)
       case None => s
       case Some((e, s')) => s'.(jobs := s.jobs[j := Job(Some(e), None)]))
    case GetBuffer(j) =>
      if j !in s.jobs || s.jobs[j].epoch.None? || s.jobs[j].view.Some? || s.jobs[j].epoch.value !in s.epochs then s else
      var head := s.epochs[s.jobs[j].epoch.value].head;
      (match GetHead(s.buffer, head)
       case None => s
       case Some(b) => s.(buffer := b, jobs := s.jobs[j := s.jobs[j].(view := Some(View(head, b.tail)))]))
    case ReleaseView(j) =>
      if j !in s.jobs || s.jobs[j].view.None? then s else
      (match ReleaseHead(s.buffer, s.jobs[j].view.value.head)
       case None => s
       case Some(b) => s.(buffer := b, jobs := s.jobs[j := s.jobs[j].(view := None)]))
    case EndJob(j) =>
      if j !in s.jobs || s.jobs[j].epoch.None? then s else
      (match Unpin(s, s.jobs[j].epoch.value)
       case None => s
       case Some(s') => s'.(jobs := s.jobs[j := s.jobs[j].(epoch := None)]))
    case _ => s
  }

  /** The first half of a reconstruction: clone, restructure, flush. */
  ghost function ApplyBuild(s: State, a: Action): State {
    match a
    case CheckWatermark(c) =>
      if AtLowWatermark(s.buffer) then s.(checked := s.checked + {c}) else s
    case SetFlag(c) =>
      if c !in s.checked then s
      else if s.scheduled then s.(checked := s.checked - {c})
      else s.(checked := s.checked - {c}, scheduled := true, phase := Scheduled)
    case PinForClone =>
      if !s.phase.Scheduled? then s else
      (match Pin(s)
       case None => s
       case Some((e, s')) => s'.(phase := PinnedForClone(e)))
    case CloneEpoch =>
      if !s.phase.PinnedForClone? || s.phase.source !in s.epochs then s else
      var id := s.epochCnt + 1;
      s.(epochCnt := id, epochs := s.epochs[id := s.epochs[s.phase.source]], next := Slot(Some(id), 0),
         phase := Cloned(s.phase.source))
    case EndClonePin =>
      if !s.phase.Cloned? then s else
      (match Unpin(s, s.phase.source)
       case None => s
       case Some(s') => s'.(phase := Merging))
    case Merge(c) =>
      if !s.phase.Merging? || s.next.epoch.None? || s.next.epoch.value !in s.epochs then s else
      var n := s.next.epoch.value;
      if SameNet(s.epochs[n].contents, c) then s.(epochs := s.epochs[n := s.epochs[n].(contents := c)]) else s
    case TakeView =>
      if !s.phase.Merging? || s.next.epoch.None? || s.next.epoch.value !in s.epochs then s else
      var head := s.epochs[s.next.epoch.value].head;
      (match GetHead(s.buffer, head)
       case None => s
       case Some(b) => s.(buffer := b, phase := Flushing(View(head, b.tail))))
    case Flush(c) =>
      if !s.phase.Flushing? || s.next.epoch.None? || s.next.epoch.value !in s.epochs then s else
      var n := s.next.epoch.value;
      if |s.buffer.ring| > 0 && s.phase.view.head <= s.phase.view.tail
         && AddsNet(s.epochs[n].contents, ViewRecords(s.buffer.ring, s.phase.view), c)
      then s.(epochs := s.epochs[n := s.epochs[n].(contents := c)], phase := Installed(s.phase.view)) else s
    case ReleaseFlushView =>
      if !s.phase.Installed? then s else
      (match ReleaseHead(s.buffer, s.phase.view.head)
       case None => s
       case Some(b) => s.(buffer := b, phase := Advancing(s.phase.view.tail)))
    case _ => s
  }

  /** What the code asserts before it moves the head. Where this fails the process stops
      there, so the step below does nothing. */
  predicate Advances(s: State) {
    s.phase.PreviousStored? ==> s.buffer.head.idx < s.phase.newHead <= s.buffer.tail
  }

  /** The second half: retire the previous epoch and install the next one. */
  function ApplyAdvance(s: State, a: Action): State {
    match a
    case Retire =>
      if !s.phase.Advancing? then s
      else if s.previous.epoch.None? then s.(phase := Retired(s.phase.newHead))
      else if s.previous.refcnt > 0 then s
      else s.(epochs := s.epochs - {s.previous.epoch.value}, previous := EMPTY, phase := Retired(s.phase.newHead))
    case TakeCurrent =>
      if !s.phase.Retired? then s
      else s.(current := EMPTY, phase := CurrentTaken(s.phase.newHead, s.current))
    case StorePrevious =>
      if !s.phase.CurrentTaken? then s
      else s.(previous := s.phase.taken, phase := PreviousStored(s.phase.newHead))
    case TryAdvanceHead =>
      if !s.phase.PreviousStored? || s.next.epoch.None? || s.next.epoch.value !in s.epochs then s else
      if !Advances(s) then s else
      var n := s.next.epoch.value;
      var s' := s.(epochs := s.epochs[n := s.epochs[n].(head := s.phase.newHead)]);
      if s.buffer.oldHead.refcnt > 0 then s' else s'.(phase := HeadChecked(s.phase.newHead))
    case SwapHead =>
      if !s.phase.HeadChecked? then s
      else s.(buffer := s.buffer.(head := Head(s.phase.newHead, 0)),
              phase := HeadSwapped(s.phase.newHead, s.buffer.head))
    case StoreOldHead =>
      if !s.phase.HeadSwapped? then s
      else s.(buffer := s.buffer.(oldHead := s.phase.swapped), phase := HeadAdvanced)
    case InstallCurrent =>
      if !s.phase.HeadAdvanced? then s else s.(current := s.next, phase := CurrentStored)
    case ClearNext =>
      if !s.phase.CurrentStored? then s else s.(next := EMPTY, phase := NextCleared)
    case ClearFlag =>
      if !s.phase.NextCleared? then s else s.(scheduled := false, phase := Idle)
    case _ => s
  }

  ghost function Apply(s: State, a: Action): (s': State)
    requires WellFormed(s.buffer)
    ensures WellFormed(s'.buffer)
  {
    if a.DoAppend? then
      var b := Append(s.buffer, a.rec, a.tombstone);
      if b.tail == s.buffer.tail then s
      else s.(buffer := b, log := s.log + [Stamped(a.rec, a.tombstone, s.buffer.tail % |s.buffer.ring|)])
    else if a.GetActiveEpoch? || a.GetBuffer? || a.ReleaseView? || a.EndJob? then ApplyJob(s, a)
    else if a.CheckWatermark? || a.SetFlag? || a.PinForClone? || a.CloneEpoch? || a.EndClonePin? || a.Merge?
            || a.TakeView? || a.Flush? || a.ReleaseFlushView? then ApplyBuild(s, a)
    else ApplyAdvance(s, a)
  }

  // ---------------------------------------------------------------------------
  // The invariant
  // ---------------------------------------------------------------------------

  predicate NextLive(p: Phase) {
    p.Cloned? || p.Merging? || p.Flushing? || p.Installed? || p.Advancing? || p.Retired? || p.CurrentTaken?
    || p.PreviousStored? || p.HeadChecked? || p.HeadSwapped? || p.HeadAdvanced? || p.CurrentStored?
  }

  predicate CurrentOut(p: Phase) {
    p.CurrentTaken? || p.PreviousStored? || p.HeadChecked? || p.HeadSwapped? || p.HeadAdvanced?
  }

  /** The slot that the reconstruction holds in hand between two stores. */
  function InHand(s: State): Slot {
    if s.phase.CurrentTaken? then s.phase.taken else EMPTY
  }

  /** The older of the two heads, which is in hand between two stores. */
  function Older(s: State): Head {
    if s.phase.HeadSwapped? then s.phase.swapped else s.buffer.oldHead
  }

  predicate HoldsEpoch(job: Job, e: nat) {
    job.epoch == Some(e)
  }

  predicate ViewsFrom(job: Job, h: nat) {
    job.view.Some? && job.view.value.head == h
  }

  function Holders(jobs: map<nat, Job>, e: nat): set<nat> {
    set j | j in jobs && HoldsEpoch(jobs[j], e)
  }

  function Viewers(jobs: map<nat, Job>, h: nat): set<nat> {
    set j | j in jobs && ViewsFrom(jobs[j], h)
  }

  /** How many jobs, the cloning one included, hold epoch `e`. */
  function Pins(s: State, e: nat): nat {
    |Holders(s.jobs, e)| + (if (s.phase.PinnedForClone? || s.phase.Cloned?) && s.phase.source == e then 1 else 0)
  }

  function Refs(slot: Slot, e: nat): nat {
    if slot.epoch == Some(e) then slot.refcnt else 0
  }

  function SlotRefs(s: State, e: nat): nat {
    Refs(s.current, e) + Refs(s.previous, e) + Refs(InHand(s), e)
  }

  /** How many windows, the flushing one included, start at position `h`. */
  function Views(s: State, h: nat): nat {
    |Viewers(s.jobs, h)| + (if (s.phase.Flushing? || s.phase.Installed?) && s.phase.view.head == h then 1 else 0)
  }

  function HeadRefs(s: State, h: nat): nat {
    (if s.buffer.head.idx == h then s.buffer.head.refcnt else 0) + (if Older(s).idx == h then Older(s).refcnt else 0)
  }

  /** A slot names a live epoch or is empty with no references. */
  predicate SlotOk(s: State, slot: Slot) {
    if slot.epoch.Some? then slot.epoch.value in s.epochs else slot.refcnt == 0
  }

  predicate Apart(a: Slot, b: Slot) {
    a.epoch.Some? && b.epoch.Some? ==> a.epoch != b.epoch
  }

  ghost predicate InvSlots(s: State) {
    && (s.scheduled <==> !s.phase.Idle?)
    && (s.next.epoch.Some? <==> NextLive(s.phase))
    && s.next.refcnt == 0
    && (s.current.epoch.None? <==> CurrentOut(s.phase))
    && (s.phase.CurrentTaken? ==> s.phase.taken.epoch.Some?)
    && (s.phase.Retired? || s.phase.CurrentTaken? ==> s.previous.epoch.None?)
    && SlotOk(s, s.current) && SlotOk(s, s.previous) && SlotOk(s, s.next) && SlotOk(s, InHand(s))
    && Apart(s.current, s.previous) && Apart(s.next, s.previous) && Apart(s.next, InHand(s))
    && (s.phase.CurrentStored? ==> s.current.epoch == s.next.epoch)
    && (!s.phase.CurrentStored? ==> Apart(s.current, s.next))
    && (s.phase.PinnedForClone? || s.phase.Cloned? ==> s.current.epoch == Some(s.phase.source))
    && (forall e :: e in s.epochs ==> e <= s.epochCnt)
    && (forall e :: e in s.epochs ==>
          s.current.epoch == Some(e) || s.previous.epoch == Some(e) || s.next.epoch == Some(e)
          || InHand(s).epoch == Some(e))
  }

  ghost predicate InvPins(s: State) {
    forall e :: Pins(s, e) == SlotRefs(s, e)
  }

  predicate Untouched(s: State) {
    s.buffer.head.idx == 0 && Older(s) == Head(s.buffer.hwm, 0)
  }

  ghost predicate InvBuffer(s: State) {
    && WellFormed(s.buffer) && 1 <= s.buffer.hwm && 2 * s.buffer.hwm <= |s.buffer.ring|
    && |s.log| == s.buffer.tail
    && s.buffer.head.idx <= s.buffer.tail <= s.buffer.head.idx + s.buffer.hwm
    && (Untouched(s) || Older(s).idx < s.buffer.head.idx <= Older(s).idx + s.buffer.hwm)
    && (s.phase.HeadChecked? || s.phase.HeadSwapped? ==> s.buffer.oldHead.refcnt == 0)
    && (s.phase.HeadSwapped? ==>
          s.buffer.head == Head(s.phase.newHead, 0) && s.buffer.oldHead.idx != s.phase.swapped.idx)
  }

  /** The ring holds the last lap of the history. */
  ghost predicate RingHolds(ring: seq<Wrapped>, tail: nat, log: seq<Wrapped>) {
    |log| == tail && |ring| > 0 &&
    forall i :: 0 <= i < tail && tail <= i + |ring| ==> ring[i % |ring|] == log[i]
  }

  ghost predicate InvCounts(s: State) {
    forall h :: Views(s, h) == HeadRefs(s, h)
  }

  ghost predicate InvViews(s: State) {
    && (forall j :: j in s.jobs && s.jobs[j].view.Some? ==>
          s.jobs[j].view.value.head <= s.jobs[j].view.value.tail <= s.buffer.tail)
    && (forall j ::
          j in s.jobs && s.jobs[j].view.Some? && s.jobs[j].epoch.Some? && s.jobs[j].epoch.value in s.epochs ==>
          s.jobs[j].view.value.head == s.epochs[s.jobs[j].epoch.value].head)
  }

  ghost predicate InvProgress(s: State) {
    var head, tail := s.buffer.head.idx, s.buffer.tail;
    match s.phase
    case Flushing(v) => v.head == head <= v.tail <= tail
    case Installed(v) => v.head == head <= v.tail <= tail
    case Advancing(h) => head <= h <= tail
    case Retired(h) => head <= h <= tail
    case CurrentTaken(h, _) => head <= h <= tail
    case PreviousStored(h) => head <= h <= tail && s.previous.epoch.Some?
    case HeadChecked(h) => head < h <= tail && s.previous.epoch.Some?
    case HeadSwapped(_, _) => s.previous.epoch.Some?
    case HeadAdvanced => s.previous.epoch.Some?
    case CurrentStored => s.previous.epoch.Some?
    case NextCleared => s.previous.epoch.Some?
    case _ => true
  }

  ghost predicate InvHeads(s: State)
    requires InvSlots(s)
  {
    && (s.current.epoch.Some? ==> s.epochs[s.current.epoch.value].head == s.buffer.head.idx)
    && (InHand(s).epoch.Some? ==> s.epochs[InHand(s).epoch.value].head == s.buffer.head.idx)
    && (s.previous.epoch.Some? ==>
          var h := s.epochs[s.previous.epoch.value].head;
          if s.phase.PreviousStored? || s.phase.HeadChecked? then h == s.buffer.head.idx
          else h == Older(s).idx && !Untouched(s))
    && (s.next.epoch.Some? ==>
          var h := s.epochs[s.next.epoch.value].head;
          if s.phase.PreviousStored? then h == s.buffer.head.idx || h == s.phase.newHead
          else if s.phase.HeadChecked? then h == s.phase.newHead
          else h == s.buffer.head.idx)
  }

  /** How much of the history the structure of epoch `e` must account for. */
  function Cut(s: State, e: nat): nat
    requires e in s.epochs
  {
    if s.next.epoch != Some(e) then s.epochs[e].head else
    match s.phase
    case Installed(v) => v.tail
    case Advancing(h) => h
    case Retired(h) => h
    case CurrentTaken(h, _) => h
    case PreviousStored(h) => h
    case HeadChecked(h) => h
    case _ => s.buffer.head.idx
  }

  ghost predicate Accounted(s: State, e: nat)
    requires e in s.epochs
  {
    Cut(s, e) <= |s.log| && SameNet(s.epochs[e].contents, s.log[..Cut(s, e)])
  }

  ghost predicate InvNet(s: State) {
    forall e :: e in s.epochs ==> Accounted(s, e)
  }

  /** Where everything is. */
  ghost predicate Shape(s: State) {
    InvSlots(s) && InvBuffer(s) && RingHolds(s.buffer.ring, s.buffer.tail, s.log) && InvViews(s) && InvProgress(s)
    && InvHeads(s)
  }

  /** Every reference count is the number of its holders. */
  ghost predicate Counted(s: State) {
    InvPins(s) && InvCounts(s)
  }

  ghost predicate Inv(s: State) {
    Shape(s) && Counted(s) && InvNet(s)
  }
}
