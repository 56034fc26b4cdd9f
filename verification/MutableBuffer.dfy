/** The ring buffer in front of the shards: one monotone tail, and two reference-counted
    heads, so that readers of the last flushed batch keep it while new records arrive.

    Each function below is one iteration of the corresponding compare-and-swap loop;
    `None` is an iteration that changes nothing and makes the caller spin. */
module MutableBuffers {
  import opened Records

  datatype Head = Head(idx: nat, refcnt: nat)

  /** A reader's window [head, tail) of buffer positions. */
  datatype View = View(head: nat, tail: nat)

  datatype Buffer = Buffer(lwm: nat, hwm: nat, tail: nat, head: Head, oldHead: Head, ring: seq<Wrapped>)

  /** What the constructor asserts. */
  predicate WellFormed(b: Buffer) {
    b.lwm <= b.hwm < |b.ring|
  }

  /** A capacity of 0 asks for twice the high watermark. */
  function CapacityOf(hwm: nat, capacity: nat): nat {
    if capacity == 0 then 2 * hwm else capacity
  }

  /** The old head starts at the high watermark, with no position behind it. */
  function NewBuffer(lwm: nat, hwm: nat, capacity: nat, blank: Wrapped): Buffer {
    Buffer(lwm, hwm, 0, Head(0, 0), Head(hwm, 0), seq(CapacityOf(hwm, capacity), _ => blank))
  }

  predicate AtLowWatermark(b: Buffer) {
    b.tail - b.head.idx >= b.lwm
  }

  predicate Full(b: Buffer) {
    b.tail - b.head.idx >= b.hwm
  }

  /** The entry as it is stored: visible, and stamped with its ring slot. */
  function Stamped(rec: Record, tombstone: bool, slot: nat): Wrapped {
    Wrapped(rec, tombstone, false, 1 + 2 * slot)
  }

  /** Reserve the next position and fill its slot; a full buffer refuses. */
  function Append(b: Buffer, rec: Record, tombstone: bool): Buffer
    requires WellFormed(b)
  {
    if Full(b) then b
    else
      var slot := b.tail % |b.ring|;
      b.(tail := b.tail + 1, ring := b.ring[slot := Stamped(rec, tombstone, slot)])
  }

  /** Take a reference on whichever head has the wanted index, the old one first. */
  function GetHead(b: Buffer, target: nat): Option<Buffer> {
    if b.oldHead.idx == target then
      Some(b.(oldHead := Head(target, b.oldHead.refcnt + 1)))
    else if b.head.idx == target then
      Some(b.(head := Head(target, b.head.refcnt + 1)))
    else None
  }

  /** Give a reference back. The second branch does not look at the index of the head
      it decrements, exactly as the code does not. */
  function ReleaseHead(b: Buffer, idx: nat): Option<Buffer> {
    if b.oldHead.idx == idx then
      if b.oldHead.refcnt == 0 then None
      else Some(b.(oldHead := Head(b.oldHead.idx, b.oldHead.refcnt - 1)))
    else
      if b.head.refcnt == 0 then None
      else Some(b.(head := Head(b.head.idx, b.head.refcnt - 1)))
  }

  /** What the slots under a window hold. */
  function ViewRecords(ring: seq<Wrapped>, v: View): seq<Wrapped>
    requires |ring| > 0 && v.head <= v.tail
  {
    seq(v.tail - v.head, i requires 0 <= i < v.tail - v.head => ring[(v.head + i) % |ring|])
  }

  lemma MultipleOfLap(cap: nat, k: int)
    ensures cap * k <= 0 || cap <= cap * k
  {
    if k > 0 {
      assert cap * k == cap + cap * (k - 1);
    }
  }

  /** Positions closer than one lap of the ring have different slots. */
  lemma SlotsDiffer(i: nat, j: nat, cap: nat)
    requires i < j < i + cap
    ensures i % cap != j % cap
  {
    if i % cap == j % cap {
      var k := j / cap - i / cap;
      assert j - i == cap * k;
      MultipleOfLap(cap, k);
    }
  }

  /** A window whose positions agree with the history reads as that stretch of history. */
  lemma ViewReadsHistory(ring: seq<Wrapped>, log: seq<Wrapped>, v: View)
    requires |ring| > 0 && v.head <= v.tail <= |log|
    requires forall i :: v.head <= i < v.tail ==> ring[i % |ring|] == log[i]
    ensures ViewRecords(ring, v) == log[v.head..v.tail]
  {
    var recs := ViewRecords(ring, v);
    assert |recs| == |log[v.head..v.tail]|;
    forall i | 0 <= i < |recs|
      ensures recs[i] == log[v.head..v.tail][i]
    {
      assert recs[i] == ring[(v.head + i) % |ring|] == log[v.head + i];
    }
  }
}
