/** The ring buffer and its views as objects, each operation proved equal to the step that
    the protocol is about. */
module RingBuffers {
  import opened Records
  import opened Numerals
  import opened MutableBuffers
  import opened EpochProtocol
  import opened EpochRuns

  class MutableBuffer {
    const lwm: nat
    const hwm: nat
    const data: array<Wrapped>
    var tail: nat
    var head: Head
    var oldHead: Head

    ghost function Value(): Buffer
      reads this, data
    {
      Buffer(lwm, hwm, tail, head, oldHead, data[..])
    }

    /** A capacity of 0 asks for twice the high watermark. The conditions are those that the
        code asserts. */
    constructor (lwm: nat, hwm: nat, capacity: nat, blank: Wrapped)
      requires lwm <= hwm < CapacityOf(hwm, capacity)
      ensures Value() == NewBuffer(lwm, hwm, capacity, blank) && WellFormed(Value()) && fresh(data)
    {
      this.lwm, this.hwm := lwm, hwm;
      tail, head, oldHead := 0, Head(0, 0), Head(hwm, 0);
      var cap := CapacityOf(hwm, capacity);
      data := new Wrapped[cap](_ => blank);
      new;
      assert data[..] == seq(cap, _ => blank);
    }

    method IsAtLowWatermark() returns (b: bool)
      ensures b == AtLowWatermark(Value())
    {
      b := tail - head.idx >= lwm;
    }

    /** Reserves a position. `others` says how far other appends move the tail: before the
        k-th swap, and between a lost swap and the load that follows it. Refused is who finds
        the buffer full at the first load, or loses a swap and then reads a tail at or above
        the high watermark. Whoever gets a position does not overfill the buffer. */
    method TryAdvanceTail(others: seq<(nat, nat)>) returns (pos: int)
      modifies this`tail
      ensures pos == -1 <==> Full(old(Value())) || exists k :: RefusedAt(old(tail), hwm, others, k)
      ensures pos != -1 ==> old(tail) <= pos == tail - 1 && pos - head.idx < hwm
      ensures others == [] && pos != -1 ==> pos == old(tail)
      ensures others == [] && pos == -1 ==> tail == old(tail)
    {
      var seen := tail;
      if seen - head.idx >= hwm {
        return -1;
      }
      ghost var first := tail;
      var k: nat := 0;
      while true
        invariant forall j: nat :: j < k ==> Lost(others, j) && ReadAfter(first, others, j) < hwm
        invariant tail == first + Added(others, k)
        invariant seen + (if k > 0 then Gaps(others, k - 1).1 else 0) == tail && seen >= first
        invariant if k == 0 then seen - head.idx < hwm else seen < hwm
        invariant k <= |others| + 1
        decreases |others| + 1 - k
      {
        var gaps := Gaps(others, k);
        tail := tail + gaps.0;
        if tail == seen {
          tail := seen + 1;
          WonMeansNotRefused(first, hwm, others, k);
          return seen;
        }
        seen := tail;
        tail := tail + gaps.1;
        if tail >= hwm {
          assert RefusedAt(first, hwm, others, k);
          return -1;
        }
        k := k + 1;
      }
    }

    /** Appends an entry; a refused append writes nothing. */
    method AppendRecord(rec: Record, tombstone: bool, others: seq<(nat, nat)>) returns (ok: bool, ghost pos: int)
      requires WellFormed(Value())
      modifies this`tail, data
      ensures WellFormed(Value())
      ensures ok <==> !Full(old(Value())) && forall k :: !RefusedAt(old(tail), hwm, others, k)
      ensures !ok ==> data[..] == old(data[..])
      ensures ok ==> 0 <= pos == tail - 1
      ensures ok ==>
                var slot := pos % data.Length;
                && data[slot].rec == rec && data[slot].tombstone == tombstone && !data[slot].deleted
                && data[slot].stamp == 1 + 2 * slot
                && forall i :: 0 <= i < data.Length && i != slot ==> data[i] == old(data[i])
      ensures ok ==> data[..] == old(data[..])[pos % data.Length := Stamped(rec, tombstone, pos % data.Length)]
      ensures others == [] ==> Value() == Append(old(Value()), rec, tombstone) && ok == !Full(old(Value()))
    {
      ghost var ring := data[..];
      if others == [] {
        NeverRefusedAlone(tail, hwm);
      }
      var t := TryAdvanceTail(others);
      pos := t;
      if t == -1 {
        return false, pos;
      }
      var slot := t % data.Length;
      data[slot] := Stamped(rec, tombstone, slot);
      assert data[..] == ring[slot := Stamped(rec, tombstone, slot)];
      ok := true;
    }

    /** One iteration of the loop that acquires a head. */
    method TryGetHead(target: nat) returns (acquired: bool)
      modifies this`head, this`oldHead
      ensures acquired == GetHead(old(Value()), target).Some?
      ensures Value() == if acquired then GetHead(old(Value()), target).value else old(Value())
    {
      acquired := true;
      if oldHead.idx == target {
        oldHead := Head(oldHead.idx, oldHead.refcnt + 1);
      } else if head.idx == target {
        head := Head(head.idx, head.refcnt + 1);
      } else {
        acquired := false;
      }
    }

    /** One iteration of the loop that gives a head reference back. */
    method TryReleaseHead(idx: nat) returns (released: bool)
      modifies this`head, this`oldHead
      ensures released == ReleaseHead(old(Value()), idx).Some?
      ensures Value() == if released then ReleaseHead(old(Value()), idx).value else old(Value())
    {
      released := false;
      if oldHead.idx == idx {
        if oldHead.refcnt > 0 {
          oldHead := Head(oldHead.idx, oldHead.refcnt - 1);
          released := true;
        }
      } else {
        if head.refcnt > 0 {
          head := Head(head.idx, head.refcnt - 1);
          released := true;
        }
      }
    }

    /** Moves the head on, keeping the one before it; refuses while that one is in use. */
    method AdvanceHead(newHead: nat) returns (ok: bool)
      modifies this`head, this`oldHead
      ensures ok == (old(oldHead).refcnt == 0)
      ensures Value() == if ok then old(Value()).(head := Head(newHead, 0), oldHead := old(head)) else old(Value())
    {
      if oldHead.refcnt > 0 {
        return false;
      }
      var cur := head;
      head := Head(newHead, 0);
      oldHead := cur;
      ok := true;
    }
  }

  // ---------------------------------------------------------------------------
  // Appends under contention
  // ---------------------------------------------------------------------------

  /** How far others move the tail around the k-th attempt. */
  function Gaps(others: seq<(nat, nat)>, k: nat): (nat, nat) {
    if k < |others| then others[k] else (0, 0)
  }

  /** All that others have added before attempt k. */
  function Added(others: seq<(nat, nat)>, k: nat): nat {
    if k == 0 then 0 else Added(others, k - 1) + Gaps(others, k - 1).0 + Gaps(others, k - 1).1
  }

  /** The tail that is loaded after attempt k. */
  function ReadAfter(tail: nat, others: seq<(nat, nat)>, k: nat): nat {
    tail + Added(others, k + 1)
  }

  /** The k-th swap finds the tail moved since the last load. */
  predicate Lost(others: seq<(nat, nat)>, k: nat) {
    Gaps(others, k).0 + (if k > 0 then Gaps(others, k - 1).1 else 0) > 0
  }

  /** The first k + 1 swaps are lost, and after the last of them the tail reads too high. */
  ghost predicate RefusedAt(tail: nat, hwm: nat, others: seq<(nat, nat)>, k: nat) {
    && (forall j: nat :: j <= k ==> Lost(others, j))
    && (forall j: nat :: j < k ==> ReadAfter(tail, others, j) < hwm)
    && ReadAfter(tail, others, k) >= hwm
  }

  lemma WonMeansNotRefused(tail: nat, hwm: nat, others: seq<(nat, nat)>, k: nat)
    requires !Lost(others, k) && forall j: nat :: j < k ==> ReadAfter(tail, others, j) < hwm
    ensures forall i :: !RefusedAt(tail, hwm, others, i)
  {
    forall i: nat ensures !RefusedAt(tail, hwm, others, i) {
      if i < k {
        assert ReadAfter(tail, others, i) < hwm;
      }
    }
  }

  lemma NeverRefusedAlone(tail: nat, hwm: nat)
    ensures forall k :: !RefusedAt(tail, hwm, [], k)
  {
    assert !Lost([], 0);
    WonMeansNotRefused(tail, hwm, [], 0);
  }

  /** Once the tail has passed the high watermark, which it does in the first lap and for good,
      an append that finds room is refused if and only if it loses its first swap. */
  lemma PastTheMark(tail: nat, hwm: nat, others: seq<(nat, nat)>)
    requires tail >= hwm
    ensures (exists k :: RefusedAt(tail, hwm, others, k)) <==> Gaps(others, 0).0 > 0
  {
    if Gaps(others, 0).0 > 0 {
      assert RefusedAt(tail, hwm, others, 0);
    } else {
      assert !Lost(others, 0);
      WonMeansNotRefused(tail, hwm, others, 0);
    }
  }

  /** In every reachable state past the first lap with room for two, a single append by
      another thread at the wrong moment makes this one fail, with room left. */
  lemma RefusedWithRoom(s: State)
    requires Reachable(s) && s.buffer.tail >= s.buffer.hwm && s.buffer.tail + 1 < s.buffer.head.idx + s.buffer.hwm
    ensures RefusedAt(s.buffer.tail, s.buffer.hwm, [(1, 0)], 0)
    ensures !Full(s.buffer) && !Full(s.buffer.(tail := s.buffer.tail + 1))
  {
    PastTheMark(s.buffer.tail, s.buffer.hwm, [(1, 0)]);
    assert Added([(1, 0)], 1) == Added([(1, 0)], 0) + 1;
  }

  // ---------------------------------------------------------------------------
  // Views
  // ---------------------------------------------------------------------------

  /** Copies n entries; false if that would read past the end of the source. */
  method CopyEntries(dst: array<Wrapped>, at: nat, src: array<Wrapped>, from: nat, n: nat) returns (ok: bool)
    requires at + n <= dst.Length && dst != src
    modifies dst
    ensures ok == (from + n <= src.Length)
    ensures ok ==> dst[..] == old(dst[..at]) + src[from..from + n] + old(dst[at + n..])
  {
    if from + n > src.Length {
      return false;
    }
    for i := 0 to n
      invariant dst[..] == old(dst[..at]) + src[from..from + i] + old(dst[at + i..])
    {
      ghost var before := dst[..];
      dst[at + i] := src[from + i];
      assert dst[..] == before[at + i := src[from + i]];
      assert src[from..from + i + 1] == src[from..from + i] + [src[from + i]];
    }
    ok := true;
  }

  /** A window [head, tail) on the ring. */
  class BufferView {
    const data: array<Wrapped>
    const head: nat
    const tail: nat
    const start: nat
    const stop: nat

    ghost predicate Valid() {
      data.Length > 0 && head <= tail <= head + data.Length && start == head % data.Length && stop == tail % data.Length
    }

    constructor (data: array<Wrapped>, head: nat, tail: nat)
      requires data.Length > 0 && head <= tail <= head + data.Length
      ensures Valid() && this.data == data && this.head == head && this.tail == tail
    {
      this.data, this.head, this.tail := data, head, tail;
      start, stop := head % data.Length, tail % data.Length;
    }

    ghost function Contents(): (s: seq<Wrapped>)
      requires Valid()
      reads data
      ensures |s| == tail - head
    {
      ViewRecords(data[..], View(head, tail))
    }

    /** The i-th record of the window. */
    method Get(i: nat) returns (w: Wrapped)
      requires Valid() && i < tail - head
      ensures w == Contents()[i]
    {
      SlotOfIndex(head, i, data.Length);
      var idx := if start + i >= data.Length then i - (data.Length - start) else start + i;
      w := data[idx];
    }

    /** Copies the window out in at most two pieces. That is right for every window except
        one that fills the whole ring from somewhere in its middle: there the start and the
        stop coincide, and one piece would run past the end of the ring. */
    method CopyToBuffer(dst: array<Wrapped>) returns (ok: bool)
      requires Valid() && dst != data && dst.Length == tail - head
      modifies dst
      ensures ok <==> tail - head < data.Length || start == 0
      ensures ok ==> dst[..] == Contents()
    {
      var cap, n := data.Length, tail - head;
      WindowSlots(head, n, cap);
      WindowPieces(data[..], head, tail);
      if start > stop {
        var split := cap - start;
        ok := CopyEntries(dst, 0, data, start, split);
        assert dst[..split] == data[start..];
        ok := CopyEntries(dst, split, data, 0, stop);
        assert dst[..] == data[start..] + data[..stop];
      } else {
        ok := CopyEntries(dst, 0, data, start, n);
        assert ok ==> dst[..] == data[start..start + n];
      }
    }
  }

  /** The slot of the i-th record, by comparison instead of division. */
  lemma SlotOfIndex(head: nat, i: nat, cap: nat)
    requires i < cap
    ensures (head + i) % cap == if head % cap + i >= cap then head % cap + i - cap else head % cap + i
  {
    var q, r := head / cap, head % cap;
    assert head == cap * q + r;
    if r + i >= cap {
      assert head + i == cap * (q + 1) + (r + i - cap);
      DivUnique(cap, head + i, q + 1, r + i - cap);
    } else {
      DivUnique(cap, head + i, q, r + i);
    }
  }

  lemma WindowSlots(head: nat, n: nat, cap: nat)
    requires cap > 0 && n <= cap
    ensures var start, stop := head % cap, (head + n) % cap;
            && (start + n < cap ==> stop == start + n)
            && (n < cap && start + n >= cap ==> stop == start + n - cap)
            && (n == cap ==> stop == start)
  {
    if n < cap {
      SlotOfIndex(head, n, cap);
    } else {
      assert head + n == cap * (head / cap + 1) + head % cap;
      DivUnique(cap, head + n, head / cap + 1, head % cap);
    }
  }

  /** A window is one piece of the ring, or its end followed by its beginning. */
  lemma WindowPieces(ring: seq<Wrapped>, head: nat, tail: nat)
    requires |ring| > 0 && head <= tail <= head + |ring|
    ensures var start, n := head % |ring|, tail - head;
            var recs := ViewRecords(ring, View(head, tail));
            && (start + n <= |ring| ==> recs == ring[start..start + n])
            && (start + n > |ring| ==> recs == ring[start..] + ring[..start + n - |ring|])
  {
    var cap, start, n := |ring|, head % |ring|, tail - head;
    var recs := ViewRecords(ring, View(head, tail));
    forall i | 0 <= i < n
      ensures recs[i] == ring[if start + i >= cap then start + i - cap else start + i]
    {
      SlotOfIndex(head, i, cap);
    }
  }

  /** In every reachable state the window that a flush copies is shorter than the ring, so
      the copy is right. */
  lemma FlushCopies(s: State)
    requires Reachable(s) && s.phase.Flushing?
    ensures s.phase.view.head <= s.phase.view.tail < s.phase.view.head + |s.buffer.ring|
  {
    ReachableHolds(s);
  }
}
