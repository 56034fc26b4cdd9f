/** The write-ahead log: a file of entries, with markers around each flush. */
module WriteAheadLogs {
  import opened Records

  datatype Entry = Insert(payload: Wrapped) | Delete(payload: Wrapped) | FlushBegin | FlushComplete

  predicate Marker(e: Entry) {
    e.FlushBegin? || e.FlushComplete?
  }

  /** The entries that are no markers. */
  function Entries(log: seq<Entry>): seq<Entry> {
    if log == [] then []
    else
      var n := |log| - 1;
      Entries(log[..n]) + if Marker(log[n]) then [] else [log[n]]
  }

  predicate Began(log: seq<Entry>) {
    exists i :: 0 <= i < |log| && log[i] == FlushBegin
  }

  /** What truncation keeps: the entries behind the first begin marker. */
  function Kept(log: seq<Entry>): seq<Entry> {
    if log == [] then []
    else
      var n := |log| - 1;
      Kept(log[..n]) + if Began(log[..n]) && !Marker(log[n]) then [log[n]] else []
  }

  predicate Deleted(deleted: seq<Record>, r: Record) {
    r in deleted
  }

  function DeletedRecords(log: seq<Entry>): seq<Record> {
    if log == [] then []
    else
      var n := |log| - 1;
      DeletedRecords(log[..n]) + if log[n].Delete? then [log[n].payload.rec] else []
  }

  function Inserts(log: seq<Entry>): seq<Wrapped> {
    if log == [] then []
    else
      var n := |log| - 1;
      Inserts(log[..n]) + if log[n].Insert? then [log[n].payload] else []
  }

  function Undeleted(s: seq<Wrapped>, deleted: seq<Record>): seq<Wrapped> {
    if s == [] then []
    else
      var n := |s| - 1;
      Undeleted(s[..n], deleted) + if Deleted(deleted, s[n].rec) then [] else [s[n]]
  }

  /** What a log brings back: its inserts and tombstones, except those of a record that it
      also deletes. */
  function Replay(log: seq<Entry>): seq<Wrapped> {
    Undeleted(Inserts(log), DeletedRecords(log))
  }

  lemma {:induction false} NothingDeleted(s: seq<Wrapped>)
    ensures Undeleted(s, []) == s
  {
    if s != [] {
      NothingDeleted(s[..|s| - 1]);
      assert s == s[..|s| - 1] + [s[|s| - 1]];
    }
  }

  // ---------------------------------------------------------------------------
  // What a log brings back, by positions
  // ---------------------------------------------------------------------------

  /** An insert whose record no entry of the log deletes, before it or after it. */
  ghost predicate Survives(log: seq<Entry>, i: nat) {
    && i < |log| && log[i].Insert?
    && forall j :: 0 <= j < |log| && log[j].Delete? ==> log[j].payload.rec != log[i].payload.rec
  }

  /** The payloads at these positions, in order. */
  ghost predicate ReadAt(log: seq<Entry>, at: seq<nat>, s: seq<Wrapped>) {
    && |s| == |at|
    && (forall k :: 0 <= k < |at| ==> at[k] < |log| && !Marker(log[at[k]]) && s[k] == log[at[k]].payload)
    && (forall k, l :: 0 <= k < l < |at| ==> at[k] < at[l])
  }

  lemma {:induction false} DeletedIff(log: seq<Entry>, r: Record)
    ensures r in DeletedRecords(log) <==> exists j :: 0 <= j < |log| && log[j].Delete? && log[j].payload.rec == r
  {
    if log != [] {
      var n := |log| - 1;
      DeletedIff(log[..n], r);
      assert forall j :: 0 <= j < n ==> log[j] == log[..n][j];
      if j :| 0 <= j < |log| && log[j].Delete? && log[j].payload.rec == r {
        assert j < n ==> log[..n][j].Delete? && log[..n][j].payload.rec == r;
      }
    }
  }

  /** An insert of a record that is not among these. */
  predicate Outlives(log: seq<Entry>, deleted: seq<Record>, i: nat) {
    i < |log| && log[i].Insert? && log[i].payload.rec !in deleted
  }

  lemma UndeletedSnoc(log: seq<Entry>, e: Entry, deleted: seq<Record>)
    ensures Undeleted(Inserts(log + [e]), deleted)
         == Undeleted(Inserts(log), deleted)
            + if e.Insert? && e.payload.rec !in deleted then [e.payload] else []
  {
    assert (log + [e])[..|log|] == log;
    var s := Inserts(log);
    if e.Insert? {
      assert Inserts(log + [e]) == s + [e.payload] && (s + [e.payload])[..|s|] == s;
    } else {
      assert Inserts(log + [e]) == s + [] == s;
    }
    assert Undeleted(s, deleted) + [] == Undeleted(s, deleted);
  }

  lemma ReadMore(log: seq<Entry>, at: seq<nat>, s: seq<Wrapped>, e: Entry)
    requires ReadAt(log, at, s)
    ensures ReadAt(log + [e], at, s) && (!Marker(e) ==> ReadAt(log + [e], at + [|log|], s + [e.payload]))
  {
  }

  lemma OutlivesMore(log: seq<Entry>, e: Entry, deleted: seq<Record>, i: nat)
    ensures Outlives(log + [e], deleted, i)
       <==> Outlives(log, deleted, i) || (i == |log| && e.Insert? && e.payload.rec !in deleted)
  {
  }

  lemma {:induction false} UndeletedInserts(log: seq<Entry>, deleted: seq<Record>) returns (at: seq<nat>)
    ensures ReadAt(log, at, Undeleted(Inserts(log), deleted))
    ensures forall i: nat :: i in at <==> Outlives(log, deleted, i)
  {
    at := [];
    if log != [] {
      var before, e := log[..|log| - 1], log[|log| - 1];
      at := UndeletedInserts(before, deleted);
      assert log == before + [e];
      hide Undeleted, Inserts, ReadAt, Outlives;
      UndeletedSnoc(before, e, deleted);
      ReadMore(before, at, Undeleted(Inserts(before), deleted), e);
      forall i: nat ensures Outlives(log, deleted, i)
                       <==> Outlives(before, deleted, i) || (i == |before| && e.Insert? && e.payload.rec !in deleted) {
        OutlivesMore(before, e, deleted, i);
      }
      if e.Insert? && e.payload.rec !in deleted {
        at := at + [|before|];
      }
    }
  }

  /** Replay reads exactly the surviving inserts, in their order. */
  lemma ReplayReads(log: seq<Entry>) returns (at: seq<nat>)
    ensures ReadAt(log, at, Replay(log)) && forall i: nat :: i in at <==> Survives(log, i)
  {
    at := UndeletedInserts(log, DeletedRecords(log));
    forall i: nat | i < |log| && log[i].Insert?
      ensures Outlives(log, DeletedRecords(log), i) <==> Survives(log, i)
    {
      DeletedIff(log, log[i].payload.rec);
    }
  }

  // ---------------------------------------------------------------------------
  // The log file
  // ---------------------------------------------------------------------------

  class WriteAheadLogger {
    var file: seq<Entry>
    var lsn: nat

    ghost predicate Valid()
      reads this
    {
      lsn == |file|
    }

    /** Opens the log, with what an earlier run left in it. */
    constructor (file: seq<Entry>)
      ensures Valid() && this.file == file
    {
      this.file, lsn := file, |file|;
    }

    /** Writes at the current position. */
    method Write(e: Entry)
      requires lsn <= |file|
      modifies this
      ensures lsn == old(lsn) + 1
      ensures file == old(file)[..old(lsn)] + [e] + if old(lsn) < |old(file)| then old(file)[old(lsn) + 1..] else []
    {
      file := file[..lsn] + [e] + if lsn < |file| then file[lsn + 1..] else [];
      lsn := lsn + 1;
    }

    method Append(w: Wrapped)
      requires Valid()
      modifies this
      ensures Valid() && file == old(file) + [Insert(w)]
    {
      Write(Insert(w));
    }

    method Remove(w: Wrapped)
      requires Valid()
      modifies this
      ensures Valid() && file == old(file) + [Delete(w)]
    {
      Write(Delete(w));
    }

    method MarkBegin()
      requires Valid()
      modifies this
      ensures Valid() && file == old(file) + [FlushBegin]
    {
      Write(FlushBegin);
    }

    /** Marks the flush complete and rewrites the file with what came after its beginning. */
    method MarkComplete()
      requires Valid()
      modifies this
      ensures Valid() && file == Kept(old(file))
    {
      hide Kept, Began;
      Write(FlushComplete);
      ghost var whole := file;
      assert whole == old(file) + [FlushComplete];
      KeptSnoc(old(file), FlushComplete);
      var remaining, began, offset := [], false, 0;
      NothingKept();
      while offset < |file|
        invariant file == whole && offset <= |file|
        invariant remaining == Kept(file[..offset]) && began == Began(file[..offset])
      {
        var e := file[offset];
        assert file[..offset + 1] == file[..offset] + [e];
        KeptSnoc(file[..offset], e);
        offset := offset + 1;
        if e == FlushBegin {
          began := true;
        }
        if began && e != FlushBegin && e != FlushComplete {
          remaining := remaining + [e];
        }
      }
      assert file[..offset] == whole;
      file, lsn := [], 0;
      for i := 0 to |remaining|
        invariant lsn == |file| && file == remaining[..i]
      {
        Write(remaining[i]);
      }
    }
  }

  lemma NothingKept()
    ensures Kept([]) == [] && !Began([])
  {
  }

  lemma KeptSnoc(log: seq<Entry>, e: Entry)
    ensures Kept(log + [e]) == Kept(log) + if Began(log) && !Marker(e) then [e] else []
    ensures Began(log + [e]) <==> Began(log) || e == FlushBegin
  {
    assert (log + [e])[..|log|] == log;
    BeganSnoc(log, e);
  }

  lemma BeganSnoc(log: seq<Entry>, e: Entry)
    ensures Began(log + [e]) <==> Began(log) || e == FlushBegin
  {
    var more := log + [e];
    if Began(log) {
      var i :| 0 <= i < |log| && log[i] == FlushBegin;
      assert more[i] == FlushBegin;
    }
    if e == FlushBegin {
      assert more[|log|] == FlushBegin;
    }
  }

  /** What a buffer takes of a sequence of appends: it refuses the rest. */
  function Fitting(hwm: nat, s: seq<Wrapped>): seq<Wrapped> {
    if |s| <= hwm then s else s[..hwm]
  }

  lemma FittingSnoc(hwm: nat, s: seq<Wrapped>, w: Wrapped)
    ensures Fitting(hwm, s + [w]) == if |Fitting(hwm, s)| < hwm then Fitting(hwm, s) + [w] else Fitting(hwm, s)
  {
  }

  /** Reads the log back into an empty buffer, oldest entry first. */
  method BuildBufferFromLog(log: seq<Entry>, hwm: nat) returns (buffer: seq<Wrapped>)
    ensures buffer == Fitting(hwm, Replay(log))
  {
    var entries: seq<Wrapped>, deleted: seq<Record> := [], [];
    for i := 0 to |log|
      invariant entries == Inserts(log[..i]) && deleted == DeletedRecords(log[..i])
    {
      assert log[..i + 1][..i] == log[..i];
      var e := log[i];
      if e.FlushBegin? || e.FlushComplete? {
        continue;
      }
      if e.Delete? {
        deleted := deleted + [e.payload.rec];
      } else {
        entries := entries + [e.payload];
      }
    }
    assert log[..|log|] == log;
    buffer := AppendUndeleted(entries, deleted, hwm);
  }

  method AppendUndeleted(entries: seq<Wrapped>, deleted: seq<Record>, hwm: nat) returns (buffer: seq<Wrapped>)
    ensures buffer == Fitting(hwm, Undeleted(entries, deleted))
  {
    buffer := [];
    for i := 0 to |entries|
      invariant buffer == Fitting(hwm, Undeleted(entries[..i], deleted))
    {
      assert entries[..i + 1][..i] == entries[..i];
      FittingSnoc(hwm, Undeleted(entries[..i], deleted), entries[i]);
      var found := false;
      for j := 0 to |deleted|
        invariant found <==> Deleted(deleted[..j], entries[i].rec)
      {
        assert deleted[..j + 1] == deleted[..j] + [deleted[j]];
        if deleted[j] == entries[i].rec {
          found := true;
        }
      }
      assert deleted[..|deleted|] == deleted;
      if !found && |buffer| < hwm {
        buffer := buffer + [entries[i]];
      }
    }
    assert entries[..|entries|] == entries;
  }

  // ---------------------------------------------------------------------------
  // What truncation keeps
  // ---------------------------------------------------------------------------

  lemma {:induction false} KeptNothing(log: seq<Entry>)
    requires !Began(log)
    ensures Kept(log) == []
  {
    if log != [] {
      var n := |log| - 1;
      assert log == log[..n] + [log[n]];
      BeganSnoc(log[..n], log[n]);
      KeptNothing(log[..n]);
    }
  }

  lemma {:induction false} KeptConcat(a: seq<Entry>, b: seq<Entry>)
    requires Began(a)
    ensures Kept(a + b) == Kept(a) + Entries(b) && Began(a + b)
  {
    if b == [] {
      assert a + b == a && Kept(a) + [] == Kept(a);
    } else {
      var n := |b| - 1;
      hide Kept, Began;
      KeptConcat(a, b[..n]);
      assert a + b == (a + b[..n]) + [b[n]];
      KeptSnoc(a + b[..n], b[n]);
    }
  }

  /** Some entry follows a begin marker. */
  ghost predicate EntryBehindMarker(log: seq<Entry>) {
    exists i, j :: 0 <= i < j < |log| && log[i] == FlushBegin && !Marker(log[j])
  }

  lemma BehindSnoc(log: seq<Entry>, e: Entry)
    ensures EntryBehindMarker(log + [e]) <==> EntryBehindMarker(log) || (Began(log) && !Marker(e))
  {
    var more := log + [e];
    if EntryBehindMarker(log) {
      var i, j :| 0 <= i < j < |log| && log[i] == FlushBegin && !Marker(log[j]);
      assert more[i] == FlushBegin && !Marker(more[j]);
    }
    if Began(log) && !Marker(e) {
      var i :| 0 <= i < |log| && log[i] == FlushBegin;
      assert more[i] == FlushBegin && more[|log|] == e;
    }
  }

  /** Only such an entry is kept. */
  lemma {:induction false} KeptNothingIff(log: seq<Entry>)
    ensures Kept(log) == [] <==> !EntryBehindMarker(log)
  {
    if log != [] {
      hide Kept, Began, EntryBehindMarker;
      var n := |log| - 1;
      assert log == log[..n] + [log[n]];
      KeptNothingIff(log[..n]);
      KeptSnoc(log[..n], log[n]);
      BehindSnoc(log[..n], log[n]);
    }
  }

  /** Truncation keeps exactly what came after the matching begin marker if and only if no
      entry follows an earlier begin marker, left over from a flush that never completed. */
  lemma KeptSinceBegin(before: seq<Entry>, since: seq<Entry>)
    ensures Kept(before + [FlushBegin] + since) == Kept(before) + Entries(since)
    ensures Kept(before + [FlushBegin] + since) == Entries(since) <==> !EntryBehindMarker(before)
  {
    KeptNothingIff(before);
    var a := before + [FlushBegin];
    BeganSnoc(before, FlushBegin);
    assert a[..|before|] == before;
    assert Kept(a) == Kept(before) + [];
    KeptConcat(a, since);
    assert |Kept(before) + Entries(since)| == |Entries(since)| ==> Kept(before) == [];
    assert Kept(before) == [] ==> Kept(before) + Entries(since) == Entries(since);
  }

  /** A flush interrupted by a crash leaves its marker behind, and the next flush that
      completes then keeps an entry that it has flushed itself. */
  lemma StaleMarkerKeepsFlushed(w: Wrapped)
    ensures var before := [FlushBegin, Insert(w)]; Kept(before + [FlushBegin]) == [Insert(w)]
  {
    var before := [FlushBegin, Insert(w)];
    KeptSinceBegin([], [Insert(w)]);
    assert [] + [FlushBegin] + [Insert(w)] == before;
    assert Entries([Insert(w)]) == [Insert(w)] by { assert [Insert(w)][..0] == []; }
    KeptSinceBegin(before, []);
    assert before + [FlushBegin] + [] == before + [FlushBegin];
  }

  // ---------------------------------------------------------------------------
  // Any interleaving of calls
  // ---------------------------------------------------------------------------

  /** The locked calls: an entry is written, a flush begins, a flush completes. */
  datatype Call = Log(entry: Entry) | Begin | Complete

  function Apply(file: seq<Entry>, call: Call): seq<Entry> {
    match call
    case Log(e) => file + [e]
    case Begin => file + [FlushBegin]
    case Complete => Kept(file)
  }

  function Run(file: seq<Entry>, calls: seq<Call>): seq<Entry> {
    if calls == [] then file else Apply(Run(file, calls[..|calls| - 1]), calls[|calls| - 1])
  }

  /** A flush has begun and not completed. */
  predicate InFlush(calls: seq<Call>) {
    calls != [] &&
    var n := |calls| - 1;
    match calls[n]
    case Log(_) => InFlush(calls[..n])
    case Begin => true
    case Complete => false
  }

  /** Flushes begin and complete in turn; only entries are logged in between. */
  predicate InTurn(calls: seq<Call>) {
    calls == [] ||
    (var n := |calls| - 1;
     InTurn(calls[..n]) &&
     match calls[n]
     case Log(e) => !Marker(e)
     case Begin => !InFlush(calls[..n])
     case Complete => InFlush(calls[..n]))
  }

  /** The entries logged since the last flush began; all of them if none has. */
  function Since(file: seq<Entry>, calls: seq<Call>): seq<Entry> {
    if calls == [] then file
    else
      var n := |calls| - 1;
      match calls[n]
      case Log(e) => Since(file, calls[..n]) + [e]
      case Begin => []
      case Complete => Since(file, calls[..n])
  }

  /** The entries that the file still held when the last flush began. */
  function BeforeFlush(file: seq<Entry>, calls: seq<Call>): seq<Entry> {
    if calls == [] then []
    else
      var n := |calls| - 1;
      match calls[n]
      case Log(_) => BeforeFlush(file, calls[..n])
      case Begin => Since(file, calls[..n])
      case Complete => []
  }

  ghost predicate NoMarkers(log: seq<Entry>) {
    forall i :: 0 <= i < |log| ==> !Marker(log[i])
  }

  lemma {:induction false} EntriesOfEntries(log: seq<Entry>)
    requires NoMarkers(log)
    ensures Entries(log) == log && !Began(log)
  {
    if log != [] {
      var n := |log| - 1;
      EntriesOfEntries(log[..n]);
      assert log == log[..n] + [log[n]];
    }
  }

  lemma {:induction false} SinceHasNoMarkers(file: seq<Entry>, calls: seq<Call>)
    requires NoMarkers(file) && InTurn(calls)
    ensures NoMarkers(Since(file, calls)) && NoMarkers(BeforeFlush(file, calls))
  {
    if calls != [] {
      SinceHasNoMarkers(file, calls[..|calls| - 1]);
    }
  }

  /** For every interleaving in which flushes begin and complete in turn, the file holds the
      entries since the last begin, in order; while that flush is under way, also what was
      there before, and one marker between the two. */
  lemma {:induction false} LogLaw(file: seq<Entry>, calls: seq<Call>)
    requires NoMarkers(file) && InTurn(calls)
    ensures Run(file, calls)
         == if InFlush(calls) then BeforeFlush(file, calls) + [FlushBegin] + Since(file, calls) else Since(file, calls)
  {
    if calls != [] {
      var n := |calls| - 1;
      var before := calls[..n];
      LogLaw(file, before);
      SinceHasNoMarkers(file, before);
      if calls[n] == Complete {
        var old', since := BeforeFlush(file, before), Since(file, before);
        KeptSinceBegin(old', since);
        EntriesOfEntries(old');
        EntriesOfEntries(since);
        KeptNothing(old');
      } else if calls[n] == Begin {
        assert Since(file, before) + [FlushBegin] + [] == Since(file, before) + [FlushBegin];
      }
    }
  }

  /** After a flush completes, the file is exactly what was logged since it began. */
  lemma CompletedLog(file: seq<Entry>, calls: seq<Call>)
    requires NoMarkers(file) && InTurn(calls) && InFlush(calls)
    ensures Run(file, calls + [Complete]) == Since(file, calls) && NoMarkers(Run(file, calls + [Complete]))
  {
    var more := calls + [Complete];
    assert more[..|more| - 1] == calls;
    LogLaw(file, more);
    SinceHasNoMarkers(file, calls);
  }
}
