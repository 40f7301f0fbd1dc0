/** A consumer at work: the reader and retention as objects (internal/wal/reader.go,
    internal/wal/retention.go), and whole runs of appends, rolls, retention, reads and commits. */
module Consumer {
  import opened Base
  import opened Bytes
  import opened Segment
  import opened Wal
  import opened WalLog
  import opened Reader
  import opened Runs
  import W = WalRuns

  class LogReader {
    const log: Log
    var rd: ReaderState

    /** NewReader, once the offset file is read. */
    constructor (log: Log, stored: Option<nat>)
      ensures this.log == log && rd == NewReader(log.State(), stored)
    {
      this.log := log;
      var oldest := if log.segs == [] then 0 else log.segs[0].base;
      var off := if stored.Some? then stored.value else oldest;
      var pos := off;
      if pos < oldest {
        pos := oldest;
      }
      this.rd := ReaderState(pos, off, None);
    }

    /** segmentFor as written: a binary search for the first segment that ends past the offset. */
    method FindSegment(offset: nat) returns (r: Option<nat>)
      requires Handoff(log.segs)
      ensures r == SegmentFor(log.segs, offset)
    {
      var segs := log.segs;
      var lo, hi := 0, |segs|;
      while lo < hi
        invariant 0 <= lo <= hi <= |segs|
        invariant forall k :: 0 <= k < lo ==> segs[k].End() <= offset
        invariant forall k :: hi <= k < |segs| ==> offset < segs[k].End()
      {
        var mid := (lo + hi) / 2;
        if segs[mid].End() > offset {
          forall k | mid < k < |segs|
            ensures offset < segs[k].End()
          {
            HandoffOrder(segs, mid, k);
          }
          hi := mid;
        } else {
          forall k | 0 <= k < mid
            ensures segs[k].End() <= offset
          {
            HandoffOrder(segs, k, mid);
          }
          lo := mid + 1;
        }
      }
      FirstPast(segs, offset, lo);
      if lo == |segs| || offset < segs[lo].base {
        return None;
      }
      return Some(lo);
    }

    /** skipTo: the scanning loop over the open file. */
    method Skip(scan: Scanner, start: Cursor, target: nat) returns (c: Cursor, ok: bool)
      ensures (c, ok) == SkipTo(scan, start, target)
    {
      c := start;
      while c.offset < target
        invariant SkipTo(scan, start, target) == SkipTo(scan, c, target)
        decreases target - c.offset
      {
        var s := scan(c.at, c.offset);
        if s.Torn? {
          return c, false;
        }
        c := Cursor(c.base, c.offset + 1, s.next);
      }
      return c, true;
    }

    /** position and the read, on the file of the segment found. */
    method ReadSegment(scan: Scanner, header: HeaderResult, base: nat) returns (r: Read)
      modifies this
      ensures (r, rd) == ReadFrom(scan, header, base, old(rd))
    {
      var c: Cursor;
      if rd.cursor.Some? && rd.cursor.value.base == base && rd.pos >= rd.cursor.value.offset {
        c := rd.cursor.value;
      } else {
        rd := rd.(cursor := None);
        if header != HeaderBase(base) {
          return Corrupt;
        }
        c := Cursor(base, base, HEADER_LEN);
      }
      var ok;
      c, ok := Skip(scan, c, rd.pos);
      rd := rd.(cursor := Some(c));
      if !ok {
        return Corrupt;
      }
      var s := scan(c.at, c.offset);
      if s.Torn? {
        return NoRecord;
      }
      rd := ReaderState(rd.pos + 1, rd.committed, Some(Cursor(base, c.offset + 1, s.next)));
      return Got(s.rec);
    }

    /** Next: nothing at the head; otherwise find the segment and read one record from it. */
    method Advance() returns (r: Read)
      requires Handoff(log.segs)
      modifies this
      ensures (r, rd) == Next(log.o, log.State(), old(rd))
    {
      if rd.pos >= log.next {
        return NoRecord;
      }
      var found := FindSegment(rd.pos);
      if found.None? {
        return NotOnDisk;
      }
      var base := log.segs[found.value].base;
      var f := FileOf(log.disk.dir, base, 0);
      if f.None? {
        rd := rd.(cursor := None);
        return Corrupt;
      }
      r := ReadSegment(FileScanner(log.o, f.value.bytes), ReadHeader(f.value.bytes), base);
    }

    /** Commit: the position becomes the stored offset. */
    method Commit() returns (stored: seq<Byte>)
      modifies this
      ensures rd == old(rd).(committed := old(rd).pos) && stored == EncodeOffset(log.o, rd.pos)
      ensures rd.pos < TWO_64 ==> DecodeOffset(log.o, stored) == Some(rd.pos)
    {
      stored := EncodeOffset(log.o, rd.pos);
      rd := rd.(committed := rd.pos);
      if rd.pos < TWO_64 {
        OffsetRoundTrip(log.o, rd.pos);
      }
    }
  }

  /** NewReader: a missing offset file makes a new consumer, one that does not decode is an error. */
  method Attach(log: Log, file: Option<seq<Byte>>) returns (r: Option<LogReader>)
    ensures r.Some? <==> OpenReader(log.o, log.State(), file).Some?
    ensures r.Some? ==> fresh(r.value) && r.value.log == log && Some(r.value.rd) == OpenReader(log.o, log.State(), file)
  {
    if file.None? {
      var reader := new LogReader(log, None);
      return Some(reader);
    }
    var stored := DecodeOffset(log.o, file.value);
    if stored.None? {
      return None;
    }
    var reader := new LogReader(log, stored);
    return Some(reader);
  }

  lemma {:induction false} FirstPast(segs: seq<SegMeta>, offset: nat, i: nat)
    requires i <= |segs|
    requires forall k :: 0 <= k < i ==> segs[k].End() <= offset
    requires i < |segs| ==> offset < segs[i].End()
    ensures SegmentFor(segs, offset) == if i == |segs| || offset < segs[i].base then None else Some(i)
    decreases i
  {
    if i > 0 {
      FirstPast(segs[1..], offset, i - 1);
    }
  }

  // ---- Retention ----

  datatype RetentionPolicy = RetentionPolicy(maxBytes: int, maxAge: int, minRetainOffset: nat)

  function TotalBytes(segs: seq<SegMeta>): nat {
    if segs == [] then 0 else segs[0].bytes + TotalBytes(segs[1..])
  }

  /** segmentNewestTime: the time of the last record that scans, 0 when none does. */
  function NewestTime(o: Options, bytes: seq<Byte>, at: nat, newest: int): int
    decreases |bytes| - at
  {
    var s := ScanRecord(o, bytes, at, 0);
    if s.Torn? then newest else NewestTime(o, bytes, s.next, s.rec.time)
  }

  /** Over a segment's records that is the time of the last. */
  lemma {:induction false} NewestIs(o: Options, bytes: seq<Byte>, at: nat, es: seq<Entry>, newest: int)
    requires at <= |bytes| && bytes[at..] == EncodeAll(o, es) && AllFit(o, es)
    ensures NewestTime(o, bytes, at, newest) == if es == [] then newest else Last(es).time
    decreases |es|
  {
    if es != [] {
      assert CutAt(o, bytes, at, es);
      assert |EncodeAll(o, es)| == Size(es[0]) + |EncodeAll(o, es[1..])|;
      CutPastFirst(o, bytes, at, es);
      ScanInvertsEncode(o, bytes, at, es[0], 0);
      NewestIs(o, bytes, at + Size(es[0]), es[1..], es[0].time);
    }
  }

  lemma {:induction false} NewestOfSegment(o: Options, f: SegFile, m: SegMeta, log: seq<Entry>)
    requires Wal.Stored(o, f, m, log) && AllFit(o, log)
    ensures NewestTime(o, f.bytes, HEADER_LEN, 0) == if m.records == 0 then 0 else log[m.End() - 1].time
  {
    var es := log[m.base..m.End()];
    assert f.bytes[HEADER_LEN..] == EncodeAll(o, es);
    NewestIs(o, f.bytes, HEADER_LEN, es, 0);
  }

  /** The bytes of the segments from the i-th on. */
  lemma {:induction false} TotalIs(segs: seq<SegMeta>, i: nat)
    requires i <= |segs|
    ensures TotalBytes(segs[i..]) == if i == |segs| then 0 else segs[i].bytes + TotalBytes(segs[i + 1..])
  {
  }

  /** The oldest segment may go: no consumer needs it, and it is over the size budget or too old. A segment whose file
      cannot be opened for the age test is not too old. */
  predicate Deletable(o: Options, s: LogState, p: RetentionPolicy, now: int, unreadable: set<nat>)
    requires s.segs != [] && s.dir != []
  {
    && s.segs[0].End() <= p.minRetainOffset
    && (|| (p.maxBytes > 0 && TotalBytes(s.segs) > p.maxBytes)
        || (p.maxAge > 0 && s.segs[0].base !in unreadable
          && now - NewestTime(o, s.dir[0].bytes, HEADER_LEN, 0) > p.maxAge))
  }

  function DropN(s: LogState, n: nat): LogState
    requires n <= |s.segs| == |s.dir|
  {
    s.(dir := s.dir[n..], segs := s.segs[n..])
  }

  /** Retain: deletes a prefix of the sealed segments, each deletable when its turn came, and stops only at
      the active one, at one that is not deletable, or at one the file system will not remove. */
  method ApplyRetention(log: Log, p: RetentionPolicy, now: int, unreadable: set<nat>, stuck: set<nat>)
    returns (deleted: nat, failed: bool)
    requires |log.segs| == |log.disk.dir| > 0
    modifies log, log.disk
    ensures deleted < |old(log.segs)| && log.State() == DropN(old(log.State()), deleted)
    ensures forall i :: 0 <= i < deleted ==> Deletable(log.o, DropN(old(log.State()), i), p, now, unreadable)
    ensures failed ==> log.segs[0].base in stuck
    ensures failed || |log.segs| == 1 || !Deletable(log.o, log.State(), p, now, unreadable)
    ensures forall i :: 0 <= i < deleted ==> old(log.segs)[i].End() <= p.minRetainOffset
    ensures !failed && |log.segs| > 1 && log.segs[0].End() <= p.minRetainOffset ==>
      && (p.maxBytes > 0 ==> TotalBytes(log.segs) <= p.maxBytes)
      && (p.maxAge > 0 && log.segs[0].base !in unreadable ==>
            now - NewestTime(log.o, log.disk.dir[0].bytes, HEADER_LEN, 0) <= p.maxAge)
  {
    var total, i := 0, |log.segs|;
    while i > 0
      invariant 0 <= i <= |log.segs| && total == TotalBytes(log.segs[i..])
    {
      i := i - 1;
      assert log.segs[i..][1..] == log.segs[i + 1..];
      total := log.segs[i].bytes + total;
    }
    assert log.segs[0..] == log.segs;
    deleted, failed := 0, false;
    while |log.segs| > 1
      invariant deleted + |log.segs| == |old(log.segs)| && |log.segs| == |log.disk.dir| > 0
      invariant log.State() == DropN(old(log.State()), deleted) && log.segs == old(log.segs)[deleted..]
      invariant forall k :: 0 <= k < deleted ==> old(log.segs)[k].End() <= p.minRetainOffset
      invariant total == TotalBytes(log.segs)
      invariant forall k :: 0 <= k < deleted ==> Deletable(log.o, DropN(old(log.State()), k), p, now, unreadable)
      decreases |log.segs|
    {
      var s := log.segs[0];
      if s.End() > p.minRetainOffset {
        return;
      }
      var overSize := p.maxBytes > 0 && total > p.maxBytes;
      var overAge := false;
      if p.maxAge > 0 && s.base !in unreadable {
        overAge := now - NewestTime(log.o, log.disk.dir[0].bytes, HEADER_LEN, 0) > p.maxAge;
      }
      if !overSize && !overAge {
        return;
      }
      if s.base in stuck {
        return deleted, true;
      }
      DropMore(old(log.State()), deleted);
      log.disk.dir := log.disk.dir[1..];
      log.segs := log.segs[1..];
      total := total - s.bytes;
      deleted := deleted + 1;
    }
  }

  lemma {:induction false} DropMore(s: LogState, n: nat)
    requires n < |s.segs| == |s.dir|
    ensures DropN(s, n).dir[1..] == DropN(s, n + 1).dir && DropN(s, n).segs[1..] == DropN(s, n + 1).segs
  {
  }

  // ---- Whole runs ----

  /** A running log, its history, one reader, where that reader started and what it was given; its offset file, and the
      offset last committed by it or by a reader of that name before it. */
  datatype World = World(st: LogState, log: seq<Entry>, rd: ReaderState, start: nat, got: seq<Record>,
                         file: Option<seq<Byte>>, last: Option<nat>)

  /** Writer steps under any sync policy; deletion of the oldest segment within what the reader has committed; reads;
      commits; a new reader of the same name over the running log, or over the log as a crash and the next open leave
      it. */
  datatype Event =
    | Sync | Roll | Append(e: Entry) | Delete
    | ReadNext | CommitOffset
    | Reattach | Crashed(out: Outcome)

  function AfterRead(w: World, r: (Read, ReaderState)): World {
    w.(rd := r.1, got := if r.0.Got? then w.got + [r.0.rec] else w.got)
  }

  ghost predicate Step(o: Options, w: World, ev: Event, w': World) {
    match ev
    case Sync => Open(w.st) && w' == w.(st := SyncActive(w.st))
    case Roll => Open(w.st) && Last(w.st.segs).records > 0 && w' == w.(st := CreateSegment(SyncActive(w.st)))
    case Append(e) =>
      && Open(w.st) && Fits(o, e) && |w.log| + 1 < TWO_64
      && w' == w.(st := WriteRecord(o, w.st, e), log := w.log + [e])
    case Delete =>
      && |w.st.segs| > 1 && w.st.dir != [] && w.st.segs[0].End() <= w.rd.committed
      && w' == w.(st := W.DropOldest(w.st))
    case ReadNext => w' == AfterRead(w, Next(o, w.st, w.rd))
    case CommitOffset =>
      w' == w.(rd := w.rd.(committed := w.rd.pos), file := Some(EncodeOffset(o, w.rd.pos)), last := Some(w.rd.pos))
    case Reattach => OpenReader(o, w.st, w.file).Some? && w' == Begun(o, w, w.st, w.log)
    case Crashed(out) =>
      && w.st.dir != [] && Possible(Last(w.st.dir), out) && Recoverable(Crash(w.st.dir, out), w.st.segs)
      && (var r := Load(Crash(w.st.dir, out), ProbeAll(o, Crash(w.st.dir, out)));
          && r.Loaded? && r.state.next <= |w.log| && OpenReader(o, r.state, w.file).Some?
          && w' == Begun(o, w, r.state, w.log[..r.state.next]))
  }

  /** A reader just made over that log. */
  function Begun(o: Options, w: World, st: LogState, log: seq<Entry>): World
    requires OpenReader(o, st, w.file).Some?
  {
    var rd := OpenReader(o, st, w.file).value;
    World(st, log, rd, rd.pos, [], w.file, w.last)
  }

  ghost function Machine(o: Options): (World, Event, World) -> bool {
    (w, ev, w') => Step(o, w, ev, w')
  }

  /** The records appended at offsets start, start+1, ... up to the reader's position: no gap, no repeat. */
  ghost predicate Consecutive(got: seq<Record>, log: seq<Entry>, start: nat) {
    && (got != [] ==> start + |got| <= |log|)
    && forall i :: 0 <= i < |got| ==> got[i] == At(log[start + i], start + i)
  }

  ghost predicate Follows(o: Options, rd: ReaderState, log: seq<Entry>, start: nat, got: seq<Record>) {
    && ReaderOk(o, rd, log) && rd.committed <= rd.pos
    && start + |got| == rd.pos && Consecutive(got, log, start)
  }

  /** The offset file is what was committed last. */
  ghost predicate FileOk(o: Options, w: World) {
    && w.file == (if w.last.Some? then Some(EncodeOffset(o, w.last.value)) else None)
    && (w.last.Some? ==> w.rd.committed == w.last.value < TWO_64) && w.rd.pos < TWO_64
  }

  /** Retention has not passed what was committed last. */
  ghost predicate Kept(w: World) {
    w.last.Some? ==> OldestOffset(w.st) <= w.last.value
  }

  ghost predicate Good(o: Options, w: World) {
    && Inv(o, w.st, w.log, 0) && OldestOffset(w.st) <= w.rd.pos && Follows(o, w.rd, w.log, w.start, w.got)
    && FileOk(o, w)
  }

  lemma {:induction false} WriterKeepsGood(o: Options, w: World, ev: Event, w': World)
    requires Good(o, w) && (ev.Sync? || ev.Roll? || ev.Append?) && Step(o, w, ev, w')
    ensures Good(o, w') && OldestOffset(w'.st) == OldestOffset(w.st)
  {
    if ev.Append? {
      WriteKeepsInv(o, w.st, w.log, 0, ev.e);
    } else {
      SyncKeepsInv(o, w.st, w.log, 0);
      if ev.Roll? {
        CreateKeepsInv(o, SyncActive(w.st), w.log, 0);
      }
    }
    assert OldestOffset(w'.st) == OldestOffset(w.st);
    ConsecutiveFrame(w.got, w.log, w'.log, w.start);
    if w.rd.cursor.Some? {
      CursorFrame(o, w.rd.cursor.value, w.log, w'.log);
    }
  }

  lemma {:induction false} DeleteKeepsGood(o: Options, w: World, w': World)
    requires Good(o, w) && Step(o, w, Delete, w')
    ensures Good(o, w') && (w.last.Some? ==> OldestOffset(w'.st) <= w.last.value)
  {
    W.RetainKeepsInv(o, w.st, w.log, 0);
    assert w.st.segs[0].End() == w.st.segs[1].base;
  }

  /** What Next answers is what the next record at the position is, and the reader follows on. */
  lemma {:induction false} ReadFollows(o: Options, log: seq<Entry>, rd: ReaderState, start: nat, got: seq<Record>,
                                       r: (Read, ReaderState))
    requires Follows(o, rd, log, start, got)
    requires if rd.pos < |log|
      then r.0 == Got(At(log[rd.pos], rd.pos)) && r.1.pos == rd.pos + 1 && r.1.committed == rd.committed
        && ReaderOk(o, r.1, log)
      else r == (NoRecord, rd)
    ensures rd.pos <= r.1.pos && Follows(o, r.1, log, start, if r.0.Got? then got + [r.0.rec] else got)
  {
  }

  lemma {:induction false} ConsecutiveFrame(got: seq<Record>, log: seq<Entry>, log': seq<Entry>, start: nat)
    requires Consecutive(got, log, start) && log <= log'
    ensures Consecutive(got, log', start)
  {
  }

  lemma {:induction false} ReadKeepsGood(o: Options, w: World, w': World)
    requires Good(o, w) && Step(o, w, ReadNext, w')
    ensures Good(o, w')
  {
    InvReadable(o, w.st, w.log, 0);
    NextReads(o, w.st, w.log, w.rd);
    ReadFollows(o, w.log, w.rd, w.start, w.got, Next(o, w.st, w.rd));
  }

  /** A reader made over a log from what was committed last. */
  lemma {:induction false} BegunIsGood(o: Options, w: World, st: LogState, log: seq<Entry>)
    requires FileOk(o, w) && Inv(o, st, log, 0)
    ensures OpenReader(o, st, w.file).Some? && Good(o, Begun(o, w, st, log))
    ensures Begun(o, w, st, log).start
      == if w.last.Some? && OldestOffset(st) <= w.last.value then w.last.value else OldestOffset(st)
  {
    if w.last.Some? {
      OffsetRoundTrip(o, w.last.value);
    }
    NewReaderStarts(st, w.last);
    OldestWithin(o, st, log);
  }

  lemma {:induction false} OldestWithin(o: Options, st: LogState, log: seq<Entry>)
    requires Inv(o, st, log, 0)
    ensures OldestOffset(st) <= |log| < TWO_64
  {
    if |st.segs| > 1 {
      ChainOrder(st.segs, |log|, 0, |st.segs| - 1);
    }
  }

  /** What a crash and the next open leave. */
  lemma {:induction false} CrashLeaves(o: Options, w: World, out: Outcome)
    requires Good(o, w) && Possible(Last(w.st.dir), out) && Recoverable(Crash(w.st.dir, out), w.st.segs)
    ensures var r := Load(Crash(w.st.dir, out), ProbeAll(o, Crash(w.st.dir, out)));
      && r.Loaded? && r.state.next <= |w.log| && Inv(o, r.state, w.log[..r.state.next], 0)
      && OldestOffset(r.state) == OldestOffset(w.st)
  {
    var dir := Crash(w.st.dir, out);
    InvIsDamaged(o, w.st, w.log, 0);
    CrashKeepsDamaged(o, w.st.dir, w.st.segs, w.log, 0, out);
    var n := LoadRecovers(o, dir, w.st.segs, w.log, 0);
    assert Load(dir, ProbeAll(o, dir)).state.next == n;
    LoadKeepsOldest(o, dir, w.st.segs, w.log, 0);
  }

  /** The next reader goes on where the last commit was, or at the oldest retained offset if that is later; without a
      commit it starts at the oldest. */
  lemma {:induction false} ResumesAtCommit(o: Options, w: World, ev: Event, w': World)
    requires Good(o, w) && (ev.Reattach? || ev.Crashed?) && Step(o, w, ev, w')
    ensures Good(o, w') && w'.last == w.last && w'.got == []
    ensures w.last.Some? ==> w'.start == if OldestOffset(w.st) <= w.last.value then w.last.value else OldestOffset(w.st)
    ensures w.last.None? ==> w'.start == OldestOffset(w.st)
    ensures OldestOffset(w'.st) == OldestOffset(w.st)
  {
    if ev.Reattach? {
      BegunIsGood(o, w, w.st, w.log);
    } else {
      CrashLeaves(o, w, ev.out);
      var st := Load(Crash(w.st.dir, ev.out), ProbeAll(o, Crash(w.st.dir, ev.out))).state;
      BegunIsGood(o, w, st, w.log[..st.next]);
    }
  }

  /** A new reader is never refused: what Commit writes decodes. */
  lemma {:induction false} NeverRefused(o: Options, w: World)
    requires Good(o, w)
    ensures OpenReader(o, w.st, w.file).Some?
  {
    BegunIsGood(o, w, w.st, w.log);
  }

  lemma {:induction false} StepKeepsGood(o: Options, w: World, ev: Event, w': World)
    requires Good(o, w) && Step(o, w, ev, w')
    ensures Good(o, w') && (Kept(w) ==> Kept(w'))
  {
    match ev
    case Delete => DeleteKeepsGood(o, w, w');
    case ReadNext => ReadKeepsGood(o, w, w');
    case CommitOffset => assert OldestOffset(w.st) <= w.rd.pos;
    case Reattach => ResumesAtCommit(o, w, ev, w');
    case Crashed(_) => ResumesAtCommit(o, w, ev, w');
    case _ => WriterKeepsGood(o, w, ev, w');
  }

  /** Whatever appends, rolls, reads, commits, retention within the committed offset, crashes and restarts happen, each
      reader is given exactly the records at consecutive offsets from where it started. */
  lemma {:induction false} ReadsInOrder(o: Options, w: World, evs: seq<Event>, w': World)
    requires Good(o, w) && Run(Machine(o), w, evs, w')
    ensures Good(o, w')
    ensures w'.start + |w'.got| == w'.rd.pos && Consecutive(w'.got, w'.log, w'.start)
    ensures Kept(w) ==> Kept(w')
    decreases |evs|
  {
    if evs != [] {
      var m :| Machine(o)(w, evs[0], m) && Run(Machine(o), m, evs[1..], w');
      StepKeepsGood(o, w, evs[0], m);
      ReadsInOrder(o, m, evs[1..], w');
    }
  }

  /** Any reader starts so: NewReader over a running log, with or without a stored offset. */
  lemma {:induction false} NewReaderIsGood(o: Options, s: LogState, log: seq<Entry>, acked: nat, stored: Option<nat>)
    requires Inv(o, s, log, acked) && (stored.Some? ==> stored.value < TWO_64)
    ensures var rd, file := NewReader(s, stored), if stored.Some? then Some(EncodeOffset(o, stored.value)) else None;
      Good(o, World(s, log, rd, rd.pos, [], file, stored))
  {
    OldestWithin(o, s, log);
  }
}
