/** Consumers over the log (internal/wal/reader.go): a cursor that follows appends, rolls and retention. */
module Reader {
  import opened Base
  import opened Bytes
  import opened Segment
  import opened Wal

  /** The open file: its base, and the offset its byte position `at` corresponds to. */
  datatype Cursor = Cursor(base: nat, offset: nat, at: nat)

  datatype ReaderState = ReaderState(pos: nat, committed: nat, cursor: Option<Cursor>)

  datatype Read = NoRecord | NotOnDisk | Corrupt | Got(rec: Record)

  function OldestOffset(s: LogState): nat {
    if s.segs == [] then 0 else s.segs[0].base
  }

  /** NewReader: resume at the stored offset, or start at the oldest; never before the oldest. */
  function NewReader(s: LogState, stored: Option<nat>): ReaderState {
    var off := if stored.Some? then stored.value else OldestOffset(s);
    ReaderState(if off < OldestOffset(s) then OldestOffset(s) else off, off, None)
  }

  /** NewReader over the consumer's offset file: absent for a new name, and refused when it does not decode. */
  function OpenReader(o: Options, s: LogState, file: Option<seq<Byte>>): Option<ReaderState> {
    match file
    case None => Some(NewReader(s, None))
    case Some(bytes) =>
      match DecodeOffset(o, bytes)
      case None => None
      case Some(offset) => Some(NewReader(s, Some(offset)))
  }

  /** A reader resumes at the stored offset, or at the oldest retained one if that is later; a new name starts at the
      oldest. It has nothing open. */
  lemma {:induction false} NewReaderStarts(s: LogState, stored: Option<nat>)
    ensures var rd, oldest := NewReader(s, stored), OldestOffset(s);
      && (stored.None? ==> rd.pos == oldest && rd.committed == oldest)
      && (stored.Some? ==> rd.committed == stored.value)
      && (stored.Some? && oldest <= stored.value ==> rd.pos == stored.value)
      && (stored.Some? && stored.value < oldest ==> rd.pos == oldest)
      && rd.cursor.None?
  {
  }

  /** segmentFor: the first segment that ends past `offset`, if it also starts at or before it. */
  function SegmentFor(segs: seq<SegMeta>, offset: nat): (r: Option<nat>)
    ensures r.Some? ==> r.value < |segs| && segs[r.value].base <= offset < segs[r.value].End()
  {
    if segs == [] then None
    else if segs[0].End() > offset then if offset < segs[0].base then None else Some(0)
    else
      var r := SegmentFor(segs[1..], offset);
      if r.None? then None else Some(r.value + 1)
  }

  /** scanRecord on an open file: from a byte position and the offset it stands for. */
  type Scanner = (nat, nat) -> ScanResult

  function FileScanner(o: Options, bytes: seq<Byte>): Scanner {
    (at: nat, offset: nat) => ScanRecord(o, bytes, at, offset)
  }

  /** skipTo: scan records until the cursor is at `target`; false when a record does not scan. */
  function SkipTo(scan: Scanner, c: Cursor, target: nat): (Cursor, bool)
    decreases target - c.offset
  {
    if c.offset >= target then (c, true)
    else
      var s := scan(c.at, c.offset);
      if s.Torn? then (c, false) else SkipTo(scan, Cursor(c.base, c.offset + 1, s.next), target)
  }

  /** The part of Next that works on the segment found: reuse the open file when the target is at or ahead
      of its cursor, else reopen and start after the header. */
  function ReadFrom(scan: Scanner, header: HeaderResult, base: nat, rd: ReaderState): (Read, ReaderState) {
    var reuse := rd.cursor.Some? && rd.cursor.value.base == base && rd.pos >= rd.cursor.value.offset;
    if !reuse && header != HeaderBase(base) then (Corrupt, rd.(cursor := None))
    else
      var (c, ok) := SkipTo(scan, if reuse then rd.cursor.value else Cursor(base, base, HEADER_LEN), rd.pos);
      if !ok then (Corrupt, rd.(cursor := Some(c)))
      else
        match scan(c.at, c.offset)
        case Torn => (NoRecord, rd.(cursor := Some(c)))
        case Scanned(rec, next) =>
          (Got(rec), ReaderState(rd.pos + 1, rd.committed, Some(Cursor(base, c.offset + 1, next))))
  }

  /** The file of that name in the directory, from the i-th entry on. */
  function FileOf(dir: Dir, base: nat, i: nat): (r: Option<SegFile>)
    requires i <= |dir|
    ensures r.Some? ==> r.value in dir && r.value.base == base
    decreases |dir| - i
  {
    if i == |dir| then None else if dir[i].base == base then Some(dir[i]) else FileOf(dir, base, i + 1)
  }

  /** Next: nothing at the head; otherwise the segment that holds the position, and its file. The segment list may
      repeat an empty entry, as that of a read-only log does. */
  function Next(o: Options, s: LogState, rd: ReaderState): (Read, ReaderState) {
    if rd.pos >= s.next then (NoRecord, rd)
    else
      match SegmentFor(s.segs, rd.pos)
      case None => (NotOnDisk, rd)
      case Some(i) =>
        match FileOf(s.dir, s.segs[i].base, 0)
        case None => (Corrupt, rd.(cursor := None))
        case Some(f) => ReadFrom(FileScanner(o, f.bytes), ReadHeader(f.bytes), s.segs[i].base, rd)
  }

  // ---- What the cursor means ----

  /** Where record k starts in the segment that starts at `base`. */
  function PosOf(o: Options, base: nat, log: seq<Entry>, k: nat): nat
    requires base <= k <= |log|
  {
    |Image(o, base, log[base..k])|
  }

  predicate CursorOk(o: Options, c: Cursor, log: seq<Entry>) {
    c.base <= c.offset <= |log| && c.at == PosOf(o, c.base, log, c.offset)
  }

  ghost predicate ReaderOk(o: Options, rd: ReaderState, log: seq<Entry>) {
    rd.cursor.Some? ==> CursorOk(o, rd.cursor.value, log)
  }

  /** Every record of segment m is found at its place. */
  ghost predicate Serves(scan: Scanner, o: Options, m: SegMeta, log: seq<Entry>) {
    && m.End() <= |log|
    && forall k :: m.base <= k < m.End() ==>
      scan(PosOf(o, m.base, log, k), k) == Scanned(At(log[k], k), PosOf(o, m.base, log, k + 1))
  }

  lemma {:induction false} SliceSplit(log: seq<Entry>, base: nat, k: nat, end: nat)
    requires base <= k < end <= |log|
    ensures log[base..end] == log[base..k] + ([log[k]] + log[k + 1..end])
    ensures log[base..k + 1] == log[base..k] + [log[k]]
  {
  }

  lemma {:induction false} MiddleSlice(bytes: seq<Byte>, a: seq<Byte>, b: seq<Byte>, c: seq<Byte>)
    requires bytes == a + (b + c)
    ensures |a| + |b| <= |bytes| && bytes[|a|..|a| + |b|] == b
  {
  }

  lemma {:induction false} ImageSplit(o: Options, base: nat, a: seq<Entry>, e: Entry, rest: seq<Entry>)
    ensures Image(o, base, a + ([e] + rest)) == Image(o, base, a) + (Encode(o, e) + EncodeAll(o, rest))
  {
    EncodeAllConcat(o, a, [e] + rest);
    EncodeAllConcat(o, [e], rest);
    EncodeAllOne(o, e);
  }

  /** The file's bytes begin with the records of segment m; more may follow. */
  ghost predicate Shelved(o: Options, f: SegFile, m: SegMeta, log: seq<Entry>) {
    f.base == m.base && m.End() <= |log| && Image(o, m.base, log[m.base..m.End()]) <= f.bytes
  }

  /** Record k of such a segment sits right after the records before it. */
  lemma {:induction false} RecordInPlace(o: Options, f: SegFile, m: SegMeta, log: seq<Entry>, k: nat)
    requires Shelved(o, f, m, log) && m.base <= k < m.End()
    ensures var at := PosOf(o, m.base, log, k);
      && at + Size(log[k]) == PosOf(o, m.base, log, k + 1) <= |f.bytes|
      && f.bytes[at..at + Size(log[k])] == Encode(o, log[k])
  {
    var a, e, rest := log[m.base..k], log[k], log[k + 1..m.End()];
    var image := Image(o, m.base, log[m.base..m.End()]);
    SliceSplit(log, m.base, k, m.End());
    ImageSplit(o, m.base, a, e, rest);
    ImageExtend(o, m.base, a, e);
    MiddleSlice(image, Image(o, m.base, a), Encode(o, e), EncodeAll(o, rest));
    SameMiddle(image, f.bytes, PosOf(o, m.base, log, k), PosOf(o, m.base, log, k) + Size(e));
  }

  lemma {:induction false} SameMiddle(a: seq<Byte>, b: seq<Byte>, i: nat, j: nat)
    requires a <= b && i <= j <= |a|
    ensures a[i..j] == b[i..j]
  {
  }

  lemma {:induction false} ShelvedServes(o: Options, f: SegFile, m: SegMeta, log: seq<Entry>)
    requires Shelved(o, f, m, log) && AllFit(o, log)
    ensures Serves(FileScanner(o, f.bytes), o, m, log)
  {
    forall k | m.base <= k < m.End()
      ensures ScanRecord(o, f.bytes, PosOf(o, m.base, log, k), k) == Scanned(At(log[k], k),
        PosOf(o, m.base, log, k + 1))
    {
      RecordInPlace(o, f, m, log, k);
      ScanInvertsEncode(o, f.bytes, PosOf(o, m.base, log, k), log[k], k);
    }
  }

  lemma {:induction false} SkipReaches(scan: Scanner, o: Options, m: SegMeta, log: seq<Entry>, c: Cursor, target: nat)
    requires Serves(scan, o, m, log)
    requires CursorOk(o, c, log) && c.base == m.base && c.offset <= target < m.End()
    ensures SkipTo(scan, c, target) == (Cursor(m.base, target, PosOf(o, m.base, log, target)), true)
    decreases target - c.offset
  {
    if c.offset < target {
      SkipReaches(scan, o, m, log, Cursor(c.base, c.offset + 1, PosOf(o, m.base, log, c.offset + 1)), target);
    }
  }

  lemma {:induction false} StartCursorOk(o: Options, base: nat, log: seq<Entry>)
    requires base <= |log|
    ensures CursorOk(o, Cursor(base, base, HEADER_LEN), log)
  {
  }

  lemma {:induction false} ReadFromReads(scan: Scanner, o: Options, m: SegMeta, log: seq<Entry>, rd: ReaderState)
    requires Serves(scan, o, m, log) && ReaderOk(o, rd, log) && m.base <= rd.pos < m.End()
    ensures ReadFrom(scan, HeaderBase(m.base), m.base, rd) ==
      (Got(At(log[rd.pos], rd.pos)),
       ReaderState(rd.pos + 1, rd.committed, Some(Cursor(m.base, rd.pos + 1, PosOf(o, m.base, log, rd.pos + 1)))))
  {
    StartCursorOk(o, m.base, log);
    var reuse := rd.cursor.Some? && rd.cursor.value.base == m.base && rd.pos >= rd.cursor.value.offset;
    var c := if reuse then rd.cursor.value else Cursor(m.base, m.base, HEADER_LEN);
    SkipReaches(scan, o, m, log, c, rd.pos);
  }

  lemma {:induction false} HandoffTail(segs: seq<SegMeta>)
    requires Handoff(segs) && |segs| > 1
    ensures Handoff(segs[1..]) && segs[1..][0].base == segs[0].End() && Last(segs[1..]) == Last(segs)
  {
    forall i, j | 0 <= i < j < |segs[1..]| && j == i + 1
      ensures segs[1..][i].End() == segs[1..][j].base
    {
      assert segs[i + 1].End() == segs[j + 1].base;
    }
  }

  /** segmentFor finds the segment: in a gapless list every offset from the oldest to the end has one. */
  lemma {:induction false} SegmentForFinds(segs: seq<SegMeta>, offset: nat)
    requires segs != [] && Handoff(segs) && segs[0].base <= offset < Last(segs).End()
    ensures SegmentFor(segs, offset).Some?
    decreases |segs|
  {
    if segs[0].End() <= offset {
      HandoffTail(segs);
      SegmentForFinds(segs[1..], offset);
    }
  }

  /** In a gapless list the containing segment is unique. */
  lemma {:induction false} SegmentForUnique(segs: seq<SegMeta>, offset: nat, i: nat)
    requires Handoff(segs) && i < |segs| && segs[i].base <= offset < segs[i].End()
    ensures SegmentFor(segs, offset) == Some(i)
  {
    if i < |segs| - 1 {
      HandoffOrder(segs, i, |segs| - 1);
    }
    if 0 < i {
      HandoffOrder(segs, 0, i);
    }
    SegmentForFinds(segs, offset);
    var j := SegmentFor(segs, offset).value;
    if i < j {
      HandoffOrder(segs, i, j);
    } else if j < i {
      HandoffOrder(segs, j, i);
    }
  }

  /** What a reader needs of a log: a gapless list up to the next offset, and for each entry a file with its records. */
  ghost predicate Readable(o: Options, s: LogState, log: seq<Entry>) {
    && AllFit(o, log) && |log| < TWO_64 && Handoff(s.segs)
    && (s.next > 0 ==> s.segs != [] && s.next <= Last(s.segs).End())
    && (forall i :: 0 <= i < |s.segs| ==> Shelf(o, s.dir, s.segs[i], log))
  }

  ghost predicate Shelf(o: Options, dir: Dir, m: SegMeta, log: seq<Entry>) {
    FileOf(dir, m.base, 0).Some? && Shelved(o, FileOf(dir, m.base, 0).value, m, log)
  }

  lemma {:induction false} ShelvedHeader(o: Options, f: SegFile, m: SegMeta, log: seq<Entry>)
    requires Shelved(o, f, m, log) && |log| < TWO_64
    ensures ReadHeader(f.bytes) == HeaderBase(m.base)
  {
    var image := Image(o, m.base, log[m.base..m.End()]);
    SameMiddle(image, f.bytes, 0, HEADER_LEN);
    assert f.bytes[..HEADER_LEN] == f.bytes[0..HEADER_LEN] == image[0..HEADER_LEN] == Header(m.base);
    ReadHeaderOfImage(f.bytes, m.base);
  }

  /** One call of Next: anywhere from the oldest offset to the next it returns exactly the record appended at its
      position and moves one on; at the head it reports no record. */
  lemma {:induction false} NextReads(o: Options, s: LogState, log: seq<Entry>, rd: ReaderState)
    requires Readable(o, s, log) && ReaderOk(o, rd, log) && OldestOffset(s) <= rd.pos
    ensures var r := Next(o, s, rd);
      if rd.pos < s.next
      then rd.pos < |log| && r.0 == Got(At(log[rd.pos], rd.pos)) && r.1.pos == rd.pos + 1
        && r.1.committed == rd.committed
           && ReaderOk(o, r.1, log)
      else r == (NoRecord, rd)
  {
    if rd.pos < s.next {
      SegmentForFinds(s.segs, rd.pos);
      var m := s.segs[SegmentFor(s.segs, rd.pos).value];
      assert Shelf(o, s.dir, m, log);
      var f := FileOf(s.dir, m.base, 0).value;
      ShelvedHeader(o, f, m, log);
      ShelvedServes(o, f, m, log);
      ReadFromReads(FileScanner(o, f.bytes), o, m, log, rd);
    }
  }

  // ---- The owner's log is readable ----

  lemma {:induction false} FileOfAt(dir: Dir, i: nat, j: nat)
    requires j <= i < |dir| && forall k :: 0 <= k < i ==> dir[k].base != dir[i].base
    ensures FileOf(dir, dir[i].base, j) == Some(dir[i])
    decreases i - j
  {
    if j < i {
      FileOfAt(dir, i, j + 1);
    }
  }

  lemma {:induction false} EachStored(o: Options, s: LogState, log: seq<Entry>, acked: nat, i: nat)
    requires Inv(o, s, log, acked) && i < |s.segs|
    ensures |s.dir| == |s.segs| && Stored(o, s.dir[i], s.segs[i], log)
  {
  }

  lemma {:induction false} EachShelf(o: Options, s: LogState, log: seq<Entry>, acked: nat, i: nat)
    requires Inv(o, s, log, acked) && i < |s.segs|
    ensures Shelf(o, s.dir, s.segs[i], log)
  {
    EachStored(o, s, log, acked, i);
    forall k | 0 <= k < i
      ensures s.dir[k].base != s.dir[i].base
    {
      EachStored(o, s, log, acked, k);
      ChainOrder(s.segs, |log|, k, i);
    }
    FileOfAt(s.dir, i, 0);
  }

  lemma {:induction false} InvReadable(o: Options, s: LogState, log: seq<Entry>, acked: nat)
    requires Inv(o, s, log, acked)
    ensures Readable(o, s, log) && s.next == |log|
  {
    forall i | 0 <= i < |s.segs|
      ensures Shelf(o, s.dir, s.segs[i], log)
    {
      EachShelf(o, s, log, acked, i);
    }
  }

  /** A cursor stays right while the log grows. */
  lemma {:induction false} CursorFrame(o: Options, c: Cursor, log: seq<Entry>, log': seq<Entry>)
    requires CursorOk(o, c, log) && log <= log'
    ensures CursorOk(o, c, log')
  {
    assert log'[c.base..c.offset] == log[c.base..c.offset];
  }

  // ---- The offset file ----

  const OFF_MAGIC: seq<Byte> := [0x4C, 0x45, 0x53, 0x52, 0x4F, 0x46, 0x46, 0x31]  // "LESROFF1"

  function EncodeOffset(o: Options, offset: nat): (s: seq<Byte>)
    ensures |s| == 20
  {
    OFF_MAGIC + PutLE(offset, 8) + PutLE(o.crc(PutLE(offset, 8)), 4)
  }

  function DecodeOffset(o: Options, b: seq<Byte>): Option<nat> {
    if |b| != 20 || b[0..8] != OFF_MAGIC then None
    else if o.crc(b[8..16]) != GetLE(b[16..20]) then None
    else Some(GetLE(b[8..16]))
  }

  /** A committed offset is read back as it was written. */
  lemma {:induction false} OffsetRoundTrip(o: Options, offset: nat)
    requires offset < TWO_64
    ensures DecodeOffset(o, EncodeOffset(o, offset)) == Some(offset)
  {
    var field, b := PutLE(offset, 8), EncodeOffset(o, offset);
    assert b[0..8] == OFF_MAGIC && b[8..16] == field && b[16..20] == PutLE(o.crc(field), 4);
    GetPut64(offset);
    GetPut32(o.crc(field));
  }

  /** Nothing else is accepted: an offset file is read as a number exactly when it is what is written for that
      number. */
  lemma {:induction false} OffsetFileIs(o: Options, b: seq<Byte>, offset: nat)
    ensures DecodeOffset(o, b) == Some(offset) <==> offset < TWO_64 && b == EncodeOffset(o, offset)
  {
    if offset < TWO_64 {
      OffsetRoundTrip(o, offset);
    }
    if DecodeOffset(o, b) == Some(offset) {
      PutGet(b[8..16]);
      PutGet(b[16..20]);
      GetLEBound(b[8..16]);
      FieldRanges();
      assert b == b[0..8] + b[8..16] + b[16..20];
    }
  }
}
