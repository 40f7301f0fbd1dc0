/** Record framing and segment scanning (internal/wal/segment.go).

    A segment file is a 20-byte header followed by records
    [u32 bodyLen][u32 checksum][u64 nanos][u8 type][payload]. */
module Segment {
  import opened Bytes

  const HEADER_LEN: nat := 20
  const REC_HEADER_LEN: nat := 8
  const BODY_FIXED_LEN: nat := 9
  const SEG_VERSION: nat := 1
  const SEG_MAGIC: seq<Byte> := [0x4C, 0x45, 0x53, 0x52, 0x57, 0x41, 0x4C, 0x31]  // "LESRWAL1"

  datatype SyncPolicy = SyncBatched | SyncAlways | SyncInterval

  /** The options the log depends on. The checksum is any function of the body: nothing here relies on
      the particular polynomial. */
  datatype Options = Options(segmentBytes: nat, maxRecordBytes: nat, maxBatchBytes: nat, batchWindow: nat,
                             policy: SyncPolicy, crc: seq<Byte> -> U32)

  /** What a caller appends, stamped with the append time. */
  datatype Entry = Entry(time: Int64, typ: Byte, payload: seq<Byte>)

  /** What a reader gets back. */
  datatype Record = Record(offset: nat, time: Int64, typ: Byte, payload: seq<Byte>)

  function At(e: Entry, offset: nat): Record {
    Record(offset, e.time, e.typ, e.payload)
  }

  function BodyLen(e: Entry): nat {
    BODY_FIXED_LEN + |e.payload|
  }

  function Size(e: Entry): nat {
    REC_HEADER_LEN + BodyLen(e)
  }

  /** Exactly the records `Append` lets through and the 32-bit length field can carry. */
  predicate Fits(o: Options, e: Entry) {
    BodyLen(e) <= o.maxRecordBytes && BodyLen(e) < TWO_32
  }

  predicate AllFit(o: Options, es: seq<Entry>) {
    forall i :: 0 <= i < |es| ==> Fits(o, es[i])
  }

  function Body(e: Entry): (s: seq<Byte>)
    ensures |s| == BodyLen(e)
  {
    PutLE(ToU64(e.time), 8) + [e.typ] + e.payload
  }

  function Encode(o: Options, e: Entry): (s: seq<Byte>)
    ensures |s| == Size(e)
  {
    PutLE(BodyLen(e), 4) + PutLE(o.crc(Body(e)), 4) + Body(e)
  }

  function EncodeAll(o: Options, es: seq<Entry>): seq<Byte> {
    if es == [] then [] else Encode(o, es[0]) + EncodeAll(o, es[1..])
  }

  function Header(base: nat): (s: seq<Byte>)
    ensures |s| == HEADER_LEN
  {
    SEG_MAGIC + PutLE(SEG_VERSION, 4) + PutLE(base, 8)
  }

  /** The content of a segment that starts at `base` and holds `es`. */
  function Image(o: Options, base: nat, es: seq<Entry>): seq<Byte> {
    Header(base) + EncodeAll(o, es)
  }

  datatype HeaderResult = BadHeader | HeaderBase(base: nat)

  function ReadHeader(bytes: seq<Byte>): HeaderResult {
    if |bytes| < HEADER_LEN then BadHeader
    else if bytes[0..8] != SEG_MAGIC then BadHeader
    else if GetLE(bytes[8..12]) != SEG_VERSION then BadHeader
    else HeaderBase(GetLE(bytes[12..20]))
  }

  datatype ScanResult = Torn | Scanned(rec: Record, next: nat)

  /** scanRecord: the record at byte position `pos`, or Torn. */
  function ScanRecord(o: Options, bytes: seq<Byte>, pos: nat, offset: nat): (r: ScanResult)
    ensures r.Scanned? ==> pos < r.next <= |bytes|
  {
    if pos + REC_HEADER_LEN > |bytes| then Torn
    else
      var bodyLen := GetLE(bytes[pos..pos + 4]);
      if bodyLen < BODY_FIXED_LEN || bodyLen > o.maxRecordBytes then Torn
      else
        var end := pos + REC_HEADER_LEN + bodyLen;
        if end > |bytes| then Torn
        else
          var body := bytes[pos + REC_HEADER_LEN..end];
          if o.crc(body) != GetLE(bytes[pos + 4..pos + 8]) then Torn
          else
            FieldRanges();
            GetLEBound(body[0..8]);
            Scanned(Record(offset, FromU64(GetLE(body[0..8])), body[8], body[9..]), end)
  }

  /** Records readable from `pos` on, and the position after the last of them. */
  function ScanFrom(o: Options, bytes: seq<Byte>, pos: nat): (r: (nat, nat))
    decreases |bytes| - pos
  {
    var s := ScanRecord(o, bytes, pos, 0);
    if s.Torn? then (0, pos)
    else
      var rest := ScanFrom(o, bytes, s.next);
      (1 + rest.0, rest.1)
  }

  // ---- Encoding and decoding one record ----

  lemma {:induction false} EncodeParts(o: Options, e: Entry)
    ensures Encode(o, e)[0..4] == PutLE(BodyLen(e), 4)
    ensures Encode(o, e)[4..8] == PutLE(o.crc(Body(e)), 4)
    ensures Encode(o, e)[8..] == Body(e)
    ensures Body(e)[0..8] == PutLE(ToU64(e.time), 8) && Body(e)[8] == e.typ && Body(e)[9..] == e.payload
  {
  }

  lemma {:induction false} FromTo(u: nat)
    requires u < TWO_64
    ensures ToU64(FromU64(u)) == u
  {
  }

  /** What scans is a record that was written: the bytes are the encoding of an entry within the limits, and the
      checksum field is that of the body. Anything else is torn. */
  lemma {:induction false} ScannedIsEncoded(o: Options, bytes: seq<Byte>, pos: nat, offset: nat)
    requires ScanRecord(o, bytes, pos, offset).Scanned?
    ensures var s := ScanRecord(o, bytes, pos, offset);
      var e := Entry(s.rec.time, s.rec.typ, s.rec.payload);
      && s.rec == At(e, offset) && Fits(o, e) && s.next == pos + Size(e) && bytes[pos..s.next] == Encode(o, e)
      && pos + REC_HEADER_LEN <= s.next <= |bytes|
      && GetLE(bytes[pos + 4..pos + 8]) == o.crc(bytes[pos + REC_HEADER_LEN..s.next])
  {
    var s := ScanRecord(o, bytes, pos, offset);
    var e, body := Entry(s.rec.time, s.rec.typ, s.rec.payload), bytes[pos + REC_HEADER_LEN..s.next];
    FieldRanges();
    GetLEBound(bytes[pos..pos + 4]);
    GetLEBound(body[0..8]);
    PutGet(bytes[pos..pos + 4]);
    PutGet(bytes[pos + 4..pos + 8]);
    PutGet(body[0..8]);
    FromTo(GetLE(body[0..8]));
    BodyRejoins(e, body);
    RecordRejoins(o, e, bytes, pos, s.next);
  }

  lemma {:induction false} BodyRejoins(e: Entry, body: seq<Byte>)
    requires |body| >= BODY_FIXED_LEN && body[0..8] == PutLE(ToU64(e.time), 8) && body[8] == e.typ
      && body[9..] == e.payload
    ensures body == Body(e)
  {
    assert body == body[0..8] + [body[8]] + body[9..];
  }

  lemma {:induction false} RecordRejoins(o: Options, e: Entry, bytes: seq<Byte>, pos: nat, end: nat)
    requires pos + REC_HEADER_LEN <= end <= |bytes| && bytes[pos + REC_HEADER_LEN..end] == Body(e)
    requires bytes[pos..pos + 4] == PutLE(BodyLen(e), 4) && bytes[pos + 4..pos + 8] == PutLE(o.crc(Body(e)), 4)
    ensures bytes[pos..end] == Encode(o, e)
  {
    assert bytes[pos..end] == bytes[pos..pos + 4] + bytes[pos + 4..pos + 8] + bytes[pos + REC_HEADER_LEN..end];
  }

  /** A header reads as a base exactly when it is the header written for that base. */
  lemma {:induction false} HeaderIs(bytes: seq<Byte>, base: nat)
    requires |bytes| >= HEADER_LEN
    ensures ReadHeader(bytes) == HeaderBase(base) <==> base < TWO_64 && bytes[..HEADER_LEN] == Header(base)
  {
    if base < TWO_64 && bytes[..HEADER_LEN] == Header(base) {
      ReadHeaderOfImage(bytes, base);
    }
    if ReadHeader(bytes) == HeaderBase(base) {
      PutGet(bytes[8..12]);
      PutGet(bytes[12..20]);
      FieldRanges();
      GetLEBound(bytes[12..20]);
      assert bytes[..HEADER_LEN] == bytes[0..8] + bytes[8..12] + bytes[12..20];
    }
  }

  lemma {:induction false} SliceSlice(bytes: seq<Byte>, pos: nat, end: nat, i: nat, j: nat)
    requires pos <= end <= |bytes| && i <= j <= end - pos
    ensures bytes[pos..end][i..j] == bytes[pos + i..pos + j]
  {
    forall x | 0 <= x < j - i
      ensures bytes[pos..end][i..j][x] == bytes[pos + i..pos + j][x]
    {
    }
  }

  /** Where the parts of an encoded record sit in the bytes around it. */
  lemma {:induction false} FieldsInPlace(o: Options, bytes: seq<Byte>, pos: nat, e: Entry)
    requires pos + Size(e) <= |bytes| && bytes[pos..pos + Size(e)] == Encode(o, e)
    ensures bytes[pos..pos + 4] == PutLE(BodyLen(e), 4)
    ensures bytes[pos + 4..pos + 8] == PutLE(o.crc(Body(e)), 4)
    ensures bytes[pos + 8..pos + Size(e)] == Body(e)
  {
    var end := pos + Size(e);
    EncodeParts(o, e);
    SliceSlice(bytes, pos, end, 0, 4);
    SliceSlice(bytes, pos, end, 4, 8);
    SliceSlice(bytes, pos, end, 8, Size(e));
  }

  lemma {:induction false} DecodeBody(e: Entry)
    ensures GetLE(Body(e)[0..8]) == ToU64(e.time) && FromU64(ToU64(e.time)) == e.time
    ensures Body(e)[8] == e.typ && Body(e)[9..] == e.payload
  {
    assert Body(e)[0..8] == PutLE(ToU64(e.time), 8);
    Int64Field(e.time);
  }

  /** scanRecord inverts appendRecord inside any surrounding bytes, exactly for records that fit. */
  lemma {:induction false} ScanInvertsEncode(o: Options, bytes: seq<Byte>, pos: nat, e: Entry, offset: nat)
    requires pos + Size(e) <= |bytes| && bytes[pos..pos + Size(e)] == Encode(o, e)
    ensures ScanRecord(o, bytes, pos, offset) == Scanned(At(e, offset), pos + Size(e)) <==> Fits(o, e)
  {
    var lenField, crcField, body := bytes[pos..pos + 4], bytes[pos + 4..pos + 8], bytes[pos + 8..pos + Size(e)];
    assert (GetLE(lenField) == BodyLen(e) <==> BodyLen(e) < TWO_32) && GetLE(crcField) == o.crc(body)
      && body == Body(e) by {
      FieldsInPlace(o, bytes, pos, e);
      GetPut32(BodyLen(e));
      GetPut32(o.crc(Body(e)));
    }
    DecodeBody(e);
  }

  /** A record cut anywhere before its end never scans: the length checks alone see to it. */
  lemma {:induction false} CutIsTorn(o: Options, bytes: seq<Byte>, pos: nat, e: Entry, offset: nat)
    requires pos <= |bytes| < pos + Size(e) && bytes[pos..] == Encode(o, e)[..|bytes| - pos]
    requires Fits(o, e)
    ensures ScanRecord(o, bytes, pos, offset) == Torn
  {
    if pos + REC_HEADER_LEN <= |bytes| {
      EncodeParts(o, e);
      assert bytes[pos..pos + 4] == bytes[pos..][..4] == Encode(o, e)[0..4];
      GetPut32(BodyLen(e));
    }
  }

  // ---- Whole segments ----

  lemma {:induction false} EncodeAllConcat(o: Options, a: seq<Entry>, b: seq<Entry>)
    ensures EncodeAll(o, a + b) == EncodeAll(o, a) + EncodeAll(o, b)
  {
    if a == [] {
      assert a + b == b;
    } else {
      assert (a + b)[1..] == a[1..] + b;
      EncodeAllConcat(o, a[1..], b);
    }
  }

  lemma {:induction false} EncodeAllOne(o: Options, e: Entry)
    ensures EncodeAll(o, [e]) == Encode(o, e)
  {
  }

  lemma {:induction false} ImageExtend(o: Options, base: nat, es: seq<Entry>, e: Entry)
    ensures Image(o, base, es + [e]) == Image(o, base, es) + Encode(o, e)
  {
    EncodeAllConcat(o, es, [e]);
    EncodeAllOne(o, e);
  }

  lemma {:induction false} EncodedLength(o: Options, es: seq<Entry>, k: nat)
    requires k <= |es|
    ensures |EncodeAll(o, es[..k])| <= |EncodeAll(o, es)|
    ensures EncodeAll(o, es)[..|EncodeAll(o, es[..k])|] == EncodeAll(o, es[..k])
  {
    assert es == es[..k] + es[k..];
    EncodeAllConcat(o, es[..k], es[k..]);
  }

  /** Distinct prefixes of a record list end at distinct byte positions, in order. */
  lemma {:induction false} PrefixLengths(o: Options, es: seq<Entry>, j: nat, k: nat)
    requires j < k <= |es|
    ensures |EncodeAll(o, es[..j])| < |EncodeAll(o, es[..k])|
  {
    assert es[..k] == es[..j] + es[j..k];
    EncodeAllConcat(o, es[..j], es[j..k]);
  }

  lemma {:induction false} ReadHeaderOfImage(bytes: seq<Byte>, base: nat)
    requires base < TWO_64
    requires |bytes| >= HEADER_LEN && bytes[..HEADER_LEN] == Header(base)
    ensures ReadHeader(bytes) == HeaderBase(base)
  {
    var h := bytes[..HEADER_LEN];
    SliceSlice(bytes, 0, 20, 0, 8);
    SliceSlice(bytes, 0, 20, 8, 12);
    SliceSlice(bytes, 0, 20, 12, 20);
    assert Header(base)[0..8] == SEG_MAGIC;
    assert Header(base)[8..12] == PutLE(SEG_VERSION, 4);
    assert Header(base)[12..20] == PutLE(base, 8);
    GetPut32(SEG_VERSION);
    GetPut64(base);
  }

  /** k is the number of records of `es` that end at or before byte `room` of their encoding. */
  predicate Complete(o: Options, es: seq<Entry>, room: nat, k: nat) {
    && k <= |es|
    && |EncodeAll(o, es[..k])| <= room
    && (k < |es| ==> room < |EncodeAll(o, es[..k + 1])|)
  }

  /** The bytes at `pos` are `es` encoded, cut off where the file ends. */
  predicate CutAt(o: Options, bytes: seq<Byte>, pos: nat, es: seq<Entry>) {
    && pos <= |bytes| <= pos + |EncodeAll(o, es)|
    && bytes[pos..] == EncodeAll(o, es)[..|bytes| - pos]
  }

  lemma {:induction false} CutInFirst(o: Options, bytes: seq<Byte>, pos: nat, es: seq<Entry>)
    requires CutAt(o, bytes, pos, es) && es != [] && |bytes| - pos < Size(es[0]) && Fits(o, es[0])
    ensures ScanRecord(o, bytes, pos, 0) == Torn
  {
    var e, n := es[0], |bytes| - pos;
    assert EncodeAll(o, es)[..n] == Encode(o, e)[..n];
    CutIsTorn(o, bytes, pos, e, 0);
  }

  lemma {:induction false} CutPastFirst(o: Options, bytes: seq<Byte>, pos: nat, es: seq<Entry>)
    requires CutAt(o, bytes, pos, es) && es != [] && Size(es[0]) <= |bytes| - pos
    ensures bytes[pos..pos + Size(es[0])] == Encode(o, es[0])
    ensures CutAt(o, bytes, pos + Size(es[0]), es[1..])
  {
    var e, tail, n := es[0], EncodeAll(o, es[1..]), |bytes| - pos;
    assert EncodeAll(o, es) == Encode(o, e) + tail;
    assert bytes[pos..pos + Size(e)] == bytes[pos..][..Size(e)] == EncodeAll(o, es)[..n][..Size(e)] == Encode(o, e);
    assert bytes[pos + Size(e)..] == bytes[pos..][Size(e)..];
    assert EncodeAll(o, es)[..n][Size(e)..] == tail[..n - Size(e)];
  }

  lemma {:induction false} ScanFromCons(o: Options, bytes: seq<Byte>, pos: nat, es: seq<Entry>, k: nat)
    requires 0 < k <= |es| && Fits(o, es[0])
    requires pos + Size(es[0]) <= |bytes| && bytes[pos..pos + Size(es[0])] == Encode(o, es[0])
    requires ScanFrom(o, bytes, pos + Size(es[0])) == (k - 1, pos + Size(es[0]) + |EncodeAll(o, es[1..][..k - 1])|)
    ensures ScanFrom(o, bytes, pos) == (k, pos + |EncodeAll(o, es[..k])|)
  {
    ScanInvertsEncode(o, bytes, pos, es[0], 0);
    assert es[..k][1..] == es[1..][..k - 1];
  }

  lemma {:induction false} ScanStops(o: Options, bytes: seq<Byte>, pos: nat, es: seq<Entry>)
    requires CutAt(o, bytes, pos, es) && AllFit(o, es) && (es != [] ==> |bytes| - pos < Size(es[0]))
    ensures ScanFrom(o, bytes, pos) == (0, pos + |EncodeAll(o, es[..0])|)
  {
    if es != [] {
      CutInFirst(o, bytes, pos, es);
    }
  }

  /** How many records of `es` end within `room` bytes. */
  function CompleteCount(es: seq<Entry>, room: nat): (k: nat)
    ensures k <= |es|
  {
    if es == [] || room < Size(es[0]) then 0 else 1 + CompleteCount(es[1..], room - Size(es[0]))
  }

  lemma {:induction false} CompleteCountIsComplete(o: Options, es: seq<Entry>, room: nat)
    ensures Complete(o, es, room, CompleteCount(es, room))
  {
    if es == [] {
    } else if room < Size(es[0]) {
      assert es[..1] == [es[0]];
      EncodeAllOne(o, es[0]);
    } else {
      CompleteCountIsComplete(o, es[1..], room - Size(es[0]));
      CompleteCons(o, es, room, CompleteCount(es[1..], room - Size(es[0])));
    }
  }

  lemma {:induction false} CompleteCons(o: Options, es: seq<Entry>, room: nat, k: nat)
    requires es != [] && Size(es[0]) <= room && Complete(o, es[1..], room - Size(es[0]), k)
    ensures Complete(o, es, room, k + 1)
  {
    assert es[..k + 1] == [es[0]] + es[1..][..k];
    EncodeAllConcat(o, [es[0]], es[1..][..k]);
    EncodeAllOne(o, es[0]);
    if k + 1 < |es| {
      assert es[..k + 2] == [es[0]] + es[1..][..k + 1];
      EncodeAllConcat(o, [es[0]], es[1..][..k + 1]);
    }
  }

  /** Crash at every byte, from the record at `pos` on. */
  lemma {:induction false} ScanFromCut(o: Options, bytes: seq<Byte>, pos: nat, es: seq<Entry>, k: nat)
    requires AllFit(o, es) && CutAt(o, bytes, pos, es)
    requires k == CompleteCount(es, |bytes| - pos)
    ensures ScanFrom(o, bytes, pos) == (k, pos + |EncodeAll(o, es[..k])|)
    decreases |es|
  {
    if es == [] || |bytes| - pos < Size(es[0]) {
      assert k == 0;
      ScanStops(o, bytes, pos, es);
    } else {
      CutPastFirst(o, bytes, pos, es);
      ScanFromCut(o, bytes, pos + Size(es[0]), es[1..], k - 1);
      ScanFromCons(o, bytes, pos, es, k);
    }
  }

  /** Crash at every byte: whatever cut of a segment's image at or past its header survives, the scan
      counts exactly the records that end at or before the cut and stops right after the last. */
  lemma {:induction false} CrashAtEveryByte(o: Options, base: nat, es: seq<Entry>, cut: nat)
    requires AllFit(o, es)
    requires HEADER_LEN <= cut <= |Image(o, base, es)|
    ensures var k := CompleteCount(es, cut - HEADER_LEN);
      && Complete(o, es, cut - HEADER_LEN, k)
      && ScanFrom(o, Image(o, base, es)[..cut], HEADER_LEN) == (k, |Image(o, base, es[..k])|)
  {
    var bytes := Image(o, base, es)[..cut];
    CompleteCountIsComplete(o, es, cut - HEADER_LEN);
    assert bytes[HEADER_LEN..] == EncodeAll(o, es)[..cut - HEADER_LEN];
    ScanFromCut(o, bytes, HEADER_LEN, es, CompleteCount(es, cut - HEADER_LEN));
  }

  lemma {:induction false} CompleteUnique(o: Options, es: seq<Entry>, room: nat, j: nat, k: nat)
    requires Complete(o, es, room, j) && Complete(o, es, room, k)
    ensures j == k
  {
    if j < k {
      if j + 1 < k { PrefixLengths(o, es, j + 1, k); }
    } else if k < j {
      if k + 1 < j { PrefixLengths(o, es, k + 1, j); }
    }
  }

  // ---- The imperative forms ----

  /** binary.LittleEndian.PutUintN into a buffer. */
  method PutInto(buf: array<Byte>, at: nat, n: nat, width: nat)
    requires at + width <= buf.Length
    modifies buf
    ensures buf[at..at + width] == PutLE(n, width)
    ensures buf[..at] == old(buf[..at]) && buf[at + width..] == old(buf[at + width..])
    decreases width
  {
    if width > 0 {
      buf[at] := n % 256;
      PutInto(buf, at + 1, n / 256, width - 1);
      assert buf[at] == buf[..at + 1][at];
      assert buf[at..at + width] == [buf[at]] + buf[at + 1..at + width];
      assert buf[..at] == buf[..at + 1][..at];
    }
  }

  /** The body part of a record, in place. */
  method FillBody(rec: array<Byte>, e: Entry)
    requires Size(e) <= rec.Length
    modifies rec
    ensures rec[8..Size(e)] == Body(e) && rec[..8] == old(rec[..8])
  {
    PutInto(rec, 8, ToU64(e.time), 8);
    assert rec[..8] == old(rec[..8]);
    rec[16] := e.typ;
    var i := 0;
    while i < |e.payload|
      invariant 0 <= i <= |e.payload| && rec[..8] == old(rec[..8])
      invariant rec[8..16] == PutLE(ToU64(e.time), 8) && rec[16] == e.typ
      invariant rec[17..17 + i] == e.payload[..i]
    {
      rec[17 + i] := e.payload[i];
      i := i + 1;
    }
    assert rec[8..Size(e)] == rec[8..16] + [rec[16]] + rec[17..Size(e)];
  }

  /** appendRecord: fills the reused buffer, or a fresh one when it is too small, length first, then the
      body, then the checksum of the body just written. */
  method AppendRecord(o: Options, buf: array<Byte>, e: Entry) returns (rec: array<Byte>, need: nat)
    modifies buf
    ensures rec == buf || fresh(rec)
    ensures need == Size(e) <= rec.Length
    ensures rec[..need] == Encode(o, e)
  {
    need := Size(e);
    rec := buf;
    if buf.Length < need {
      rec := new Byte[need];
    }
    PutInto(rec, 0, BodyLen(e), 4);
    ghost var len := rec[0..4];
    FillBody(rec, e);
    assert rec[0..4] == rec[..8][0..4] == len;
    label filled:
    PutInto(rec, 4, o.crc(rec[8..need]), 4);
    assert rec[0..4] == rec[..4] == len;
    assert rec[8..] == old@filled(rec[8..]);
    assert rec[8..need] == rec[8..][..need - 8];
    assert old@filled(rec[8..need]) == old@filled(rec[8..])[..need - 8];
    assert rec[..need] == rec[0..4] + rec[4..8] + rec[8..need];
  }

  /** scanSegment: the counting loop over an opened file. */
  method ScanSegment(o: Options, bytes: seq<Byte>) returns (records: nat, validSize: nat)
    ensures (records, validSize) == ScanFrom(o, bytes, HEADER_LEN)
  {
    records, validSize := 0, HEADER_LEN;
    var s := ScanRecord(o, bytes, validSize, 0);
    while s.Scanned?
      invariant s == ScanRecord(o, bytes, validSize, 0)
      invariant ScanFrom(o, bytes, HEADER_LEN) ==
        (records + ScanFrom(o, bytes, validSize).0, ScanFrom(o, bytes, validSize).1)
      decreases |bytes| - validSize
    {
      records := records + 1;
      validSize := s.next;
      s := ScanRecord(o, bytes, validSize, 0);
    }
  }
}
