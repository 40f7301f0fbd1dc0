/** The Sentry envelope parser (internal/ingest/envelope.go): a header line, then items, each a header line and a
    payload. */
module Envelope {
  import opened Base
  import opened Bytes

  const NL: Byte := 10

  datatype Header = Header(eventId: string, dsn: string, sentAt: string)

  datatype ItemHeader = ItemHeader(kind: string, length: Option<int>)

  datatype Item = Item(header: ItemHeader, payload: seq<Byte>)

  datatype Parsed = Parsed(header: Header, items: seq<Item>)

  datatype Reason =
    | NoHeaderLine | BadHeader | TooBig | TooManyItems
    | BadItemHeader | NoType | BadLength | Truncated | NoNewline | Unterminated

  datatype Result<T> = Ok(value: T) | Malformed(reason: Reason)

  /** The JSON decoder for the two kinds of header line, and the test for a line of white space. */
  datatype Codec = Codec(header: seq<Byte> -> Option<Header>, item: seq<Byte> -> Option<ItemHeader>,
    blank: seq<Byte> -> bool)

  datatype Limits = Limits(maxEnvelopeBytes: int, maxItems: int, maxItemBytes: int)

  function Defaults(l: Limits): (r: Limits)
    ensures r.maxEnvelopeBytes > 0 && r.maxItems > 0 && r.maxItemBytes > 0
  {
    Limits(if l.maxEnvelopeBytes <= 0 then 20971520 else l.maxEnvelopeBytes,
           if l.maxItems <= 0 then 50 else l.maxItems,
           if l.maxItemBytes <= 0 then 10485760 else l.maxItemBytes)
  }

  predicate Accepted(kind: string) {
    kind in {"event", "transaction", "attachment", "session", "client_report", "check_in"}
  }

  /** The item types that are kept; all others are skipped. */
  lemma {:induction false} AcceptedTypes(kind: string)
    ensures Accepted(kind) <==>
      (|| kind == "event" || kind == "transaction" || kind == "attachment"
       || kind == "session" || kind == "client_report" || kind == "check_in")
  {
  }

  // ---- Lines ----

  /** Where the line that starts at pos ends: at its newline, or at the end of the data. */
  function LineEnd(data: seq<Byte>, pos: nat): (e: nat)
    requires pos <= |data|
    ensures pos <= e <= |data|
    ensures forall i :: pos <= i < e ==> data[i] != NL
    ensures e < |data| ==> data[e] == NL
    decreases |data| - pos
  {
    if pos == |data| || data[pos] == NL then pos else LineEnd(data, pos + 1)
  }

  datatype Line = Line(bytes: seq<Byte>, next: nat, eof: bool) | TooLong

  /** readLine: the line without its newline; the bound counts the newline. */
  function ReadLine(data: seq<Byte>, pos: nat, max: int): (r: Line)
    requires pos <= |data|
    ensures r.Line? ==> pos + |r.bytes| <= r.next <= |data| && (!r.eof ==> pos < r.next)
  {
    var e := LineEnd(data, pos);
    if e < |data| then if e + 1 - pos > max then TooLong else Line(data[pos..e], e + 1, false)
    else if e - pos > max then TooLong else Line(data[pos..e], e, true)
  }

  /** The loop of readLine: ReadSlice yields at most a buffer at a time, and the bound is checked after each piece. The
      buffer size does not show in the result. */
  method ReadLineByChunks(data: seq<Byte>, pos: nat, max: int, size: nat) returns (r: Line)
    requires pos <= |data| && size > 0
    ensures r == ReadLine(data, pos, max)
  {
    ghost var e := LineEnd(data, pos);
    var out, at := [], pos;
    while true
      invariant pos <= at <= e && out == data[pos..at]
      invariant at > pos ==> |out| <= max
      decreases |data| - at
    {
      var n := 0;
      while n < size && at + n < |data| && data[at + n] != NL
        invariant 0 <= n <= size && at + n <= e
      {
        n := n + 1;
      }
      if n < size && at + n < |data| {
        assert e == at + n;
        JoinSlices(data, pos, at, at + n + 1);
        out := out + data[at..at + n + 1];
        if |out| > max {
          return TooLong;
        }
        assert out[..|out| - 1] == data[pos..e];
        return Line(out[..|out| - 1], at + n + 1, false);
      }
      JoinSlices(data, pos, at, at + n);
      out := out + data[at..at + n];
      if |out| > max {
        return TooLong;
      }
      at := at + n;
      if n < size {
        assert at == e == |data|;
        return Line(out, at, true);
      }
    }
  }

  lemma {:induction false} JoinSlices(data: seq<Byte>, i: nat, j: nat, k: nat)
    requires i <= j <= k <= |data|
    ensures data[i..j] + data[j..k] == data[i..k]
  {
  }

  // ---- Items ----

  predicate Blank(c: Codec, line: seq<Byte>) {
    |line| == 0 || c.blank(line)
  }

  datatype Body = Body(payload: seq<Byte>, next: nat)

  /** The payload after an item header: as many bytes as announced and an optional newline, or a line. */
  function ReadBody(lim: Limits, data: seq<Byte>, pos: nat, length: Option<int>): (r: Result<Body>)
    requires pos <= |data|
    ensures r.Ok? ==> pos <= r.value.next <= |data|
  {
    match length
    case Some(n) =>
      if n < 0 || n > lim.maxItemBytes then Malformed(BadLength)
      else if pos + n > |data| then Malformed(Truncated)
      else if pos + n == |data| then Ok(Body(data[pos..pos + n], pos + n))
      else if data[pos + n] != NL then Malformed(NoNewline)
      else Ok(Body(data[pos..pos + n], pos + n + 1))
    case None =>
      match ReadLine(data, pos, lim.maxItemBytes)
      case TooLong => Malformed(Unterminated)
      case Line(bytes, next, _) => Ok(Body(bytes, next))
  }

  datatype Turn = Stop(result: Result<seq<Item>>) | Go(next: nat, items: seq<Item>)

  /** One turn of the item loop after its size check. */
  function TakeItem(c: Codec, lim: Limits, data: seq<Byte>, pos: nat, items: seq<Item>): (t: Turn)
    requires pos <= |data|
    ensures t.Go? ==> pos < t.next <= |data|
  {
    match ReadLine(data, pos, lim.maxEnvelopeBytes)
    case TooLong => Stop(Ok(items))
    case Line(line, next, eof) =>
      if Blank(c, line) then if eof then Stop(Ok(items)) else Go(next, items)
      else if |items| >= lim.maxItems then Stop(Malformed(TooManyItems))
      else if c.item(line).None? then Stop(Malformed(BadItemHeader))
      else
        var ih := c.item(line).value;
        if |ih.kind| == 0 then Stop(Malformed(NoType))
        else
          match ReadBody(lim, data, next, ih.length)
          case Malformed(reason) => Stop(Malformed(reason))
          case Ok(b) => Go(b.next, if Accepted(ih.kind) then items + [Item(ih, b.payload)] else items)
  }

  /** How many bytes the buffering has pulled from the limited reader when the item loop has consumed so many. */
  type ReadAhead = nat -> nat

  /** The item loop from pos on; the reader is exhausted when more than the limit has been pulled. */
  function ParseItems(c: Codec, lim: Limits, data: seq<Byte>, pulled: ReadAhead, pos: nat,
                      items: seq<Item>): Result<seq<Item>>
    requires pos <= |data|
    decreases |data| - pos
  {
    if pulled(pos) > lim.maxEnvelopeBytes then Malformed(TooBig)
    else
      match TakeItem(c, lim, data, pos, items)
      case Stop(result) => result
      case Go(next, more) => ParseItems(c, lim, data, pulled, next, more)
  }

  /** What the limited reader lets through. */
  function Capped(lim: Limits, input: seq<Byte>): seq<Byte>
    requires lim.maxEnvelopeBytes > 0
  {
    if |input| <= lim.maxEnvelopeBytes + 1 then input else input[..lim.maxEnvelopeBytes + 1]
  }

  function ParseEnvelope(c: Codec, l: Limits, input: seq<Byte>, pulled: ReadAhead): Result<Parsed> {
    var lim := Defaults(l);
    var data := Capped(lim, input);
    match ReadLine(data, 0, lim.maxEnvelopeBytes)
    case TooLong => Malformed(NoHeaderLine)
    case Line(line, next, eof) =>
      if eof then Malformed(NoHeaderLine)
      else if c.header(line).None? then Malformed(BadHeader)
      else
        match ParseItems(c, lim, data, pulled, next, [])
        case Malformed(reason) => Malformed(reason)
        case Ok(items) => Ok(Parsed(c.header(line).value, items))
  }

  /** What is pulled holds what is consumed, never goes back, and is no more than the limited reader lets through. */
  ghost predicate Pulls(pulled: ReadAhead, l: Limits, input: seq<Byte>) {
    && (forall i :: 0 <= i <= |Capped(Defaults(l), input)| ==> i <= pulled(i) <= |Capped(Defaults(l), input)|)
    && (forall i, j :: 0 <= i <= j <= |Capped(Defaults(l), input)| ==> pulled(i) <= pulled(j))
  }

  /** Parse as it runs: a position that advances and a list that grows. */
  method Parse(c: Codec, l: Limits, input: seq<Byte>, pulled: ReadAhead, size: nat) returns (r: Result<Parsed>)
    requires size > 0
    ensures r == ParseEnvelope(c, l, input, pulled)
  {
    var lim := Defaults(l);
    var data := Capped(lim, input);
    var first := ReadLineByChunks(data, 0, lim.maxEnvelopeBytes, size);
    if first.TooLong? || first.eof {
      return Malformed(NoHeaderLine);
    }
    var header := c.header(first.bytes);
    if header.None? {
      return Malformed(BadHeader);
    }
    var pos, items := first.next, [];
    while true
      invariant pos <= |data|
      invariant ParseItems(c, lim, data, pulled, pos, items) == ParseItems(c, lim, data, pulled, first.next, [])
      decreases |data| - pos
    {
      if pulled(pos) > lim.maxEnvelopeBytes {
        return Malformed(TooBig);
      }
      var line := ReadLineByChunks(data, pos, lim.maxEnvelopeBytes, size);
      if line.TooLong? {
        break;
      }
      if Blank(c, line.bytes) {
        if line.eof {
          break;
        }
        pos := line.next;
        continue;
      }
      if |items| >= lim.maxItems {
        return Malformed(TooManyItems);
      }
      var ih := c.item(line.bytes);
      if ih.None? {
        return Malformed(BadItemHeader);
      }
      if |ih.value.kind| == 0 {
        return Malformed(NoType);
      }
      var body := ReadBody(lim, data, line.next, ih.value.length);
      if body.Malformed? {
        return Malformed(body.reason);
      }
      if Accepted(ih.value.kind) {
        items := items + [Item(ih.value, body.value.payload)];
      }
      pos := body.value.next;
    }
    return Ok(Parsed(header.value, items));
  }

  // ---- The size limit ----

  /** The items, were there no size check. */
  function ItemsOf(c: Codec, lim: Limits, data: seq<Byte>, pos: nat, items: seq<Item>): Result<seq<Item>>
    requires pos <= |data|
    decreases |data| - pos
  {
    match TakeItem(c, lim, data, pos, items)
    case Stop(result) => result
    case Go(next, more) => ItemsOf(c, lim, data, next, more)
  }

  /** Where the last turn of the loop begins. */
  function LastTurn(c: Codec, lim: Limits, data: seq<Byte>, pos: nat, items: seq<Item>): (q: nat)
    requires pos <= |data|
    ensures pos <= q <= |data|
    decreases |data| - pos
  {
    match TakeItem(c, lim, data, pos, items)
    case Stop(_) => pos
    case Go(next, more) => LastTurn(c, lim, data, next, more)
  }

  /** The size check decides at the last turn. */
  lemma {:induction false} CheckedItems(c: Codec, lim: Limits, data: seq<Byte>, pulled: ReadAhead, pos: nat,
                                        items: seq<Item>)
    requires pos <= |data| && forall i, j :: 0 <= i <= j <= |data| ==> pulled(i) <= pulled(j)
    ensures ParseItems(c, lim, data, pulled, pos, items)
      == if pulled(LastTurn(c, lim, data, pos, items)) > lim.maxEnvelopeBytes then Malformed(TooBig)
        else ItemsOf(c, lim, data, pos, items)
    decreases |data| - pos
  {
    match TakeItem(c, lim, data, pos, items)
    case Stop(_) =>
    case Go(next, more) => CheckedItems(c, lim, data, pulled, next, more);
  }

  /** What the input holds up to the limit, were there no size check. */
  function Unchecked(c: Codec, l: Limits, input: seq<Byte>): Result<Parsed> {
    var lim := Defaults(l);
    var data := Capped(lim, input);
    match ReadLine(data, 0, lim.maxEnvelopeBytes)
    case TooLong => Malformed(NoHeaderLine)
    case Line(line, next, eof) =>
      if eof then Malformed(NoHeaderLine)
      else if c.header(line).None? then Malformed(BadHeader)
      else
        match ItemsOf(c, lim, data, next, [])
        case Malformed(reason) => Malformed(reason)
        case Ok(items) => Ok(Parsed(c.header(line).value, items))
  }

  /** Where the last turn begins, for an input with a header. */
  function LastLine(c: Codec, l: Limits, input: seq<Byte>): (q: nat)
    ensures q <= |Capped(Defaults(l), input)|
  {
    var data := Capped(Defaults(l), input);
    match ReadLine(data, 0, Defaults(l).maxEnvelopeBytes)
    case TooLong => 0
    case Line(_, next, _) => LastTurn(c, Defaults(l), data, next, [])
  }

  /** Parsing an input is parsing it without the check, unless more than the limit was pulled when the last turn
      begins. */
  lemma {:induction false} SizeDecides(c: Codec, l: Limits, input: seq<Byte>, pulled: ReadAhead)
    requires Pulls(pulled, l, input)
    ensures ParseEnvelope(c, l, input, pulled) == Unchecked(c, l, input)
      || (pulled(LastLine(c, l, input)) > Defaults(l).maxEnvelopeBytes
        && ParseEnvelope(c, l, input, pulled) == Malformed(TooBig))
    ensures pulled(LastLine(c, l, input)) > Defaults(l).maxEnvelopeBytes ==>
      ParseEnvelope(c, l, input, pulled).Malformed?
  {
    var lim, data := Defaults(l), Capped(Defaults(l), input);
    var first := ReadLine(data, 0, lim.maxEnvelopeBytes);
    if first.Line? && !first.eof && c.header(first.bytes).Some? {
      CheckedItems(c, lim, data, pulled, first.next, []);
    }
  }

  /** Within the limit the read-ahead does not matter. */
  lemma {:induction false} WithinLimit(c: Codec, l: Limits, input: seq<Byte>, pulled: ReadAhead)
    requires Pulls(pulled, l, input) && |input| <= Defaults(l).maxEnvelopeBytes
    ensures ParseEnvelope(c, l, input, pulled) == Unchecked(c, l, input)
  {
    SizeDecides(c, l, input, pulled);
  }

  /** The part of the input up to the limit is an envelope whose last line begins within the limit. */
  ghost predicate EndsBlank(c: Codec, l: Limits, input: seq<Byte>) {
    Unchecked(c, l, input).Ok? && LastLine(c, l, input) <= Defaults(l).maxEnvelopeBytes
  }

  /** Above the limit: every read-ahead refuses the input if and only if it does not end in such a line. */
  lemma {:induction false} RefusedIff(c: Codec, l: Limits, input: seq<Byte>)
    requires |input| > Defaults(l).maxEnvelopeBytes
    ensures (forall pulled :: Pulls(pulled, l, input) ==> ParseEnvelope(c, l, input, pulled).Malformed?) <==>
      !EndsBlank(c, l, input)
  {
    forall pulled | Pulls(pulled, l, input)
      ensures ParseEnvelope(c, l, input, pulled).Ok? ==> EndsBlank(c, l, input)
    {
      SizeDecides(c, l, input, pulled);
      assert LastLine(c, l, input) <= pulled(LastLine(c, l, input));
    }
    if EndsBlank(c, l, input) {
      var lazy: ReadAhead := (n: nat) => n;
      SizeDecides(c, l, input, lazy);
      assert Pulls(lazy, l, input) && ParseEnvelope(c, l, input, lazy).Ok?;
    }
  }

  /** The last line of an envelope that parses, begun after a header line, is blank and ends the data. */
  lemma {:induction false} LastIsBlank(c: Codec, lim: Limits, data: seq<Byte>, pos: nat, items: seq<Item>)
    requires 0 < pos <= |data| <= lim.maxEnvelopeBytes + 1 && ItemsOf(c, lim, data, pos, items).Ok?
    ensures Blank(c, data[LastTurn(c, lim, data, pos, items)..])
      && LineEnd(data, LastTurn(c, lim, data, pos, items)) == |data|
    decreases |data| - pos
  {
    match TakeItem(c, lim, data, pos, items)
    case Stop(_) => assert data[pos..] == data[pos..|data|];
    case Go(next, more) => LastIsBlank(c, lim, data, next, more);
  }

  /** An input above the limit that is accepted holds, from its last turn to the limit, one blank line without a
      newline. What lies beyond the limit is dropped unread. */
  lemma {:induction false} BlankAtLimit(c: Codec, l: Limits, input: seq<Byte>, pulled: ReadAhead)
    requires Pulls(pulled, l, input) && ParseEnvelope(c, l, input, pulled).Ok? && |input| > Defaults(l).maxEnvelopeBytes
    ensures var data, q := Capped(Defaults(l), input), LastLine(c, l, input);
      q < |data| && Blank(c, data[q..]) && OneLine(data[q..])
  {
    var lim, data := Defaults(l), Capped(Defaults(l), input);
    SizeDecides(c, l, input, pulled);
    var first := ReadLine(data, 0, lim.maxEnvelopeBytes);
    LastIsBlank(c, lim, data, first.next, []);
    assert LastLine(c, l, input) <= pulled(LastLine(c, l, input));
  }

  /** Five bytes against a limit of four, `{}`, a newline and two spaces, from a reader that yields one byte at a time,
      are accepted. */
  lemma {:induction false} OversizedAccepted(c: Codec, h: Header)
    requires c.header([123, 125]) == Some(h) && c.blank([32, 32])
    ensures Pulls((n: nat) => n, Limits(4, 1, 1), [123, 125, NL, 32, 32])
    ensures ParseEnvelope(c, Limits(4, 1, 1), [123, 125, NL, 32, 32], (n: nat) => n) == Ok(Parsed(h, []))
  {
    var data := [123, 125, NL, 32, 32];
    assert data[0..2] == [123, 125] && data[3..5] == [32, 32];
    LineEndIs(data, 0, [123, 125]);
    LineEndIs(data, 3, [32, 32]);
    assert ReadLine(data, 0, 4) == Line([123, 125], 3, false);
    assert ReadLine(data, 3, 4) == Line([32, 32], 5, true);
  }

  // ---- What is accepted is there ----

  ghost predicate OneLineAt(data: seq<Byte>, i: nat, j: nat) {
    i <= j <= |data| && (forall k :: i <= k < j ==> data[k] != NL) && (j < |data| ==> data[j] == NL)
  }

  /** From byte `at` on the data holds the item: a header line that decodes to its header, of an accepted type, and its
      payload, as long as announced and followed by a newline or the end, or a line. Nothing is over its limit. */
  ghost predicate ItemAt(c: Codec, lim: Limits, data: seq<Byte>, at: nat, it: Item) {
    exists i: nat, j: nat :: ItemIs(c, lim, data, at, i, j, it)
  }

  ghost predicate ItemIs(c: Codec, lim: Limits, data: seq<Byte>, at: nat, i: nat, j: nat, it: Item) {
    && OneLineAt(data, at, i) && c.item(data[at..i]) == Some(it.header)
    && it.header.kind in {"event", "transaction", "attachment", "session", "client_report", "check_in"}
    && (if i < |data| then i + 1 else i) <= j <= |data| && it.payload == data[if i < |data| then i + 1 else i..j]
    && |it.payload| <= lim.maxItemBytes
    && match it.header.length
       case Some(n) => |it.payload| == n && (j < |data| ==> data[j] == NL)
       case None => OneLineAt(data, if i < |data| then i + 1 else i, j)
  }

  /** One turn takes at most one item, which is there. */
  lemma {:induction false} TakenIsThere(c: Codec, lim: Limits, data: seq<Byte>, pos: nat, items: seq<Item>)
    requires pos <= |data| && TakeItem(c, lim, data, pos, items).Go?
    ensures var more := TakeItem(c, lim, data, pos, items).items;
      || more == items
      || (|more| == |items| + 1 <= lim.maxItems && more[..|items|] == items
          && ItemAt(c, lim, data, pos, more[|items|]))
  {
    var l := ReadLine(data, pos, lim.maxEnvelopeBytes);
    if !Blank(c, l.bytes) {
      var ih := c.item(l.bytes).value;
      var b := ReadBody(lim, data, l.next, ih.length).value;
      var e := LineEnd(data, pos);
      var end := l.next + |b.payload|;
      BodyIsThere(lim, data, l.next, ih.length);
      if Accepted(ih.kind) {
        assert ItemIs(c, lim, data, pos, e, end, Item(ih, b.payload));
      }
    }
  }

  lemma {:induction false} BodyIsThere(lim: Limits, data: seq<Byte>, pos: nat, length: Option<int>)
    requires pos <= |data| && ReadBody(lim, data, pos, length).Ok?
    ensures var b := ReadBody(lim, data, pos, length).value;
      var end := pos + |b.payload|;
      && end <= |data| && b.payload == data[pos..end] && |b.payload| <= lim.maxItemBytes
      && (match length
          case Some(n) => |b.payload| == n && (end < |data| ==> data[end] == NL)
          case None => OneLineAt(data, pos, end))
  {
  }

  /** The items after the first `done` stand in the data from pos on, in order, at these places. */
  ghost predicate StandAt(c: Codec, lim: Limits, data: seq<Byte>, pos: nat, all: seq<Item>, done: nat, at: seq<nat>) {
    && done + |at| == |all|
    && (forall i, j :: 0 <= i < j < |at| ==> at[i] < at[j])
    && (forall i :: 0 <= i < |at| ==> pos <= at[i] && ItemAt(c, lim, data, at[i], all[done + i]))
  }

  lemma {:induction false} StandMore(c: Codec, lim: Limits, data: seq<Byte>, pos: nat, next: nat, all: seq<Item>,
                                     done: nat, at: seq<nat>)
    requires StandAt(c, lim, data, next, all, done + 1, at) && pos < next && done < |all|
    requires ItemAt(c, lim, data, pos, all[done])
    ensures StandAt(c, lim, data, pos, all, done, [pos] + at)
  {
    var t := [pos] + at;
    forall i | 0 <= i < |t|
      ensures pos <= t[i] && ItemAt(c, lim, data, t[i], all[done + i])
    {
      if i > 0 {
        assert t[i] == at[i - 1] && ItemAt(c, lim, data, at[i - 1], all[done + 1 + (i - 1)]);
      }
    }
  }

  lemma {:induction false} ItemsKept(c: Codec, lim: Limits, data: seq<Byte>, pos: nat, items: seq<Item>)
    requires pos <= |data| && |items| <= lim.maxItems && ItemsOf(c, lim, data, pos, items).Ok?
    ensures items <= ItemsOf(c, lim, data, pos, items).value
      && |ItemsOf(c, lim, data, pos, items).value| <= lim.maxItems
    decreases |data| - pos
  {
    match TakeItem(c, lim, data, pos, items)
    case Stop(_) =>
    case Go(next, more) =>
      TakenIsThere(c, lim, data, pos, items);
      ItemsKept(c, lim, data, next, more);
  }

  /** The items read from pos on stand in the data in order. */
  lemma {:induction false} ItemsAreThere(c: Codec, lim: Limits, data: seq<Byte>, pos: nat, items: seq<Item>)
    returns (at: seq<nat>)
    requires pos <= |data| && |items| <= lim.maxItems && ItemsOf(c, lim, data, pos, items).Ok?
    ensures StandAt(c, lim, data, pos, ItemsOf(c, lim, data, pos, items).value, |items|, at)
    decreases |data| - pos
  {
    match TakeItem(c, lim, data, pos, items)
    case Stop(_) =>
      at := [];
    case Go(next, more) =>
      TakenIsThere(c, lim, data, pos, items);
      ItemsKept(c, lim, data, next, more);
      at := ItemsAreThere(c, lim, data, next, more);
      if more != items {
        StandMore(c, lim, data, pos, next, ItemsOf(c, lim, data, next, more).value, |items|, at);
        at := [pos] + at;
      }
  }

  /** Every accepted envelope, under any buffering: its header is the first line, and its items, no more than allowed
      and each within its limits, stand in the input in order. */
  lemma {:induction false} AcceptedIsThere(c: Codec, l: Limits, input: seq<Byte>, pulled: ReadAhead)
    returns (at: seq<nat>)
    requires Pulls(pulled, l, input) && ParseEnvelope(c, l, input, pulled).Ok?
    ensures var env, lim, data := ParseEnvelope(c, l, input, pulled).value, Defaults(l), Capped(Defaults(l), input);
      && (exists e: nat :: e < |data| && OneLineAt(data, 0, e) && c.header(data[0..e]) == Some(env.header))
      && |env.items| <= lim.maxItems && StandAt(c, lim, data, 0, env.items, 0, at)
  {
    var lim, data := Defaults(l), Capped(Defaults(l), input);
    SizeDecides(c, l, input, pulled);
    var first := ReadLine(data, 0, lim.maxEnvelopeBytes);
    at := ItemsAreThere(c, lim, data, first.next, []);
    ItemsKept(c, lim, data, first.next, []);
    assert OneLineAt(data, 0, LineEnd(data, 0));
  }

  /** Limits that are not set are the documented ones. */
  lemma {:induction false} DefaultLimits(l: Limits)
    ensures Defaults(l).maxEnvelopeBytes == if l.maxEnvelopeBytes > 0 then l.maxEnvelopeBytes else 20 * 1024 * 1024
    ensures Defaults(l).maxItemBytes == if l.maxItemBytes > 0 then l.maxItemBytes else 10 * 1024 * 1024
    ensures Defaults(l).maxItems == if l.maxItems > 0 then l.maxItems else 50
  {
  }

  // ---- Printing, and the round trip ----

  /** The encoder of the header lines. */
  datatype Printer = Printer(header: Header -> seq<Byte>, item: ItemHeader -> seq<Byte>)

  ghost predicate OneLine(s: seq<Byte>) {
    forall i :: 0 <= i < |s| ==> s[i] != NL
  }

  /** The printed headers are single lines, not blank, and decode to what was printed. */
  ghost predicate Inverse(c: Codec, p: Printer) {
    && (forall h :: OneLine(p.header(h)) && c.header(p.header(h)) == Some(h))
    && (forall ih :: OneLine(p.item(ih)) && !Blank(c, p.item(ih)) && c.item(p.item(ih)) == Some(ih))
  }

  function PrintItem(p: Printer, it: Item): seq<Byte> {
    p.item(it.header) + ([NL] + it.payload)
  }

  /** The items from the k-th on; the last newline may be left out. */
  function PrintFrom(p: Printer, items: seq<Item>, k: nat, last: bool): seq<Byte>
    requires k <= |items|
    decreases |items| - k
  {
    if k == |items| then []
    else if k + 1 == |items| && !last then PrintItem(p, items[k])
    else PrintItem(p, items[k]) + ([NL] + PrintFrom(p, items, k + 1, last))
  }

  function Print(p: Printer, env: Parsed, last: bool): seq<Byte> {
    p.header(env.header) + ([NL] + PrintFrom(p, env.items, 0, last))
  }

  /** The items of accepted types among those from the k-th on. */
  function Kept(items: seq<Item>, k: nat): seq<Item>
    requires k <= |items|
    decreases |items| - k
  {
    if k == |items| then []
    else if Accepted(items[k].header.kind) then [items[k]] + Kept(items, k + 1)
    else Kept(items, k + 1)
  }

  /** An item that can be sent: a length that is the payload's, or a payload of one line. */
  ghost predicate Sendable(lim: Limits, it: Item) {
    && |it.header.kind| > 0
    && match it.header.length
       case Some(n) => n == |it.payload| && n <= lim.maxItemBytes
       case None => OneLine(it.payload) && |it.payload| + 1 <= lim.maxItemBytes
  }

  lemma {:induction false} LineEndIs(data: seq<Byte>, pos: nat, line: seq<Byte>)
    requires pos + |line| <= |data| && data[pos..pos + |line|] == line && OneLine(line)
    requires pos + |line| < |data| ==> data[pos + |line|] == NL
    ensures LineEnd(data, pos) == pos + |line|
  {
  }

  /** A line followed by a newline reads as that line. */
  lemma {:induction false} ReadPrintedLine(data: seq<Byte>, pos: nat, line: seq<Byte>, rest: seq<Byte>, max: int)
    requires pos <= |data| && data[pos..] == line + ([NL] + rest) && OneLine(line) && |line| + 1 <= max
    ensures ReadLine(data, pos, max) == Line(line, pos + |line| + 1, false)
    ensures data[pos + |line| + 1..] == rest
  {
    var t := data[pos..];
    assert data[pos..pos + |line|] == t[..|line|] == line;
    assert data[pos + |line|] == t[|line|] == NL;
    assert data[pos + |line| + 1..] == t[|line| + 1..] == rest;
    LineEndIs(data, pos, line);
  }

  /** The payload of a sendable item reads back, with a newline after it or at the end of the data. */
  lemma {:induction false} ReadPrintedBody(lim: Limits, data: seq<Byte>, pos: nat, it: Item, rest: seq<Byte>,
                                           ended: bool)
    requires pos <= |data| && Sendable(lim, it)
    requires data[pos..] == if ended then it.payload + ([NL] + rest) else it.payload
    ensures var next := pos + |it.payload| + if ended then 1 else 0;
      && ReadBody(lim, data, pos, it.header.length) == Ok(Body(it.payload, next))
      && next <= |data| && (if ended then data[next..] == rest else next == |data|)
  {
    var t := data[pos..];
    assert data[pos..pos + |it.payload|] == t[..|it.payload|] == it.payload;
    if it.header.length.None? {
      if ended {
        ReadPrintedLine(data, pos, it.payload, rest, lim.maxItemBytes);
      } else {
        LineEndIs(data, pos, it.payload);
      }
    } else if ended {
      assert data[pos + |it.payload|] == t[|it.payload|] == NL;
      assert data[pos + |it.payload| + 1..] == t[|it.payload| + 1..] == rest;
    }
  }

  /** One printed item: its header line, and what follows. */
  lemma {:induction false} ItemSplits(p: Printer, it: Item, rest: seq<Byte>, ended: bool)
    ensures (if ended then PrintItem(p, it) + ([NL] + rest) else PrintItem(p, it))
      == p.item(it.header) + ([NL] + (if ended then it.payload + ([NL] + rest) else it.payload))
  {
  }

  /** One turn of the item loop. */
  lemma {:induction false} ParseTurn(c: Codec, lim: Limits, data: seq<Byte>, pulled: ReadAhead, pos: nat,
                                     items: seq<Item>,
                                     line: seq<Byte>, at: nat, ih: ItemHeader, b: Body)
    requires pos <= |data| && pulled(pos) <= lim.maxEnvelopeBytes && |items| < lim.maxItems && at <= |data|
    requires ReadLine(data, pos, lim.maxEnvelopeBytes) == Line(line, at, false) && !Blank(c, line)
    requires c.item(line) == Some(ih) && |ih.kind| > 0 && ReadBody(lim, data, at, ih.length) == Ok(b)
    ensures ParseItems(c, lim, data, pulled, pos, items) ==
      ParseItems(c, lim, data, pulled, b.next, if Accepted(ih.kind) then items + [Item(ih, b.payload)] else items)
  {
  }

  /** The payload of a printed item, from where its header line ends. */
  lemma {:induction false} ReadPrintedTail(lim: Limits, data: seq<Byte>, at: nat, it: Item, rest: seq<Byte>,
                                           ended: bool)
    returns (next: nat)
    requires Sendable(lim, it) && at <= |data|
    requires data[at..] == if ended then it.payload + ([NL] + rest) else it.payload
    ensures at <= next <= |data| && (if ended then data[next..] == rest else next == |data|)
    ensures ReadBody(lim, data, at, it.header.length) == Ok(Body(it.payload, next))
  {
    ReadPrintedBody(lim, data, at, it, rest, ended);
    next := at + |it.payload| + if ended then 1 else 0;
  }

  /** A printed item reads as its header line and its payload. */
  lemma {:induction false} ReadPrintedItem(lim: Limits, data: seq<Byte>, pos: nat, line: seq<Byte>, it: Item,
                                           tail: seq<Byte>, rest: seq<Byte>, ended: bool) returns (next: nat)
    requires OneLine(line) && Sendable(lim, it) && pos <= |data| <= lim.maxEnvelopeBytes
    requires data[pos..] == line + ([NL] + tail)
    requires tail == if ended then it.payload + ([NL] + rest) else it.payload
    ensures pos < next <= |data| && (if ended then data[next..] == rest else next == |data|)
    ensures pos + |line| + 1 <= |data|
    ensures ReadLine(data, pos, lim.maxEnvelopeBytes) == Line(line, pos + |line| + 1, false)
    ensures ReadBody(lim, data, pos + |line| + 1, it.header.length) == Ok(Body(it.payload, next))
  {
    assert |data[pos..]| == |line| + 1 + |tail|;
    ReadPrintedLine(data, pos, line, tail, lim.maxEnvelopeBytes);
    next := ReadPrintedTail(lim, data, pos + |line| + 1, it, rest, ended);
  }

  lemma {:induction false} ParseEnd(c: Codec, lim: Limits, data: seq<Byte>, pulled: ReadAhead, items: seq<Item>)
    requires pulled(|data|) <= lim.maxEnvelopeBytes
    ensures ParseItems(c, lim, data, pulled, |data|, items) == Ok(items)
  {
  }

  /** Room for the accepted items from the k-th on, and for looking at an unknown one at the end. */
  ghost predicate Room(lim: Limits, done: nat, items: seq<Item>, k: nat)
    requires k <= |items|
  {
    done + |Kept(items, k)| + (if k < |items|
      && !Accepted(items[|items| - 1].header.kind) then 1 else 0) <= lim.maxItems
  }

  lemma {:induction false} LastKept(items: seq<Item>, k: nat)
    requires k < |items| && Accepted(items[|items| - 1].header.kind)
    ensures |Kept(items, k)| > 0
    decreases |items| - k
  {
    if k + 1 < |items| {
      LastKept(items, k + 1);
    }
  }

  lemma {:induction false} KeptStep(done: seq<Item>, items: seq<Item>, k: nat)
    requires k < |items|
    ensures done + Kept(items, k) ==
      (if Accepted(items[k].header.kind) then done + [items[k]] else done) + Kept(items, k + 1)
  {
  }

  lemma {:induction false} ParsePrinted(c: Codec, p: Printer, lim: Limits, data: seq<Byte>, pulled: ReadAhead, pos: nat,
                                        done: seq<Item>,
                                        items: seq<Item>, k: nat, last: bool)
    requires Inverse(c, p) && pos <= |data| <= lim.maxEnvelopeBytes
      && (forall i :: 0 <= i <= |data| ==> pulled(i) <= |data|) && k <= |items|
    requires forall i :: 0 <= i < |items| ==> Sendable(lim, items[i])
    requires Room(lim, |done|, items, k) && data[pos..] == PrintFrom(p, items, k, last)
    ensures ParseItems(c, lim, data, pulled, pos, done) == Ok(done + Kept(items, k))
    decreases |items| - k
  {
    if k == |items| {
      assert done + Kept(items, k) == done;
      ParseEnd(c, lim, data, pulled, done);
    } else {
      var it, ended, rest := items[k], k + 1 < |items| || last, PrintFrom(p, items, k + 1, last);
      if Accepted(items[|items| - 1].header.kind) {
        LastKept(items, k);
      }
      var tail := if ended then it.payload + ([NL] + rest) else it.payload;
      ItemSplits(p, it, rest, ended);
      var next := ReadPrintedItem(lim, data, pos, p.item(it.header), it, tail, rest, ended);
      ParseTurn(c, lim, data, pulled, pos, done, p.item(it.header), pos + |p.item(it.header)| + 1, it.header,
        Body(it.payload, next));
      KeptStep(done, items, k);
      ParsePrinted(c, p, lim, data, pulled, next, if Accepted(it.header.kind) then done + [it] else done, items, k + 1,
        last);
    }
  }

  /** Nothing is skipped when every type is an accepted one. */
  lemma {:induction false} KeptAll(items: seq<Item>, k: nat)
    requires k <= |items| && forall i :: 0 <= i < |items| ==> Accepted(items[i].header.kind)
    ensures Kept(items, k) == items[k..]
    decreases |items| - k
  {
    if k < |items| {
      KeptAll(items, k + 1);
    }
  }

  /** Round trip: the items of accepted types come back in order, whatever bytes a length-prefixed payload holds and
      whether or not the last newline is sent; items of other types are skipped. */
  lemma {:induction false} RoundTrip(c: Codec, p: Printer, l: Limits, env: Parsed, last: bool, pulled: ReadAhead)
    requires Inverse(c, p) && Pulls(pulled, l, Print(p, env, last))
      && |Print(p, env, last)| <= Defaults(l).maxEnvelopeBytes
    requires Room(Defaults(l), 0, env.items, 0)
    requires forall i :: 0 <= i < |env.items| ==> Sendable(Defaults(l), env.items[i])
    ensures ParseEnvelope(c, l, Print(p, env, last), pulled) == Ok(Parsed(env.header, Kept(env.items, 0)))
  {
    var lim, data, line := Defaults(l), Print(p, env, last), p.header(env.header);
    assert data[0..] == data;
    ReadPrintedLine(data, 0, line, PrintFrom(p, env.items, 0, last), lim.maxEnvelopeBytes);
    ParsePrinted(c, p, lim, data, pulled, |line| + 1, [], env.items, 0, last);
    assert [] + Kept(env.items, 0) == Kept(env.items, 0);
  }

  /** With accepted types only, parsing undoes printing. */
  lemma {:induction false} RoundTripAccepted(c: Codec, p: Printer, l: Limits, env: Parsed, last: bool,
                                             pulled: ReadAhead)
    requires Inverse(c, p) && Pulls(pulled, l, Print(p, env, last))
      && |Print(p, env, last)| <= Defaults(l).maxEnvelopeBytes
    requires |env.items| <= Defaults(l).maxItems
    requires forall i :: 0 <= i < |env.items| ==>
      Sendable(Defaults(l), env.items[i]) && Accepted(env.items[i].header.kind)
    ensures ParseEnvelope(c, l, Print(p, env, last), pulled) == Ok(env)
  {
    KeptAll(env.items, 0);
    assert env.items[0..] == env.items;
    RoundTrip(c, p, l, env, last, pulled);
  }
}
