/** The ingest pipeline (internal/ingest/pipeline.go): submit, consume, dedupe, store, flush, commit, crash, replay.
    Each step below is one action of the process or of its surroundings, so runs interleave them in every order
    in which they can happen. */
module Pipeline {
  import opened Base
  import opened Bytes
  import opened Rows
  import opened Store
  import opened Dedupe
  import Envelope
  import opened Runs

  // ---- Records ----

  /** What ExtractEvent finds in an event's JSON; a missing timestamp becomes the time of processing. */
  datatype Extracted = Extracted(id: string, ts: Option<int>, level: string, fingerprint: string, release: string,
                                 environment: string, userId: string, message: string)

  /** The envelope parser and the event extractor; None is their error. */
  datatype Codec = Codec(envelope: seq<Byte> -> Option<Envelope.Parsed>, event: seq<Byte> -> Option<Extracted>)

  const REC_ENVELOPE: Byte := 1
  const REC_EVENT: Byte := 2

  /** The record Submit appends: kind, project, body. */
  function Frame(kind: Byte, project: Int64, body: seq<Byte>): seq<Byte> {
    [kind] + PutLE(ToU64(project), 8) + body
  }

  datatype Framed = Framed(kind: Byte, project: Int64, body: seq<Byte>)

  function Unframe(bytes: seq<Byte>): Option<Framed> {
    if |bytes| < 9 then None
    else
      var u := GetLE(bytes[1..9]);
      if u < TWO_64 then Some(Framed(bytes[0], FromU64(u), bytes[9..])) else None
  }

  /** process reads back what Submit framed; only records shorter than the frame are refused. */
  lemma {:induction false} FrameRoundTrip(kind: Byte, project: Int64, body: seq<Byte>)
    ensures Unframe(Frame(kind, project, body)) == Some(Framed(kind, project, body))
  {
    var r := Frame(kind, project, body);
    assert r[1..9] == PutLE(ToU64(project), 8) && r[9..] == body;
    Int64Field(project);
  }

  lemma {:induction false} UnframeTotal(bytes: seq<Byte>)
    ensures Unframe(bytes).None? <==> |bytes| < 9
  {
    if |bytes| >= 9 {
      GetLEBound(bytes[1..9]);
      FieldRanges();
    }
  }

  datatype Pending = Pending(ex: Extracted, payload: seq<Byte>)

  /** The events among an envelope's items: malformed ones and other types are skipped; an event without an id takes
      the envelope's. */
  function ItemEvents(c: Codec, env: Envelope.Parsed, n: nat): seq<Pending>
    requires n <= |env.items|
  {
    if n == 0 then []
    else
      var before, item := ItemEvents(c, env, n - 1), env.items[n - 1];
      if !IsEvent(item) then before
      else
        match c.event(item.payload)
        case None => before
        case Some(ex) => before + [Pending(if |ex.id| == 0
          && |env.header.eventId| > 0 then ex.(id := env.header.eventId) else ex, item.payload)]
  }

  /** The well-formed events of a record. */
  function EventsIn(c: Codec, bytes: seq<Byte>): seq<Pending> {
    match Unframe(bytes)
    case None => []
    case Some(f) =>
      if f.kind == REC_ENVELOPE then
        match c.envelope(f.body)
        case None => []
        case Some(env) => ItemEvents(c, env, |env.items|)
      else if f.kind == REC_EVENT then
        match c.event(f.body)
        case None => []
        case Some(ex) => [Pending(ex, f.body)]
      else []
  }

  /** The events of an envelope, in order: each event item whose payload decodes, under its own id or, without one,
      under the envelope's. */
  lemma {:induction false} ItemEventsAre(c: Codec, env: Envelope.Parsed, n: nat) returns (at: seq<nat>)
    requires n <= |env.items|
    ensures |at| == |ItemEvents(c, env, n)| && forall i, j :: 0 <= i < j < |at| ==> at[i] < at[j]
    ensures forall i :: 0 <= i < |at| ==> at[i] < n && ComesFrom(c, env, env.items[at[i]], ItemEvents(c, env, n)[i])
    ensures forall j :: 0 <= j < n && IsEvent(env.items[j]) && c.event(env.items[j].payload).Some? ==> j in at
  {
    if n == 0 {
      at := [];
    } else {
      at := ItemEventsAre(c, env, n - 1);
      if IsEvent(env.items[n - 1]) && c.event(env.items[n - 1].payload).Some? {
        at := at + [n - 1];
      }
    }
  }

  predicate ComesFrom(c: Codec, env: Envelope.Parsed, item: Envelope.Item, p: Pending) {
    && item.header.kind in {"event", "transaction"} && p.payload == item.payload && c.event(item.payload).Some?
    && var ex := c.event(item.payload).value;
      && (ex.id != "" ==> p.ex == ex)
      && (ex.id == "" ==> p.ex == ex.(id := env.header.eventId))
  }

  /** What each kind of record yields: an envelope's events, one event, or nothing when it does not decode or is of no
      known kind. */
  lemma {:induction false} RecordEvents(c: Codec, kind: Byte, project: Int64, body: seq<Byte>)
    ensures var es := EventsIn(c, Frame(kind, project, body));
      && (kind == 1 && c.envelope(body).Some? ==>
            var env := c.envelope(body).value; es == ItemEvents(c, env, |env.items|))
      && (kind == 1 && c.envelope(body).None? ==> es == [])
      && (kind == 2 ==> es == if c.event(body).Some? then [Pending(c.event(body).value, body)] else [])
      && (kind != 1 && kind != 2 ==> es == [])
  {
    FrameRoundTrip(kind, project, body);
  }

  predicate IsEvent(item: Envelope.Item) {
    item.header.kind == "event" || item.header.kind == "transaction"
  }

  function EventItems(env: Envelope.Parsed, n: nat): nat
    requires n <= |env.items|
  {
    if n == 0 then 0 else EventItems(env, n - 1) + if IsEvent(env.items[n - 1]) then 1 else 0
  }

  /** The first half of process: the record's well-formed events, and how many drops it counts as malformed. An
      unreadable record is one drop; in an envelope every event item is either returned or counted. */
  method Extract(c: Codec, bytes: seq<Byte>) returns (es: seq<Pending>, malformed: nat)
    ensures es == EventsIn(c, bytes)
    ensures match Unframe(bytes)
      case None => malformed == 1
      case Some(f) =>
        if f.kind == REC_ENVELOPE && c.envelope(f.body).Some? then
          var env := c.envelope(f.body).value;
          |es| + malformed == EventItems(env, |env.items|)
        else
          |es| + malformed == 1
  {
    var framed := Unframe(bytes);
    if framed.None? {
      return [], 1;
    }
    var f := framed.value;
    if f.kind == REC_ENVELOPE {
      var parsed := c.envelope(f.body);
      if parsed.None? {
        return [], 1;
      }
      var env := parsed.value;
      es, malformed := [], 0;
      var i := 0;
      while i < |env.items|
        invariant 0 <= i <= |env.items| && es == ItemEvents(c, env, i)
        invariant |es| + malformed == EventItems(env, i)
      {
        var item := env.items[i];
        if IsEvent(item) {
          var ex := c.event(item.payload);
          if ex.None? {
            malformed := malformed + 1;
          } else {
            var e := ex.value;
            if |e.id| == 0 && |env.header.eventId| > 0 {
              e := e.(id := env.header.eventId);
            }
            es := es + [Pending(e, item.payload)];
          }
        }
        i := i + 1;
      }
    } else if f.kind == REC_EVENT {
      var ex := c.event(f.body);
      if ex.None? {
        return [], 1;
      }
      es, malformed := [Pending(ex.value, f.body)], 0;
    } else {
      return [], 1;
    }
  }

  function ProjectIn(bytes: seq<Byte>): Int64 {
    match Unframe(bytes)
    case None => 0
    case Some(f) => f.project
  }

  /** toStoreEvent. */
  function RowOf(project: Int64, p: Pending, now: int): Event {
    var x := p.ex;
    Event(x.id, project, if x.ts.Some? then x.ts.value else now, x.level, x.fingerprint, x.release, x.environment,
          x.userId, x.message, p.payload)
  }

  /** The row carries the event's fields under its project, its time or the time of handling, and its payload. */
  predicate Carries(e: Event, project: int, p: Pending, now: int) {
    && e.project == project && e.eventId == p.ex.id && e.payload == p.payload
    && (p.ex.ts.Some? ==> e.ts == p.ex.ts.value) && (p.ex.ts.None? ==> e.ts == now)
    && e.level == p.ex.level && e.fingerprint == p.ex.fingerprint && e.release == p.ex.release
    && e.environment == p.ex.environment && e.userId == p.ex.userId && e.message == p.ex.message
  }

  // ---- The world ----

  /** A record of the log; the number tells apart records that happen to hold the same bytes. */
  datatype Rec = Rec(id: nat, bytes: seq<Byte>)

  /** A stored row, and where it came from: event `index` of `rec`, handled at time `now`. */
  datatype Row = Row(event: Event, rec: Rec, index: nat, now: int)

  /** A segment file and the process lifetime that wrote it. */
  datatype File = File(rows: set<Row>, life: nat)

  datatype Then = ToCommit | ToAppend(row: Row)

  /** Where the consumer is: between records, at event `at` of the record before pos, in the append loop, inside
      Flush with the partitions `todo` still to write, or about to write the offset file. */
  datatype Pc =
    | Idle
    | Working(at: nat)
    | Appending(row: Row, retried: bool)
    | Flushing(rows: seq<Row>, todo: set<Key>, then_: Then)
    | Committing

  /** The consumer of one lifetime; `start` is the offset at which it began. */
  datatype Proc = Proc(start: nat, pos: nat, pc: Pc, seen: Window, buf: seq<Row>, flushCount: nat)

  datatype World = World(log: seq<Rec>, nextId: nat, acked: nat, oldest: nat, committed: nat,
                         disk: map<Path, File>, life: nat, proc: Option<Proc>)

  datatype Settings = Settings(codec: Codec, cap: nat, maxBufferRows: nat)

  datatype Action =
    | Submit(bytes: seq<Byte>)
    | Ack(upTo: nat)
    | Retain(upTo: nat)
    | Lose(keep: nat)
    | Start
    | Read
    | Handle(now: int)
    | Store
    | Abandon
    | BeginCommit
    | WritePart(key: Key, minTs: int)
    | FailFlush(counted: bool)
    | EndFlush
    | Commit
    | FailCommit

  function RowSet(rows: seq<Row>): set<Row> {
    set i | 0 <= i < |rows| :: rows[i]
  }

  function KeysIn(rows: seq<Row>): set<Key> {
    set i | 0 <= i < |rows| :: KeyOf(rows[i].event)
  }

  function PartIn(rows: seq<Row>, k: Key): set<Row> {
    set i | 0 <= i < |rows| && KeyOf(rows[i].event) == k :: rows[i]
  }

  function BeginFlush(p: Proc, next: Then): Proc {
    p.(pc := Flushing(p.buf, KeysIn(p.buf), next), buf := [])
  }

  function AfterFlush(next: Then, ok: bool): Pc {
    match next
    case ToCommit => if ok then Committing else Idle
    case ToAppend(row) => Appending(row, true)
  }

  function Events(o: Settings, r: Rec): seq<Pending> {
    EventsIn(o.codec, r.bytes)
  }

  function PathFor(p: Proc, k: Key, minTs: int): Path {
    Path(k.0, k.1, minTs, p.flushCount + 1)
  }

  /** When an action can happen. A crash keeps the acknowledged records; retention is told the committed offset. */
  ghost predicate Enabled(o: Settings, w: World, a: Action) {
    match a
    case Submit(_) => true
    case Ack(n) => w.acked <= n <= |w.log|
    case Retain(n) => w.oldest <= n <= w.committed
    case Lose(n) => w.acked <= n <= |w.log|
    case Start => w.proc.None?
    case _ => w.proc.Some? && Ready(o, w, w.proc.value, a)
  }

  ghost predicate Ready(o: Settings, w: World, p: Proc, a: Action) {
    match a
    case Read => p.pc.Idle? && p.pos < |w.log|
    case Handle(_) => p.pc.Working? && 0 < p.pos <= |w.log|
    case Store => p.pc.Appending?
    case Abandon => p.pc.Appending? && p.pc.retried
    case BeginCommit => p.pc.Idle?
    case WritePart(k, minTs) =>
      && p.pc.Flushing? && k in p.pc.todo
      && (exists r :: r in PartIn(p.pc.rows, k) && r.event.ts == minTs)
      && (forall r :: r in PartIn(p.pc.rows, k) ==> minTs <= r.event.ts)
    case FailFlush(_) => p.pc.Flushing? && p.pc.todo != {}
    case EndFlush => p.pc.Flushing? && p.pc.todo == {}
    case Commit => p.pc.Committing?
    case FailCommit => p.pc.Committing?
    case _ => false
  }

  /** One event of the current record: skipped if its key is known, else marked and taken to the append loop. */
  function HandleEvent(o: Settings, rec: Rec, p: Proc, at: nat, now: int): Proc {
    var es, project := Events(o, rec), ProjectIn(rec.bytes);
    if at >= |es| then p.(pc := Idle)
    else
      var id := es[at].ex.id;
      var key := ProjectKey(project, id);
      if |id| > 0 && Known(p.seen, key) then p.(pc := Working(at + 1))
      else p.(pc := Appending(Row(RowOf(project, es[at], now), rec, at, now), false),
              seen := if |id| > 0 then Accept(o.cap, p.seen, key) else p.seen)
  }

  function StoreRow(o: Settings, p: Proc, row: Row): Proc {
    if |p.buf| + 1 > o.maxBufferRows then BeginFlush(p, ToAppend(row))
    else p.(pc := Working(row.index + 1), buf := p.buf + [row])
  }

  ghost function Step(o: Settings, w: World, a: Action): World
    requires Enabled(o, w, a)
  {
    match a
    case Submit(bytes) => w.(log := w.log + [Rec(w.nextId, bytes)], nextId := w.nextId + 1)
    case Ack(n) => w.(acked := n)
    case Retain(n) => w.(oldest := n)
    case Lose(n) => w.(log := w.log[..n], proc := None)
    case Start =>
      var pos := if w.committed < w.oldest then w.oldest else w.committed;
      w.(proc := Some(Proc(pos, pos, Idle, Fresh(), [], 0)), life := w.life + 1)
    case WritePart(k, minTs) =>
      var p := w.proc.value;
      w.(disk := w.disk[PathFor(p, k, minTs) := File(PartIn(p.pc.rows, k), w.life)],
         proc := Some(p.(pc := p.pc.(todo := p.pc.todo - {k}), flushCount := p.flushCount + 1)))
    case Commit =>
      var p := w.proc.value;
      w.(committed := p.pos, proc := Some(p.(pc := Idle)))
    case _ => w.(proc := Some(ProcStep(o, w, w.proc.value, a)))
  }

  ghost function ProcStep(o: Settings, w: World, p: Proc, a: Action): Proc
    requires Ready(o, w, p, a)
  {
    match a
    case Read => p.(pos := p.pos + 1, pc := Working(0))
    case Handle(now) => HandleEvent(o, w.log[p.pos - 1], p, p.pc.at, now)
    case Store => StoreRow(o, p, p.pc.row)
    case Abandon => p.(pc := Idle)
    case BeginCommit => BeginFlush(p, ToCommit)
    case FailFlush(counted) =>
      p.(pc := AfterFlush(p.pc.then_, false), buf := p.pc.rows + p.buf,
         flushCount := if counted then p.flushCount + 1 else p.flushCount)
    case EndFlush => p.(pc := AfterFlush(p.pc.then_, true))
    case _ => p.(pc := Idle)
  }

  // ---- What is safe ----

  /** r accounts for event i of rec: a row with its project and id, or its own row if it has no id. */
  ghost predicate Covers(o: Settings, r: Row, rec: Rec, i: nat)
    requires i < |Events(o, rec)|
  {
    var id := Events(o, rec)[i].ex.id;
    if |id| > 0 then r.event.project == ProjectIn(rec.bytes) && r.event.eventId == id else r.rec == rec && r.index == i
  }

  ghost predicate Held(o: Settings, rows: set<Row>, rec: Rec, i: nat) {
    i < |Events(o, rec)| ==> exists r :: r in rows && Covers(o, r, rec, i)
  }

  /** The row is what extraction makes of the event it came from. */
  ghost predicate Genuine(o: Settings, r: Row) {
    r.index < |Events(o, r.rec)| && Carries(r.event, ProjectIn(r.rec.bytes), Events(o, r.rec)[r.index], r.now)
  }

  /** Rows are what extraction makes of records that were submitted. */
  ghost predicate AllGenuine(o: Settings, nextId: nat, rows: set<Row>) {
    forall r :: r in rows ==> Genuine(o, r) && r.rec.id < nextId
  }

  ghost function DiskRows(disk: map<Path, File>): set<Row> {
    set p, r | p in disk && r in disk[p].rows :: r
  }

  /** The rows in files of the present lifetime. */
  ghost function OwnDisk(w: World): (rows: set<Row>)
    ensures rows <= DiskRows(w.disk)
  {
    set x, r | x in w.disk && w.disk[x].life == w.life && r in w.disk[x].rows :: r
  }

  /** Rows inside a flush. */
  function Flight(pc: Pc): seq<Row> {
    if pc.Flushing? then pc.rows else []
  }

  /** The row in the append loop. */
  function Taken(pc: Pc): Option<Row> {
    match pc
    case Appending(row, _) => Some(row)
    case Flushing(_, _, ToAppend(row)) => Some(row)
    case _ => None
  }

  /** How far into the current record; None when it is finished. */
  function Progress(pc: Pc): Option<nat> {
    if pc.Working? then Some(pc.at) else if Taken(pc).Some? then Some(Taken(pc).value.index) else None
  }

  ghost function Live(w: World, p: Proc): set<Row> {
    DiskRows(w.disk) + RowSet(p.buf) + RowSet(Flight(p.pc))
  }

  /** Event i of record n has been dealt with. */
  predicate Past(p: Proc, n: nat, i: nat) {
    if Progress(p.pc).None? then n < p.pos
    else n + 1 < p.pos || (n + 1 == p.pos && i < Progress(p.pc).value)
  }

  /** The log keeps what was acknowledged; records are told apart by their numbers. */
  ghost predicate LogOk(w: World) {
    && w.acked <= |w.log| && w.oldest <= w.committed <= |w.log|
    && (forall n :: 0 <= n < |w.log| ==> w.log[n].id < w.nextId)
    && (forall m, n :: 0 <= m < n < |w.log| ==> w.log[m].id < w.log[n].id)
  }

  /** Every event of every record below the committed offset is on disk. */
  ghost predicate CommittedSafe(o: Settings, w: World) {
    forall n, i {:trigger Held(o, DiskRows(w.disk), w.log[n], i)} ::
      0 <= n < w.committed && n < |w.log| && 0 <= i ==> Held(o, DiskRows(w.disk), w.log[n], i)
  }

  /** Every event dealt with in this lifetime is on disk, in the buffer, or in the flush under way. */
  ghost predicate PastSafe(o: Settings, w: World, p: Proc) {
    forall n, i {:trigger Held(o, Live(w, p), w.log[n], i)} ::
      0 <= n < |w.log| && 0 <= i && Past(p, n, i) ==> Held(o, Live(w, p), w.log[n], i)
  }

  function RowKey(r: Row): string {
    ProjectKey(ProjectIn(r.rec.bytes), r.event.eventId)
  }

  function TakenSet(pc: Pc): set<Row> {
    if Taken(pc).Some? then {Taken(pc).value} else {}
  }

  ghost predicate KeyHeld(rows: set<Row>, key: string) {
    exists r :: r in rows && RowKey(r) == key
  }

  /** A key the filter knows belongs to a row that is safe or about to be. */
  ghost predicate SeenSafe(w: World, p: Proc) {
    forall key :: Known(p.seen, key) ==> KeyHeld(Live(w, p) + TakenSet(p.pc), key)
  }

  ghost predicate TakenOk(o: Settings, w: World, p: Proc) {
    && (Progress(p.pc).Some? ==> 0 < p.pos)
    && (Taken(p.pc).Some? ==>
      0 < p.pos <= |w.log| && Genuine(o, Taken(p.pc).value) && Taken(p.pc).value.rec == w.log[p.pos - 1])
  }

  /** A flush has its rows to itself, and those of finished partitions are on disk; the offset is written only with
      nothing left in memory. */
  ghost predicate FlushOk(w: World, p: Proc) {
    && (p.pc.Committing? ==> p.buf == [])
    && (p.pc.Flushing? ==>
          && p.buf == []
          && forall i :: 0 <= i < |p.pc.rows| && KeyOf(p.pc.rows[i].event) !in p.pc.todo ==> p.pc.rows[i] in OwnDisk(w))
  }

  /** Within a lifetime the numbers of written files only grow. */
  ghost predicate NumbersOk(w: World, p: Proc) {
    forall x :: x in w.disk && w.disk[x].life == w.life ==> x.number <= p.flushCount
  }

  ghost predicate ProcOk(o: Settings, w: World, p: Proc) {
    && w.committed <= p.pos <= |w.log|
    && TakenOk(o, w, p) && FlushOk(w, p) && NumbersOk(w, p)
    && AllGenuine(o, w.nextId, Live(w, p)) && PastSafe(o, w, p) && SeenSafe(w, p)
  }

  ghost predicate LivesOk(w: World) {
    forall x :: x in w.disk ==> w.disk[x].life <= w.life
  }

  ghost predicate Good(o: Settings, w: World) {
    && LogOk(w) && LivesOk(w) && AllGenuine(o, w.nextId, DiskRows(w.disk)) && CommittedSafe(o, w)
    && (w.proc.Some? ==> ProcOk(o, w, w.proc.value))
  }

  lemma {:induction false} HeldMore(o: Settings, rows: set<Row>, rows': set<Row>, rec: Rec, i: nat)
    requires Held(o, rows, rec, i) && rows <= rows'
    ensures Held(o, rows', rec, i)
  {
  }

  // ---- What the promise needs to be spared ----

  /** What a path holds now, and the rows of all other files. */
  function Replaced(disk: map<Path, File>, x: Path): set<Row> {
    if x in disk then disk[x].rows else {}
  }

  ghost function Others(disk: map<Path, File>, x: Path): set<Row> {
    DiskRows(disk - {x})
  }

  /** The promise does without row r, with `disk` on disk and the rows of the flush in memory: whatever r accounts for
      among the committed events is accounted for on disk, whatever it accounts for among the others dealt with is
      accounted for, and if its key is known another row has it. */
  ghost predicate Dispensable(o: Settings, w: World, p: Proc, r: Row, disk: set<Row>) {
    && (forall n, i {:trigger Accounts(o, r, w.log[n], i)} ::
          0 <= n < |w.log| && 0 <= i && Accounts(o, r, w.log[n], i) ==>
            && (n < w.committed ==> Held(o, disk, w.log[n], i))
            && (Past(p, n, i) ==> Held(o, disk + RowSet(Flight(p.pc)), w.log[n], i)))
    && (Known(p.seen, RowKey(r)) ==> KeyHeld(disk + RowSet(Flight(p.pc)) + TakenSet(p.pc), RowKey(r)))
  }

  ghost predicate Accounts(o: Settings, r: Row, rec: Rec, i: nat) {
    i < |Events(o, rec)| && Covers(o, r, rec, i)
  }

  /** The three things that the code does not rule out, each under the condition that is exact for it: a crash may not
      leave the log behind the committed offset; a file that is written over a path in use may replace only dispensable
      rows; and a cancellation inside the append loop may leave out only events that are accounted for. */
  ghost predicate Spared(o: Settings, w: World, a: Action)
    requires Enabled(o, w, a)
  {
    match a
    case Lose(n) => w.committed <= n
    case WritePart(k, minTs) =>
      var p := w.proc.value;
      var x := PathFor(p, k, minTs);
      forall r :: r in Replaced(w.disk, x) ==> Dispensable(o, w, p, r, Others(w.disk, x) + PartIn(p.pc.rows, k))
    case Abandon => RestHeld(o, w, w.proc.value)
    case _ => true
  }

  /** The events of the current record from the taken one on are accounted for. */
  ghost predicate RestHeld(o: Settings, w: World, p: Proc)
    requires p.pc.Appending?
  {
    forall n, i {:trigger Held(o, Live(w, p), w.log[n], i)} ::
      0 <= n < |w.log| && n + 1 == p.pos && p.pc.row.index <= i ==> Held(o, Live(w, p), w.log[n], i)
  }

  // ---- Each kind of step keeps it ----

  lemma {:induction false} PastMore(o: Settings, w: World, p: Proc, w': World, p': Proc)
    requires PastSafe(o, w, p) && Live(w, p) <= Live(w', p') && |w.log| <= |w'.log|
    requires forall n :: 0 <= n < |w.log| ==> w'.log[n] == w.log[n]
    requires forall n, i {:trigger Past(p', n, i)} :: 0 <= n < |w'.log| && 0 <= i && Past(p', n, i) ==>
      (n < |w.log| && Past(p, n, i)) || Held(o, Live(w', p'), w'.log[n], i)
    ensures PastSafe(o, w', p')
  {
    forall n, i | 0 <= n < |w'.log| && 0 <= i && Past(p', n, i)
      ensures Held(o, Live(w', p'), w'.log[n], i)
    {
      if n < |w.log| && Past(p, n, i) {
        HeldMore(o, Live(w, p), Live(w', p'), w.log[n], i);
      }
    }
  }

  lemma {:induction false} SeenMore(w: World, p: Proc, w': World, p': Proc)
    requires SeenSafe(w, p) && p'.seen == p.seen && Live(w, p) + TakenSet(p.pc) <= Live(w', p') + TakenSet(p'.pc)
    ensures SeenSafe(w', p')
  {
  }

  lemma {:induction false} CommittedMore(o: Settings, w: World, w': World)
    requires CommittedSafe(o, w) && DiskRows(w.disk) <= DiskRows(w'.disk)
    requires w'.committed == w.committed
      && forall n {:trigger w'.log[n]} :: 0 <= n < w.committed && n < |w'.log| ==> n < |w.log| && w'.log[n] == w.log[n]
    ensures CommittedSafe(o, w')
  {
    forall n, i | 0 <= n < w'.committed && n < |w'.log| && 0 <= i
      ensures Held(o, DiskRows(w'.disk), w'.log[n], i)
    {
      var rec := w'.log[n];
      HeldMore(o, DiskRows(w.disk), DiskRows(w'.disk), rec, i);
    }
  }

  lemma {:induction false} RowSetConcat(a: seq<Row>, b: seq<Row>)
    ensures RowSet(a + b) == RowSet(a) + RowSet(b)
  {
    forall r | r in RowSet(a) + RowSet(b)
      ensures r in RowSet(a + b)
    {
      if r in RowSet(a) {
        var i :| 0 <= i < |a| && a[i] == r;
        assert (a + b)[i] == r;
      } else {
        var i :| 0 <= i < |b| && b[i] == r;
        assert (a + b)[|a| + i] == r;
      }
    }
  }

  lemma {:induction false} RowSetOne(row: Row)
    ensures RowSet([row]) == {row}
  {
    assert [row][0] == row;
  }

  /** Surroundings: submits, acknowledgements and retention do not touch the consumer. */
  lemma {:induction false} OutsideKeepsGood(o: Settings, w: World, a: Action)
    requires Good(o, w) && Enabled(o, w, a) && (a.Submit? || a.Ack? || a.Retain?)
    ensures Good(o, Step(o, w, a))
  {
  }

  lemma {:induction false} LoseKeepsGood(o: Settings, w: World, n: nat)
    requires Good(o, w) && Enabled(o, w, Lose(n)) && Spared(o, w, Lose(n))
    ensures Good(o, Step(o, w, Lose(n)))
  {
  }

  /** A new lifetime starts at the committed offset with nothing in memory. */
  lemma {:induction false} StartKeepsGood(o: Settings, w: World)
    requires Good(o, w) && Enabled(o, w, Start)
    ensures Good(o, Step(o, w, Start)) && Step(o, w, Start).proc.value.pos == w.committed
  {
  }

  lemma {:induction false} ReadKeepsGood(o: Settings, w: World)
    requires Good(o, w) && Enabled(o, w, Read)
    ensures Good(o, Step(o, w, Read))
  {
  }

  /** A known key means a safe row with the event's project and id. */
  lemma {:induction false} KnownIsHeld(o: Settings, w: World, p: Proc, rec: Rec, at: nat)
    requires SeenSafe(w, p) && AllGenuine(o, w.nextId, Live(w, p)) && p.pc.Working? && at < |Events(o, rec)|
    requires var id := Events(o, rec)[at].ex.id; |id| > 0 && Known(p.seen, ProjectKey(ProjectIn(rec.bytes), id))
    ensures Held(o, Live(w, p), rec, at)
  {
    var id := Events(o, rec)[at].ex.id;
    var key := ProjectKey(ProjectIn(rec.bytes), id);
    assert KeyHeld(Live(w, p) + TakenSet(p.pc), key);
    var r :| r in Live(w, p) + TakenSet(p.pc) && RowKey(r) == key;
    ProjectKeyInjective(ProjectIn(r.rec.bytes), r.event.eventId, ProjectIn(rec.bytes), id);
    assert Genuine(o, r);
    assert Covers(o, r, rec, at);
  }

  lemma {:induction false} AcceptKnows(cap: nat, d: Window, key: string, k: string)
    requires Known(Accept(cap, d, key), k)
    ensures Known(d, k) || k == key
  {
  }

  lemma {:induction false} HandleKeepsSeen(o: Settings, w: World, p: Proc, w': World, p': Proc, row: Row, key: string)
    requires SeenSafe(w, p) && Live(w', p') == Live(w, p) && TakenSet(p.pc) == {} && TakenSet(p'.pc) == {row}
      && RowKey(row) == key
    requires p'.seen == Accept(o.cap, p.seen, key)
    ensures SeenSafe(w', p')
  {
    forall k | Known(p'.seen, k)
      ensures KeyHeld(Live(w', p') + TakenSet(p'.pc), k)
    {
      AcceptKnows(o.cap, p.seen, key, k);
      if k == key {
        assert row in Live(w', p') + TakenSet(p'.pc);
      } else {
        assert KeyHeld(Live(w, p) + TakenSet(p.pc), k);
        var r :| r in Live(w, p) + TakenSet(p.pc) && RowKey(r) == k;
        assert r in Live(w', p') + TakenSet(p'.pc);
      }
    }
  }

  /** Past the last event, or a duplicate. */
  lemma {:induction false} SkipKeepsGood(o: Settings, w: World, p: Proc, pc: Pc, w': World)
    requires Good(o, w) && w.proc == Some(p) && p.pc.Working? && 0 < p.pos && w' == w.(proc := Some(p.(pc := pc)))
    requires (pc == Idle && p.pc.at >= |Events(o, w.log[p.pos - 1])|)
      || (pc == Working(p.pc.at + 1) && Held(o, Live(w, p), w.log[p.pos - 1], p.pc.at))
    ensures Good(o, w')
  {
    var p' := w'.proc.value;
    CommittedMore(o, w, w');
    assert Live(w', p') == Live(w, p);
    PastMore(o, w, p, w', p');
    SeenMore(w, p, w', p');
  }

  /** A new event is marked as seen and taken. */
  lemma {:induction false} TakeKeepsGood(o: Settings, w: World, p: Proc, row: Row, seen: Window, w': World)
    requires Good(o, w) && w.proc == Some(p) && p.pc.Working? && 0 < p.pos
    requires w' == w.(proc := Some(p.(pc := Appending(row, false), seen := seen)))
    requires Genuine(o, row) && row.rec == w.log[p.pos - 1] && row.index == p.pc.at
    requires seen == p.seen || seen == Accept(o.cap, p.seen, RowKey(row))
    ensures Good(o, w')
  {
    var p' := w'.proc.value;
    CommittedMore(o, w, w');
    assert Live(w', p') == Live(w, p);
    PastMore(o, w, p, w', p');
    if seen == p.seen {
      SeenMore(w, p, w', p');
    } else {
      HandleKeepsSeen(o, w, p, w', p', row, RowKey(row));
    }
  }

  lemma {:induction false} HandleProc(o: Settings, w: World, p: Proc, now: int, rec: Rec, w': World)
    requires Good(o, w) && w.proc == Some(p) && p.pc.Working? && 0 < p.pos && rec == w.log[p.pos - 1]
    requires w' == w.(proc := Some(HandleEvent(o, rec, p, p.pc.at, now)))
    ensures Good(o, w')
  {
    var at := p.pc.at;
    if at >= |Events(o, rec)| {
      SkipKeepsGood(o, w, p, Idle, w');
    } else {
      var id := Events(o, rec)[at].ex.id;
      if |id| > 0 && Known(p.seen, ProjectKey(ProjectIn(rec.bytes), id)) {
        KnownIsHeld(o, w, p, rec, at);
        SkipKeepsGood(o, w, p, Working(at + 1), w');
      } else {
        TakeKeepsGood(o, w, p, w'.proc.value.pc.row, w'.proc.value.seen, w');
      }
    }
  }

  lemma {:induction false} HandleKeepsGood(o: Settings, w: World, now: int)
    requires Good(o, w) && Enabled(o, w, Handle(now))
    ensures Good(o, Step(o, w, Handle(now)))
  {
    var p := w.proc.value;
    HandleProc(o, w, p, now, w.log[p.pos - 1], Step(o, w, Handle(now)));
  }

  /** Starting a flush moves the buffer into it. */
  lemma {:induction false} BeginKeepsGood(o: Settings, w: World, p: Proc, next: Then, w': World)
    requires Good(o, w) && w.proc == Some(p) && w' == w.(proc := Some(BeginFlush(p, next)))
    requires p.pc == (match next case ToCommit => Idle case ToAppend(row) => Appending(row, p.pc.Appending?
      && p.pc.retried))
    ensures Good(o, w')
  {
    var p' := w'.proc.value;
    CommittedMore(o, w, w');
    assert Live(w', p') == Live(w, p);
    PastMore(o, w, p, w', p');
    SeenMore(w, p, w', p');
  }

  lemma {:induction false} StoreKeepsGood(o: Settings, w: World)
    requires Good(o, w) && Enabled(o, w, Store)
    ensures Good(o, Step(o, w, Store))
  {
    var p, w' := w.proc.value, Step(o, w, Store);
    var p', row := w'.proc.value, p.pc.row;
    if |p.buf| + 1 > o.maxBufferRows {
      BeginKeepsGood(o, w, p, ToAppend(row), w');
    } else {
      CommittedMore(o, w, w');
      RowSetConcat(p.buf, [row]);
      RowSetOne(row);
      assert Live(w', p') == Live(w, p) + {row};
      assert Covers(o, row, w.log[p.pos - 1], row.index);
      PastMore(o, w, p, w', p');
      SeenMore(w, p, w', p');
    }
  }

  /** Giving up a flush puts its rows back. */
  lemma {:induction false} PutBack(o: Settings, w: World, p: Proc, w': World, p': Proc)
    requires Good(o, w) && w.proc == Some(p) && p.pc.Flushing? && w' == w.(proc := Some(p'))
    requires p'.pc == AfterFlush(p.pc.then_, false) && p'.buf == p.pc.rows && p'.pos == p.pos && p'.seen == p.seen
      && p'.flushCount >= p.flushCount
    ensures Good(o, w')
  {
    CommittedMore(o, w, w');
    assert Live(w', p') == Live(w, p);
    PastMore(o, w, p, w', p');
    SeenMore(w, p, w', p');
  }

  lemma {:induction false} FailKeepsGood(o: Settings, w: World, counted: bool)
    requires Good(o, w) && Enabled(o, w, FailFlush(counted))
    ensures Good(o, Step(o, w, FailFlush(counted)))
  {
    var p, w' := w.proc.value, Step(o, w, FailFlush(counted));
    assert p.pc.rows + p.buf == p.pc.rows;
    PutBack(o, w, p, w', w'.proc.value);
  }

  /** When every partition is written the rows are on disk. */
  lemma {:induction false} EndKeepsGood(o: Settings, w: World)
    requires Good(o, w) && Enabled(o, w, EndFlush)
    ensures Good(o, Step(o, w, EndFlush))
  {
    var p, w' := w.proc.value, Step(o, w, EndFlush);
    var p' := w'.proc.value;
    CommittedMore(o, w, w');
    assert RowSet(p.pc.rows) <= DiskRows(w.disk);
    assert Live(w', p') == Live(w, p);
    PastMore(o, w, p, w', p');
    SeenMore(w, p, w', p');
  }

  /** A file takes the place of what its path held. */
  lemma {:induction false} DiskAfterWrite(disk: map<Path, File>, x: Path, f: File)
    ensures DiskRows(disk[x := f]) == Others(disk, x) + f.rows
    ensures DiskRows(disk) == Others(disk, x) + Replaced(disk, x)
  {
    var disk' := disk[x := f];
    forall r | r in Others(disk, x) + f.rows
      ensures r in DiskRows(disk')
    {
      if r in f.rows {
        assert r in disk'[x].rows;
      } else {
        var y :| y in disk - {x} && r in (disk - {x})[y].rows;
        assert r in disk'[y].rows;
      }
    }
    forall r | r in DiskRows(disk')
      ensures r in Others(disk, x) + f.rows
    {
      var y :| y in disk' && r in disk'[y].rows;
      if y != x {
        assert r in (disk - {x})[y].rows;
      }
    }
    forall r | r in DiskRows(disk)
      ensures r in Others(disk, x) + Replaced(disk, x)
    {
      var y :| y in disk && r in disk[y].rows;
      if y != x {
        assert r in (disk - {x})[y].rows;
      }
    }
  }

  /** The files of the present lifetime are among the others: the next number is new to it. */
  lemma {:induction false} OwnIsOther(w: World, p: Proc, x: Path)
    requires NumbersOk(w, p) && x.number == p.flushCount + 1
    ensures OwnDisk(w) <= Others(w.disk, x)
  {
    forall r | r in OwnDisk(w)
      ensures r in Others(w.disk, x)
    {
      var y :| y in w.disk && w.disk[y].life == w.life && r in w.disk[y].rows;
      assert y != x;
      assert r in (w.disk - {x})[y].rows;
    }
  }

  /** Within a lifetime a path is free, so writing only adds to what it wrote. */
  lemma {:induction false} WriteAdds(w: World, p: Proc, x: Path, rows: set<Row>, w': World)
    requires NumbersOk(w, p) && x.number == p.flushCount + 1
    requires w'.disk == w.disk[x := File(rows, w.life)] && w'.life == w.life
    ensures OwnDisk(w') == OwnDisk(w) + rows
  {
    forall r | r in OwnDisk(w) + rows
      ensures r in OwnDisk(w')
    {
      if r in rows {
        assert r in w'.disk[x].rows;
      } else {
        var y :| y in w.disk && w.disk[y].life == w.life && r in w.disk[y].rows;
        assert y != x && r in w'.disk[y].rows;
      }
    }
  }

  lemma {:induction false} WriteKeepsNumbers(w: World, p: Proc, x: Path, f: File, w': World, p': Proc)
    requires NumbersOk(w, p) && x.number == p.flushCount + 1 && p'.flushCount == p.flushCount + 1
    requires w'.disk == w.disk[x := f] && w'.life == w.life
    ensures NumbersOk(w', p')
  {
  }

  /** The step, taken apart: what the disk and the consumer are after partition k is written to x. */
  ghost predicate Writes(w: World, p: Proc, x: Path, k: Key, w': World, p': Proc) {
    && p.pc.Flushing? && x.number == p.flushCount + 1
    && p' == p.(pc := p.pc.(todo := p.pc.todo - {k}), flushCount := p.flushCount + 1)
    && w' == w.(disk := w.disk[x := File(PartIn(p.pc.rows, k), w.life)], proc := Some(p'))
  }

  lemma {:induction false} WrittenPlace(w: World, p: Proc, x: Path, k: Key, w': World, p': Proc)
    requires FlushOk(w, p) && NumbersOk(w, p) && Writes(w, p, x, k, w', p')
    ensures FlushOk(w', p') && NumbersOk(w', p')
    ensures DiskRows(w.disk) == Others(w.disk, x) + Replaced(w.disk, x)
    ensures DiskRows(w'.disk) == Others(w.disk, x) + PartIn(p.pc.rows, k)
    ensures Live(w', p') == DiskRows(w'.disk) + RowSet(Flight(p.pc)) && Live(w', p') <= Live(w, p)
  {
    WriteAdds(w, p, x, PartIn(p.pc.rows, k), w');
    WriteKeepsNumbers(w, p, x, File(PartIn(p.pc.rows, k), w.life), w', p');
    DiskAfterWrite(w.disk, x, File(PartIn(p.pc.rows, k), w.life));
  }

  /** Events that were accounted for still are, when the rows replaced are dispensable. */
  lemma {:induction false} StillHeld(o: Settings, before: set<Row>, others: set<Row>, after: set<Row>, rec: Rec, i: nat)
    requires Held(o, before, rec, i) && others <= after
    requires forall r :: r in before && r !in others && Accounts(o, r, rec, i) ==> Held(o, after, rec, i)
    ensures Held(o, after, rec, i)
  {
    if i < |Events(o, rec)| {
      var r :| r in before && Covers(o, r, rec, i);
      assert Accounts(o, r, rec, i);
    }
  }

  lemma {:induction false} WriteKeepsCommitted(o: Settings, w: World, p: Proc, x: Path, k: Key, w': World, p': Proc)
    requires CommittedSafe(o, w) && FlushOk(w, p) && NumbersOk(w, p) && Writes(w, p, x, k, w', p')
    requires forall r :: r in Replaced(w.disk, x) ==> Dispensable(o, w, p, r, DiskRows(w'.disk))
    ensures CommittedSafe(o, w')
  {
    WrittenPlace(w, p, x, k, w', p');
    forall n, i | 0 <= n < w'.committed && n < |w'.log| && 0 <= i
      ensures Held(o, DiskRows(w'.disk), w'.log[n], i)
    {
      assert Held(o, DiskRows(w.disk), w.log[n], i);
      StillHeld(o, DiskRows(w.disk), Others(w.disk, x), DiskRows(w'.disk), w.log[n], i);
    }
  }

  lemma {:induction false} WriteKeepsPast(o: Settings, w: World, p: Proc, x: Path, k: Key, w': World, p': Proc)
    requires PastSafe(o, w, p) && FlushOk(w, p) && NumbersOk(w, p) && Writes(w, p, x, k, w', p')
    requires forall r :: r in Replaced(w.disk, x) ==> Dispensable(o, w, p, r, DiskRows(w'.disk))
    ensures PastSafe(o, w', p')
  {
    WrittenPlace(w, p, x, k, w', p');
    forall n, i | 0 <= n < |w'.log| && 0 <= i && Past(p', n, i)
      ensures Held(o, Live(w', p'), w'.log[n], i)
    {
      assert Past(p, n, i) && Held(o, Live(w, p), w.log[n], i);
      StillHeld(o, Live(w, p), Others(w.disk, x) + RowSet(Flight(p.pc)), Live(w', p'), w.log[n], i);
    }
  }

  lemma {:induction false} KeyStays(before: set<Row>, after: set<Row>, replaced: set<Row>, key: string)
    requires KeyHeld(before, key) && before <= after + replaced
    requires forall r :: r in replaced && RowKey(r) == key ==> KeyHeld(after, key)
    ensures KeyHeld(after, key)
  {
    var r :| r in before && RowKey(r) == key;
    assert r in after || r in replaced;
  }

  /** A known key keeps a row when the rows replaced are dispensable. */
  lemma {:induction false} KeyAfterWrite(o: Settings, w: World, p: Proc, disk: set<Row>, replaced: set<Row>,
                                         key: string)
    requires SeenSafe(w, p) && Known(p.seen, key) && Live(w, p) <= disk + RowSet(Flight(p.pc)) + replaced
    requires forall r :: r in replaced ==> Dispensable(o, w, p, r, disk)
    ensures KeyHeld(disk + RowSet(Flight(p.pc)) + TakenSet(p.pc), key)
  {
    var after := disk + RowSet(Flight(p.pc)) + TakenSet(p.pc);
    assert Live(w, p) + TakenSet(p.pc) <= after + replaced;
    KeyStays(Live(w, p) + TakenSet(p.pc), after, replaced, key);
  }

  /** The rows the consumer relies on, before and after. */
  lemma {:induction false} WrittenLive(w: World, p: Proc, x: Path, k: Key, w': World, p': Proc)
    requires FlushOk(w, p) && NumbersOk(w, p) && Writes(w, p, x, k, w', p')
    ensures Live(w', p') + TakenSet(p'.pc) == DiskRows(w'.disk) + RowSet(Flight(p.pc)) + TakenSet(p.pc)
    ensures Live(w, p) <= DiskRows(w'.disk) + RowSet(Flight(p.pc)) + Replaced(w.disk, x)
  {
    WrittenPlace(w, p, x, k, w', p');
  }

  lemma {:induction false} WriteKeepsSeen(o: Settings, w: World, p: Proc, x: Path, k: Key, w': World, p': Proc)
    requires SeenSafe(w, p) && FlushOk(w, p) && NumbersOk(w, p) && Writes(w, p, x, k, w', p')
    requires forall r :: r in Replaced(w.disk, x) ==> Dispensable(o, w, p, r, DiskRows(w'.disk))
    ensures SeenSafe(w', p')
  {
    WrittenLive(w, p, x, k, w', p');
    var disk, replaced := DiskRows(w'.disk), Replaced(w.disk, x);
    forall key | Known(p'.seen, key)
      ensures KeyHeld(disk + RowSet(Flight(p.pc)) + TakenSet(p.pc), key)
    {
      KeyAfterWrite(o, w, p, disk, replaced, key);
    }
  }

  lemma {:induction false} WrittenGenuine(o: Settings, w: World, p: Proc, x: Path, k: Key, w': World, p': Proc)
    requires AllGenuine(o, w.nextId, Live(w, p)) && FlushOk(w, p) && NumbersOk(w, p) && Writes(w, p, x, k, w', p')
    ensures AllGenuine(o, w'.nextId, Live(w', p')) && FlushOk(w', p') && NumbersOk(w', p')
      && DiskRows(w'.disk) <= Live(w, p)
  {
    WrittenPlace(w, p, x, k, w', p');
  }

  lemma {:induction false} WrittenProcOk(o: Settings, w: World, p: Proc, x: Path, k: Key, w': World, p': Proc)
    requires ProcOk(o, w, p) && Writes(w, p, x, k, w', p')
    requires forall r :: r in Replaced(w.disk, x) ==> Dispensable(o, w, p, r, DiskRows(w'.disk))
    ensures ProcOk(o, w', p') && DiskRows(w'.disk) <= Live(w, p)
  {
    WrittenGenuine(o, w, p, x, k, w', p');
    WriteKeepsPast(o, w, p, x, k, w', p');
    WriteKeepsSeen(o, w, p, x, k, w', p');
  }

  lemma {:induction false} WriteKeepsGood(o: Settings, w: World, k: Key, minTs: int)
    requires Good(o, w) && Enabled(o, w, WritePart(k, minTs)) && Spared(o, w, WritePart(k, minTs))
    ensures Good(o, Step(o, w, WritePart(k, minTs)))
  {
    var p, w' := w.proc.value, Step(o, w, WritePart(k, minTs));
    var x, p' := PathFor(p, k, minTs), w'.proc.value;
    WrittenPlace(w, p, x, k, w', p');
    WrittenProcOk(o, w, p, x, k, w', p');
    WriteKeepsCommitted(o, w, p, x, k, w', p');
  }

  lemma {:induction false} WriteWasSpared(o: Settings, w: World, k: Key, minTs: int)
    requires Good(o, w) && Enabled(o, w, WritePart(k, minTs)) && Good(o, Step(o, w, WritePart(k, minTs)))
    ensures Spared(o, w, WritePart(k, minTs))
  {
    var p, w' := w.proc.value, Step(o, w, WritePart(k, minTs));
    GoodWasSpared(o, w, p, PathFor(p, k, minTs), k, w', w'.proc.value);
  }

  /** Writing a partition is safe exactly when the rows it replaces are dispensable. */
  lemma {:induction false} WriteGoodIff(o: Settings, w: World, k: Key, minTs: int)
    requires Good(o, w) && Enabled(o, w, WritePart(k, minTs))
    ensures Good(o, Step(o, w, WritePart(k, minTs))) <==> Spared(o, w, WritePart(k, minTs))
  {
    if Spared(o, w, WritePart(k, minTs)) {
      WriteKeepsGood(o, w, k, minTs);
    }
    if Good(o, Step(o, w, WritePart(k, minTs))) {
      WriteWasSpared(o, w, k, minTs);
    }
  }

  lemma {:induction false} GoodWasSpared(o: Settings, w: World, p: Proc, x: Path, k: Key, w': World, p': Proc)
    requires FlushOk(w, p) && NumbersOk(w, p) && Writes(w, p, x, k, w', p')
    requires CommittedSafe(o, w') && PastSafe(o, w', p') && SeenSafe(w', p')
    ensures forall r :: r in Replaced(w.disk, x) ==> Dispensable(o, w, p, r, Others(w.disk, x) + PartIn(p.pc.rows, k))
  {
    WrittenPlace(w, p, x, k, w', p');
    forall r | r in Replaced(w.disk, x)
      ensures Dispensable(o, w, p, r, DiskRows(w'.disk))
    {
      GoodIsDispensable(o, w, p, w', p', r);
    }
  }

  lemma {:induction false} GoodIsDispensable(o: Settings, w: World, p: Proc, w': World, p': Proc, r: Row)
    requires CommittedSafe(o, w') && PastSafe(o, w', p') && SeenSafe(w', p')
    requires w'.log == w.log && w'.committed == w.committed && p'.pos == p.pos && p'.seen == p.seen
    requires Progress(p'.pc) == Progress(p.pc) && TakenSet(p'.pc) == TakenSet(p.pc)
    requires Live(w', p') == DiskRows(w'.disk) + RowSet(Flight(p.pc))
    ensures Dispensable(o, w, p, r, DiskRows(w'.disk))
  {
    forall n, i | 0 <= n < |w.log| && 0 <= i && Accounts(o, r, w.log[n], i)
      ensures n < w.committed ==> Held(o, DiskRows(w'.disk), w.log[n], i)
      ensures Past(p, n, i) ==> Held(o, DiskRows(w'.disk) + RowSet(Flight(p.pc)), w.log[n], i)
    {
      assert Past(p', n, i) == Past(p, n, i);
      assert n < w.committed ==> Held(o, DiskRows(w'.disk), w'.log[n], i);
    }
  }

  /** A row stands in for another if it accounts for the same events and has the same key. */
  ghost predicate StandsIn(r: Row, s: Row) {
    && r.event.project == s.event.project && r.event.eventId == s.event.eventId
    && (|s.event.eventId| == 0 ==> r.rec == s.rec && r.index == s.index)
  }

  lemma {:induction false} StandInAccounts(o: Settings, r: Row, s: Row)
    requires StandsIn(r, s) && Genuine(o, r) && Genuine(o, s)
    ensures RowKey(r) == RowKey(s) && forall rec, i :: Accounts(o, s, rec, i) ==> Accounts(o, r, rec, i)
  {
  }

  /** It is enough that each row replaced has a stand-in among the rows written or in another file. */
  lemma {:induction false} StoodInIsSpared(o: Settings, w: World, k: Key, minTs: int)
    requires Good(o, w) && Enabled(o, w, WritePart(k, minTs))
    requires var p, x := w.proc.value, PathFor(w.proc.value, k, minTs);
      forall r :: r in Replaced(w.disk, x) ==>
        exists s :: s in Others(w.disk, x) + PartIn(p.pc.rows, k) && StandsIn(s, r)
    ensures Spared(o, w, WritePart(k, minTs))
  {
    var p, x := w.proc.value, PathFor(w.proc.value, k, minTs);
    var disk := Others(w.disk, x) + PartIn(p.pc.rows, k);
    DiskAfterWrite(w.disk, x, File(PartIn(p.pc.rows, k), w.life));
    forall r | r in Replaced(w.disk, x)
      ensures Dispensable(o, w, p, r, disk)
    {
      var s :| s in disk && StandsIn(s, r);
      assert s in Live(w, p) && r in Live(w, p);
      StandInAccounts(o, s, r);
      StandInSuffices(o, w, p, r, s, disk);
    }
  }

  lemma {:induction false} StandInSuffices(o: Settings, w: World, p: Proc, r: Row, s: Row, disk: set<Row>)
    requires s in disk && RowKey(s) == RowKey(r) && forall rec, i :: Accounts(o, r, rec, i) ==> Accounts(o, s, rec, i)
    ensures Dispensable(o, w, p, r, disk)
  {
    assert s in disk + RowSet(Flight(p.pc)) + TakenSet(p.pc);
    forall rec, i | Accounts(o, r, rec, i)
      ensures Held(o, disk, rec, i) && Held(o, disk + RowSet(Flight(p.pc)), rec, i)
    {
      assert Accounts(o, s, rec, i) && Covers(o, s, rec, i);
      assert s in disk + RowSet(Flight(p.pc));
    }
  }

  // ---- Cancellation ----

  lemma {:induction false} AbandonKeepsGood(o: Settings, w: World)
    requires Good(o, w) && Enabled(o, w, Abandon) && Spared(o, w, Abandon)
    ensures Good(o, Step(o, w, Abandon))
  {
    var p, w' := w.proc.value, Step(o, w, Abandon);
    var p' := w'.proc.value;
    assert Live(w', p') == Live(w, p);
    CommittedMore(o, w, w');
    PastMore(o, w, p, w', p');
    assert Held(o, Live(w, p), w.log[p.pos - 1], p.pc.row.index);
    forall key | Known(p'.seen, key)
      ensures KeyHeld(Live(w', p') + TakenSet(p'.pc), key)
    {
      AbandonKeepsKey(o, w, p, key);
    }
  }

  /** Giving up the append loop is safe exactly when every event it leaves out is accounted for. */
  lemma {:induction false} AbandonGoodIff(o: Settings, w: World)
    requires Good(o, w) && Enabled(o, w, Abandon)
    ensures Good(o, Step(o, w, Abandon)) <==> Spared(o, w, Abandon)
  {
    var p, w' := w.proc.value, Step(o, w, Abandon);
    if Spared(o, w, Abandon) {
      AbandonKeepsGood(o, w);
    }
    if Good(o, w') {
      AllPast(o, w, p, w', w'.proc.value);
    }
  }

  lemma {:induction false} AllPast(o: Settings, w: World, p: Proc, w': World, p': Proc)
    requires PastSafe(o, w', p') && p.pc.Appending? && p' == p.(pc := Idle) && w' == w.(proc := Some(p'))
    ensures RestHeld(o, w, p)
  {
    assert Live(w', p') == Live(w, p);
    forall n, i | 0 <= n < |w.log| && n + 1 == p.pos && p.pc.row.index <= i
      ensures Held(o, Live(w, p), w.log[n], i)
    {
      assert Past(p', n, i);
      assert Held(o, Live(w', p'), w'.log[n], i);
    }
  }

  lemma {:induction false} AbandonKeepsKey(o: Settings, w: World, p: Proc, key: string)
    requires ProcOk(o, w, p) && p.pc.Appending? && Known(p.seen, key)
      && Held(o, Live(w, p), w.log[p.pos - 1], p.pc.row.index)
    ensures KeyHeld(Live(w, p), key)
  {
    var row := p.pc.row;
    assert KeyHeld(Live(w, p) + TakenSet(p.pc), key);
    if RowKey(row) == key {
      var r :| r in Live(w, p) && Covers(o, r, row.rec, row.index);
      assert Genuine(o, r) && Genuine(o, row);
      assert RowKey(r) == key;
    } else {
      var r :| r in Live(w, p) + TakenSet(p.pc) && RowKey(r) == key;
      assert r in Live(w, p);
    }
  }

  /** The offset is committed when everything before it is on disk. */
  lemma {:induction false} CommitKeepsGood(o: Settings, w: World)
    requires Good(o, w) && Enabled(o, w, Commit)
    ensures Good(o, Step(o, w, Commit))
  {
  }

  lemma {:induction false} FailCommitKeepsGood(o: Settings, w: World)
    requires Good(o, w) && Enabled(o, w, FailCommit)
    ensures Good(o, Step(o, w, FailCommit))
  {
    var p, w' := w.proc.value, Step(o, w, FailCommit);
    CommittedMore(o, w, w');
    assert Live(w', w'.proc.value) == Live(w, p);
    PastMore(o, w, p, w', w'.proc.value);
    SeenMore(w, p, w', w'.proc.value);
  }

  lemma {:induction false} StepKeepsGood(o: Settings, w: World, a: Action)
    requires Good(o, w) && Enabled(o, w, a) && Spared(o, w, a)
    ensures Good(o, Step(o, w, a))
  {
    match a
    case Submit(_) => OutsideKeepsGood(o, w, a);
    case Ack(_) => OutsideKeepsGood(o, w, a);
    case Retain(_) => OutsideKeepsGood(o, w, a);
    case Lose(n) => LoseKeepsGood(o, w, n);
    case Start => StartKeepsGood(o, w);
    case Read => ReadKeepsGood(o, w);
    case Handle(now) => HandleKeepsGood(o, w, now);
    case Store => StoreKeepsGood(o, w);
    case Abandon => AbandonKeepsGood(o, w);
    case _ => FlushKeepsGood(o, w, a);
  }

  lemma {:induction false} FlushKeepsGood(o: Settings, w: World, a: Action)
    requires Good(o, w) && Enabled(o, w, a) && Spared(o, w, a)
    requires a.BeginCommit? || a.WritePart? || a.FailFlush? || a.EndFlush? || a.Commit? || a.FailCommit?
    ensures Good(o, Step(o, w, a))
  {
    match a
    case BeginCommit => BeginKeepsGood(o, w, w.proc.value, ToCommit, Step(o, w, a));
    case WritePart(k, minTs) => WriteKeepsGood(o, w, k, minTs);
    case FailFlush(counted) => FailKeepsGood(o, w, counted);
    case EndFlush => EndKeepsGood(o, w);
    case Commit => CommitKeepsGood(o, w);
    case FailCommit => FailCommitKeepsGood(o, w);
  }

  // ---- Whole runs ----

  ghost function Machine(o: Settings): (World, Action, World) -> bool {
    (w, a, w') => Enabled(o, w, a) && w' == Step(o, w, a)
  }

  /** Nothing acknowledged in w is gone from, or has moved in, the log of w'. */
  ghost predicate Keeps(w: World, w': World) {
    w.acked <= |w.log| && w.acked <= w'.acked <= |w'.log| && w.log[..w.acked] <= w'.log && w.committed <= w'.committed
  }

  lemma {:induction false} StepKeepsAcked(o: Settings, w: World, a: Action)
    requires Good(o, w) && Enabled(o, w, a)
    ensures Keeps(w, Step(o, w, a))
  {
  }

  lemma {:induction false} KeepsTransitive(a: World, b: World, c: World)
    requires Keeps(a, b) && Keeps(b, c)
    ensures Keeps(a, c)
  {
  }

  /** Runs that are spared the three. */
  ghost function Careful(o: Settings): (World, Action, World) -> bool {
    (w, a, w') => Enabled(o, w, a) && Spared(o, w, a) && w' == Step(o, w, a)
  }

  /** No acknowledged event is lost. After every such run: each event of each record below the committed offset has its
      row on disk, and every row on disk is what extraction made of its event; every record acknowledged at any time is
      still in the log at its offset, and retention has not passed the committed offset, where the next lifetime
      starts. */
  lemma {:induction false} NoEventLost(o: Settings, w: World, acts: seq<Action>, w': World)
    requires Good(o, w) && Run(Careful(o), w, acts, w')
    ensures Good(o, w') && Keeps(w, w')
    ensures forall n, i :: 0 <= n < w'.committed && 0 <= i < |Events(o, w'.log[n])| ==>
      Held(o, DiskRows(w'.disk), w'.log[n], i)
    ensures forall r :: r in DiskRows(w'.disk) ==>
      r.index < |Events(o, r.rec)| && Carries(r.event, ProjectIn(r.rec.bytes), Events(o, r.rec)[r.index], r.now)
    ensures w'.oldest <= w'.committed && w'.acked <= |w'.log|
    decreases |acts|
  {
    if acts != [] {
      var m :| Careful(o)(w, acts[0], m) && Run(Careful(o), m, acts[1..], w');
      StepKeepsGood(o, w, acts[0]);
      StepKeepsAcked(o, w, acts[0]);
      NoEventLost(o, m, acts[1..], w');
      KeepsTransitive(w, m, w');
    }
  }

  /** The first start: an empty log and an empty disk. */
  function Empty(): World {
    World([], 0, 0, 0, 0, map[], 0, None)
  }

  lemma {:induction false} EmptyIsGood(o: Settings)
    ensures Good(o, Empty())
  {
  }
}
