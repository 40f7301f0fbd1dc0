/** The pieces together: the pipeline's flush steps are the event store's writes, and its records hold envelopes as the
    parser reads them. */
module EndToEnd {
  import opened Base
  import opened Bytes
  import opened Rows
  import opened Sorting
  import opened Store
  import opened Compaction
  import opened Runs
  import opened Pipeline
  import opened PipelineLosses
  import Envelope

  // ---- The flush ----

  function EventsOf(rows: seq<Row>): (r: seq<Event>)
    ensures |r| == |rows| && forall i :: 0 <= i < |rows| ==> r[i] == rows[i].event
  {
    seq(|rows|, i requires 0 <= i < |rows| => rows[i].event)
  }

  lemma {:induction false} SameKeys(rows: seq<Row>)
    ensures KeysOf(EventsOf(rows)) == KeysIn(rows)
  {
    var es := EventsOf(rows);
    forall k | k in KeysIn(rows)
      ensures k in KeysOf(es)
    {
      var i :| 0 <= i < |rows| && KeyOf(rows[i].event) == k;
      assert KeyOf(es[i]) == k;
    }
    forall k | k in KeysOf(es)
      ensures k in KeysIn(rows)
    {
      var i :| 0 <= i < |es| && KeyOf(es[i]) == k;
      assert KeyOf(rows[i].event) == k;
    }
  }

  /** The timestamp in the event store's path is the least of the pipeline's part. */
  lemma {:induction false} LeastOfPart(rows: seq<Row>, k: Key)
    requires k in KeysIn(rows)
    ensures var least := FirstTs(SortedPart(EventsOf(rows), k));
      && (exists r :: r in PartIn(rows, k) && r.event.ts == least)
      && (forall r :: r in PartIn(rows, k) ==> least <= r.event.ts)
  {
    var es := EventsOf(rows);
    var least := FirstTs(SortedPart(es, k));
    forall r | r in PartIn(rows, k)
      ensures least <= r.event.ts
    {
      var i :| 0 <= i < |rows| && KeyOf(rows[i].event) == k && rows[i] == r;
      assert es[i] == r.event;
      PathHasLeastTs(es, k, es[i]);
    }
    var i :| 0 <= i < |rows| && KeyOf(rows[i].event) == k;
    PathHasLeastTs(es, k, es[i]);
    var y :| y in es && KeyOf(y) == k && y.ts == least;
    var j :| 0 <= j < |es| && es[j] == y;
    assert rows[j] in PartIn(rows, k);
  }

  /** The file the event store builds for a partition holds the events of exactly the rows the pipeline writes there. */
  lemma {:induction false} PartIsContent(rows: seq<Row>, k: Key, e: Event)
    ensures e in SortedPart(EventsOf(rows), k) <==> exists r :: r in PartIn(rows, k) && r.event == e
  {
    var es := EventsOf(rows);
    SortMembers(TimeOrder(), RowsIn(es, {k}, |es|), e);
    if e in RowsIn(es, {k}, |es|) {
      RowsInKeys(es, {k}, |es|);
      var j :| 0 <= j < |RowsIn(es, {k}, |es|)| && RowsIn(es, {k}, |es|)[j] == e;
      var i :| 0 <= i < |es| && es[i] == e;
      assert rows[i] in PartIn(rows, k);
    }
    if exists r :: r in PartIn(rows, k) && r.event == e {
      var r :| r in PartIn(rows, k) && r.event == e;
      var i :| 0 <= i < |rows| && KeyOf(rows[i].event) == k && rows[i] == r;
      assert es[i] == e && es[..|es|] == es;
      RowsInAllOf(es, k, |es|, e);
    }
  }

  /** The disk after the first n files of the plan. */
  function Written(disk: map<Path, File>, plan: Plan, rows: seq<Row>, order: seq<Key>, life: nat, n: nat)
    : map<Path, File>
    requires n <= |order| == |plan.paths|
  {
    if n == 0 then disk
    else Written(disk, plan, rows, order, life, n - 1)[plan.paths[n - 1] := File(PartIn(rows, order[n - 1]), life)]
  }

  ghost function AfterWrites(w: World, p: Proc, plan: Plan, order: seq<Key>, n: nat): World
    requires p.pc.Flushing? && n <= |order| == |plan.paths|
  {
    w.(disk := Written(w.disk, plan, p.pc.rows, order, w.life, n),
       proc := Some(p.(pc := p.pc.(todo := p.pc.todo - Keys(order, n)), flushCount := p.flushCount + n)))
  }

  /** The writes of a flush, in the event store's order and under its paths, are steps of the pipeline, whichever
      partition fails. */
  lemma {:induction false} WritesArePipelineSteps(o: Settings, w: World, p: Proc, order: seq<Key>, plan: Plan, n: nat)
    requires At(w, p) && p.pc.Flushing? && p.pc.todo == KeysIn(p.pc.rows) && n <= |order|
    requires IsOrder(order, EventsOf(p.pc.rows)) && plan == PlanOf(EventsOf(p.pc.rows), order, p.flushCount)
    ensures Reaches(o, w, AfterWrites(w, p, plan, order, n))
  {
    if n == 0 {
      assert p.pc.todo - {} == p.pc.todo;
      assert AfterWrites(w, p, plan, order, 0) == w;
      assert Run(Machine(o), w, [], w);
    } else {
      WritesArePipelineSteps(o, w, p, order, plan, n - 1);
      OneWrite(o, w, p, order, plan, n);
      AndThen(o, w, AfterWrites(w, p, plan, order, n - 1), AfterWrites(w, p, plan, order, n));
    }
  }

  lemma {:induction false} OneWrite(o: Settings, w: World, p: Proc, order: seq<Key>, plan: Plan, n: nat)
    requires p.pc.Flushing? && p.pc.todo == KeysIn(p.pc.rows) && 0 < n <= |order|
    requires IsOrder(order, EventsOf(p.pc.rows)) && plan == PlanOf(EventsOf(p.pc.rows), order, p.flushCount)
    ensures Reaches(o, AfterWrites(w, p, plan, order, n - 1), AfterWrites(w, p, plan, order, n))
  {
    var a, b, k := AfterWrites(w, p, plan, order, n - 1), AfterWrites(w, p, plan, order, n), order[n - 1];
    var q, least := a.proc.value, FirstTs(SortedPart(EventsOf(p.pc.rows), k));
    assert k in order;
    SameKeys(p.pc.rows);
    KeyIsNew(order, n - 1);
    LeastOfPart(p.pc.rows, k);
    assert PathFor(q, k, least) == plan.paths[n - 1];
    assert q.pc.todo - {k} == p.pc.todo - Keys(order, n);
    Step1(o, a, WritePart(k, least), b);
  }

  // ---- The envelope ----

  /** The pipeline's envelope decoder is the parser. */
  function ParserOf(c: Envelope.Codec, l: Envelope.Limits,
                    pulled: seq<Byte> -> Envelope.ReadAhead): seq<Byte> -> Option<Envelope.Parsed> {
    (bytes: seq<Byte>) =>
      match Envelope.ParseEnvelope(c, l, bytes, pulled(bytes))
      case Ok(env) => Some(env)
      case Malformed(_) => None
  }

  /** An envelope that can be sent: within the limits, of accepted types. */
  ghost predicate Sendable(c: Envelope.Codec, pr: Envelope.Printer, l: Envelope.Limits,
                           pulled: seq<Byte> -> Envelope.ReadAhead, env: Envelope.Parsed, last: bool) {
    && Envelope.Inverse(c, pr)
      && Envelope.Pulls(pulled(Envelope.Print(pr, env, last)), l, Envelope.Print(pr, env, last))
    && |Envelope.Print(pr, env, last)| <= Envelope.Defaults(l).maxEnvelopeBytes
      && |env.items| <= Envelope.Defaults(l).maxItems
    && forall i :: 0 <= i < |env.items| ==>
      Envelope.Sendable(Envelope.Defaults(l), env.items[i]) && Envelope.Accepted(env.items[i].header.kind)
  }

  /** The record that Submit makes of a printed envelope has that envelope's events. */
  lemma {:induction false} PrintedEvents(c: Envelope.Codec, pr: Envelope.Printer, l: Envelope.Limits,
                                         pulled: seq<Byte> -> Envelope.ReadAhead, env: Envelope.Parsed,
                                         last: bool, codec: Codec, project: Int64)
    requires Sendable(c, pr, l, pulled, env, last) && codec.envelope == ParserOf(c, l, pulled)
    ensures var bytes := Frame(REC_ENVELOPE, project, Envelope.Print(pr, env, last));
      EventsIn(codec, bytes) == ItemEvents(codec, env, |env.items|) && ProjectIn(bytes) == project
  {
    Envelope.RoundTripAccepted(c, pr, l, env, last, pulled(Envelope.Print(pr, env, last)));
    FrameRoundTrip(REC_ENVELOPE, project, Envelope.Print(pr, env, last));
  }

  /** End to end: after every spared run, each event with an id of each envelope submitted below the committed offset
      has a row with its project and id on disk. */
  lemma {:induction false} SentEventStored(c: Envelope.Codec, pr: Envelope.Printer, l: Envelope.Limits,
                                           pulled: seq<Byte> -> Envelope.ReadAhead, env: Envelope.Parsed,
                                           last: bool, o: Settings, project: Int64, w: World, acts: seq<Action>,
                                           w': World, n: nat, i: nat)
    requires Sendable(c, pr, l, pulled, env, last) && o.codec.envelope == ParserOf(c, l, pulled)
    requires Good(o, w) && Run(Careful(o), w, acts, w') && n < w'.committed && n < |w'.log|
    requires w'.log[n].bytes == Frame(REC_ENVELOPE, project, Envelope.Print(pr, env, last))
    requires i < |ItemEvents(o.codec, env, |env.items|)| && |ItemEvents(o.codec, env, |env.items|)[i].ex.id| > 0
    ensures var id := ItemEvents(o.codec, env, |env.items|)[i].ex.id;
      exists r :: r in DiskRows(w'.disk) && r.event.project == project && r.event.eventId == id
  {
    PrintedEvents(c, pr, l, pulled, env, last, o.codec, project);
    NoEventLost(o, w, acts, w');
    assert Held(o, DiskRows(w'.disk), w'.log[n], i);
    var r :| r in DiskRows(w'.disk) && Covers(o, r, w'.log[n], i);
    assert r.event.project == project;
  }
}
