/** One process with its write-ahead log and its pipeline (cmd/leser): the pipeline's log is the write-ahead log,
    through batches, rolls, retention, crashes and re-opens. A crash is safe for every event below the committed offset
    when it is a process kill, or when that offset is on stable storage. */
module Node {
  import opened Base
  import opened Bytes
  import opened Segment
  import opened Runs
  import Wal
  import W = WalRuns
  import Interval
  import P = Pipeline
  import Reader

  /** The write-ahead log and the pipeline. */
  datatype Node = Node(w: W.World, p: P.World)

  datatype Event =
    | Sync
    | Create
    | Write(e: Entry)
    | Ack
    | Retain                                    // the oldest segment, within the committed offset
    | Kill(inFlight: Option<Entry>, keep: nat)  // the process dies, perhaps while it writes
    | PowerLoss(out: Wal.Outcome)
    | Reopen
    | Consumer(a: P.Action)
    | StopConsumer

  // ---- Crashes ----

  function Issued(o: Options, s: Wal.LogState, inFlight: Option<Entry>): Wal.LogState
    requires Wal.Open(s)
  {
    if inFlight.Some? then Wal.WriteRecord(o, s, inFlight.value) else s
  }

  function Begun(log: seq<Entry>, inFlight: Option<Entry>): seq<Entry> {
    if inFlight.Some? then log + [inFlight.value] else log
  }

  /** A killed process leaves every completed write and any part of the one in flight, which may be a new segment's
      header. */
  ghost predicate Killable(o: Options, s: Wal.LogState, log: seq<Entry>, inFlight: Option<Entry>, keep: nat) {
    && Wal.Open(s) && (inFlight.Some? ==> Fits(o, inFlight.value) && |log| + 1 < TWO_64)
    && Wal.Last(s.dir).synced <= keep <= |Wal.Last(Issued(o, s, inFlight).dir).bytes|
    && (|Wal.Last(s.dir).bytes| <= keep || HeaderInFlight(s, inFlight))
  }

  ghost predicate HeaderInFlight(s: Wal.LogState, inFlight: Option<Entry>)
    requires Wal.Open(s)
  {
    inFlight.None? && Wal.Last(s.segs).records == 0 && (|s.segs| > 1 || s.segs[0].base == 0)
  }

  // ---- Steps ----

  /** What the consumer does by itself, and not to the log. */
  predicate Own(a: P.Action) {
    !a.Submit? && !a.Ack? && !a.Retain? && !a.Lose?
  }

  /** The system calls of the log, and what they are to the pipeline. */
  ghost predicate LogStep(wo: Options, n: Node, ev: Event, n': Node) {
    match ev
    case Sync => W.Next(wo, n.w, W.Sync, n'.w) && n'.p == n.p
    case Create => W.Next(wo, n.w, W.Create, n'.w) && n'.p == n.p
    case Write(e) =>
      && W.Next(wo, n.w, W.Write(e), n'.w)
      && n'.p == n.p.(log := n.p.log + [P.Rec(n.p.nextId, e.payload)], nextId := n.p.nextId + 1)
    case Ack => W.Next(wo, n.w, W.Ack, n'.w) && n'.p == n.p.(acked := n'.w.acked)
    case Retain =>
      && n.w.Up? && |n.w.st.segs| > 1 && n.w.st.segs[0].End() <= n.p.committed
      && W.Next(wo, n.w, W.Retain, n'.w) && n'.p == n.p.(oldest := n.w.st.segs[1].base)
    case _ => false
  }

  /** The end of the process, and its next start. */
  ghost predicate CrashStep(wo: Options, n: Node, ev: Event, n': Node) {
    match ev
    case Kill(e, keep) =>
      && n.w.Up? && Killable(wo, n.w.st, n.w.log, e, keep)
      && n'.w == Killed(wo, n.w, e, keep)
      && n'.p == (if e.Some?
        then n.p.(log := n.p.log + [P.Rec(n.p.nextId, e.value.payload)], nextId := n.p.nextId + 1, proc := None)
                  else n.p.(proc := None))
    case PowerLoss(out) =>
      && n.w.Up? && Wal.Open(n.w.st) && Wal.Last(n.w.st.segs).base <= |n.w.log|
      && n.p.committed <= Interval.OnDisk(n.w.st, n.w.log)
      && W.Next(wo, n.w, W.Fail(out), n'.w) && n'.p == n.p.(proc := None)
    case Reopen =>
      && W.Next(wo, n.w, W.Reopen, n'.w)
      && n'.w.Up? && |n'.w.log| <= |n.p.log| && n'.p == n.p.(log := n.p.log[..|n'.w.log|], proc := None)
    case _ => false
  }

  ghost function Killed(wo: Options, w: W.World, e: Option<Entry>, keep: nat): W.World
    requires w.Up? && Killable(wo, w.st, w.log, e, keep)
  {
    var s := Issued(wo, w.st, e);
    W.Down(Wal.Init(s.dir) + [Wal.SegFile(Wal.Last(s.dir).base, Wal.Last(s.dir).bytes[..keep], keep)], s.segs,
      Begun(w.log, e), w.acked)
  }

  ghost predicate Step(wo: Options, o: P.Settings, n: Node, ev: Event, n': Node) {
    match ev
    case Consumer(a) =>
      n.w.Up? && Own(a) && P.Enabled(o, n.p, a) && P.Spared(o, n.p, a) && n' == n.(p := P.Step(o, n.p, a))
    case StopConsumer => n' == n.(p := n.p.(proc := None))
    case _ => LogStep(wo, n, ev, n') || CrashStep(wo, n, ev, n')
  }

  ghost function Machine(wo: Options, o: P.Settings): (Node, Event, Node) -> bool {
    (n, ev, n') => Step(wo, o, n, ev, n')
  }

  // ---- What holds ----

  /** The pipeline's log holds the payloads of the write-ahead log, acknowledged as far. */
  ghost predicate SameLog(log: seq<Entry>, acked: nat, p: P.World) {
    |p.log| == |log| && p.acked == acked && forall i :: 0 <= i < |log| ==> p.log[i].bytes == log[i].payload
  }

  ghost function Segs(w: W.World): seq<Wal.SegMeta>
    requires !w.Refused?
  {
    if w.Up? then w.st.segs else w.segs
  }

  /** After a crash at least `done` records are recovered, and they reach the committed offset. */
  ghost predicate Recovers(wo: Options, w: W.World, committed: nat)
    requires w.Down?
  {
    Wal.Recoverable(w.dir, w.segs) ==>
      exists done :: committed <= done <= |w.log| && Wal.Damaged(wo, w.dir, w.segs, w.log, done)
  }

  ghost predicate Good(wo: Options, o: P.Settings, n: Node) {
    && W.Good(wo, n.w) && P.Good(o, n.p) && SameLog(n.w.log, n.w.acked, n.p)
    && Segs(n.w) != [] && n.p.oldest == Segs(n.w)[0].base
    && (n.w.Down? ==> n.p.proc.None? && Recovers(wo, n.w, n.p.committed))
  }

  /** Some spared run of the pipeline leads from p to p'. */
  ghost predicate Leads(o: P.Settings, p: P.World, p': P.World) {
    exists acts :: Run(P.Careful(o), p, acts, p')
  }

  lemma {:induction false} Stays(o: P.Settings, p: P.World)
    ensures Leads(o, p, p)
  {
    assert Run(P.Careful(o), p, [], p);
  }

  lemma {:induction false} LeadsBy(o: P.Settings, p: P.World, a: P.Action, p': P.World)
    requires P.Enabled(o, p, a) && P.Spared(o, p, a) && p' == P.Step(o, p, a)
    ensures Leads(o, p, p')
  {
    One(P.Careful(o), p, a, p');
    assert Run(P.Careful(o), p, [a], p');
  }

  lemma {:induction false} LeadsOn(o: P.Settings, a: P.World, b: P.World, c: P.World)
    requires Leads(o, a, b) && Leads(o, b, c)
    ensures Leads(o, a, c)
  {
    var x :| Run(P.Careful(o), a, x, b);
    var y :| Run(P.Careful(o), b, y, c);
    Runs.Concat(P.Careful(o), a, x, b, y, c);
  }

  lemma {:induction false} LeadsKeepsGood(o: P.Settings, p: P.World, p': P.World)
    requires P.Good(o, p) && Leads(o, p, p')
    ensures P.Good(o, p')
  {
    var acts :| Run(P.Careful(o), p, acts, p');
    P.NoEventLost(o, p, acts, p');
  }

  // ---- The log's steps ----

  lemma {:induction false} SubmitLeads(o: P.Settings, p: P.World, bytes: seq<Byte>)
    ensures Leads(o, p, p.(log := p.log + [P.Rec(p.nextId, bytes)], nextId := p.nextId + 1))
  {
    LeadsBy(o, p, P.Submit(bytes), p.(log := p.log + [P.Rec(p.nextId, bytes)], nextId := p.nextId + 1));
  }

  /** A system call of the log is a step of the pipeline's surroundings, or none. */
  lemma {:induction false} LogStepLeads(wo: Options, o: P.Settings, n: Node, ev: Event, n': Node)
    requires Good(wo, o, n) && LogStep(wo, n, ev, n')
    ensures Leads(o, n.p, n'.p)
  {
    match ev
    case Sync => Stays(o, n.p);
    case Create => Stays(o, n.p);
    case Write(e) => SubmitLeads(o, n.p, e.payload);
    case Ack => LeadsBy(o, n.p, P.Ack(n'.w.acked), n'.p);
    case Retain =>
      assert n.w.st.segs[0].End() == n.w.st.segs[1].base;
      LeadsBy(o, n.p, P.Retain(n.w.st.segs[1].base), n'.p);
  }

  lemma {:induction false} LogStepLinks(wo: Options, n: Node, ev: Event, n': Node)
    requires W.Good(wo, n.w) && SameLog(n.w.log, n.w.acked, n.p) && LogStep(wo, n, ev, n')
    requires n.w.Up? && n.p.oldest == n.w.st.segs[0].base
    ensures W.Good(wo, n'.w) && n'.w.Up? && SameLog(n'.w.log, n'.w.acked, n'.p) && n'.p.oldest == n'.w.st.segs[0].base
  {
    match ev
    case Sync => W.StepKeepsGood(wo, n.w, W.Sync);
    case Create => W.StepKeepsGood(wo, n.w, W.Create);
    case Write(e) => W.StepKeepsGood(wo, n.w, W.Write(e));
    case Ack => W.StepKeepsGood(wo, n.w, W.Ack);
    case Retain => W.StepKeepsGood(wo, n.w, W.Retain);
  }

  // ---- Crashes ----

  lemma {:induction false} IssuedInv(wo: Options, s: Wal.LogState, log: seq<Entry>, acked: nat, e: Option<Entry>)
    requires Wal.Inv(wo, s, log, acked) && (e.Some? ==> Fits(wo, e.value) && |log| + 1 < TWO_64)
    ensures Wal.Inv(wo, Issued(wo, s, e), Begun(log, e), acked)
    ensures Wal.Last(Issued(wo, s, e).segs).base == Wal.Last(s.segs).base
      && Issued(wo, s, e).segs[0].base == s.segs[0].base
    ensures Wal.Last(Issued(wo, s, e).dir).synced == Wal.Last(s.dir).synced && |Issued(wo, s, e).segs| == |s.segs|
  {
    if e.Some? {
      Wal.WriteKeepsInv(wo, s, log, acked, e.value);
    }
  }

  /** The active file holds the records completed before the one in flight. */
  lemma {:induction false} CompletedImage(wo: Options, s: Wal.LogState, log: seq<Entry>, acked: nat, e: Option<Entry>)
    requires Wal.Inv(wo, s, log, acked)
    ensures var base := Wal.Last(s.segs).base;
      && base <= |log| && HEADER_LEN <= |Wal.Last(s.dir).bytes|
      && |Image(wo, base, Begun(log, e)[base..|log|])| == |Wal.Last(s.dir).bytes|
  {
    var base := Wal.Last(s.segs).base;
    assert Begun(log, e)[base..|log|] == log[base..Wal.Last(s.segs).End()];
  }

  /** What a kill leaves of the directory. */
  lemma {:induction false} KilledDir(wo: Options, s: Wal.LogState, log: seq<Entry>, acked: nat, done: nat, keep: nat)
    requires Wal.Inv(wo, s, log, acked) && done <= |log|
    requires Wal.Last(s.segs).base < done ==>
      |Image(wo, Wal.Last(s.segs).base, log[Wal.Last(s.segs).base..done])| <= keep
    requires Wal.Last(s.dir).synced <= keep <= |Wal.Last(s.dir).bytes|
    ensures var dir := Wal.Init(s.dir) + [Wal.SegFile(Wal.Last(s.dir).base, Wal.Last(s.dir).bytes[..keep], keep)];
      Wal.Damaged(wo, dir, s.segs, log, acked) && Wal.Damaged(wo, dir, s.segs, log, done)
  {
    W.KilledIsDamaged(wo, s, log, acked, done, keep);
    Wal.InvIsDamaged(wo, s, log, acked);
    Wal.CrashKeepsDamaged(wo, s.dir, s.segs, log, acked, Wal.Kept(keep, keep));
  }

  /** All records completed before the kill are recovered. */
  lemma {:induction false} KilledRecovers(wo: Options, w: W.World, e: Option<Entry>, keep: nat)
    requires w.Up? && W.Good(wo, w) && Killable(wo, w.st, w.log, e, keep)
    ensures var d := Killed(wo, w, e, keep);
      && W.Good(wo, d) && Wal.Damaged(wo, d.dir, d.segs, d.log, |w.log|) && Wal.Recoverable(d.dir, d.segs)
      && d.segs != [] && d.segs[0].base == w.st.segs[0].base
  {
    IssuedInv(wo, w.st, w.log, w.acked, e);
    CompletedImage(wo, w.st, w.log, w.acked, e);
    KilledDir(wo, Issued(wo, w.st, e), Begun(w.log, e), w.acked, |w.log|, keep);
  }

  /** To the pipeline a kill is a record more, perhaps, and the end of the consumer. */
  lemma {:induction false} KillLeads(wo: Options, o: P.Settings, n: Node, e: Option<Entry>, keep: nat, n': Node)
    requires P.Good(o, n.p) && CrashStep(wo, n, Kill(e, keep), n')
    ensures Leads(o, n.p, n'.p)
  {
    var p := n.p;
    if e.Some? {
      p := n.p.(log := n.p.log + [P.Rec(n.p.nextId, e.value.payload)], nextId := n.p.nextId + 1);
      SubmitLeads(o, n.p, e.value.payload);
    } else {
      Stays(o, n.p);
    }
    LeadsKeepsGood(o, n.p, p);
    StopLeads(o, p);
    LeadsOn(o, n.p, p, n'.p);
  }

  lemma {:induction false} KillGood(wo: Options, o: P.Settings, n: Node, e: Option<Entry>, keep: nat, n': Node)
    requires Good(wo, o, n) && CrashStep(wo, n, Kill(e, keep), n')
    ensures Good(wo, o, n') && Leads(o, n.p, n'.p)
  {
    KilledRecovers(wo, n.w, e, keep);
    KillLeads(wo, o, n, e, keep, n');
    LeadsKeepsGood(o, n.p, n'.p);
    assert Wal.Damaged(wo, n'.w.dir, n'.w.segs, n'.w.log, |n.w.log|);
  }

  lemma {:induction false} StopLeads(o: P.Settings, p: P.World)
    requires P.Good(o, p)
    ensures Leads(o, p, p.(proc := None))
  {
    assert p.log[..|p.log|] == p.log;
    LeadsBy(o, p, P.Lose(|p.log|), p.(proc := None));
  }

  lemma {:induction false} PowerLossGood(wo: Options, o: P.Settings, n: Node, out: Wal.Outcome, n': Node)
    requires Good(wo, o, n) && CrashStep(wo, n, PowerLoss(out), n')
    ensures Good(wo, o, n') && Leads(o, n.p, n'.p)
  {
    var d := Interval.OnDisk(n.w.st, n.w.log);
    W.FailKeepsGood(wo, n.w, out);
    Interval.OnDiskInv(wo, n.w.st, n.w.log, n.w.acked);
    Wal.InvIsDamaged(wo, n.w.st, n.w.log, d);
    Wal.CrashKeepsDamaged(wo, n.w.st.dir, n.w.st.segs, n.w.log, d, out);
    StopLeads(o, n.p);
    LeadsKeepsGood(o, n.p, n'.p);
  }

  /** It recovers what the committed offset needs. */
  lemma {:induction false} ReopenReaches(wo: Options, w: W.World, committed: nat)
    requires w.Down? && W.Good(wo, w) && W.Enabled(wo, w, W.Reopen) && Recovers(wo, w, committed)
    ensures var w' := W.Step(wo, w, W.Reopen);
      w'.Up? && W.Good(wo, w') && committed <= |w'.log| && w'.log <= w.log && w'.acked == w.acked <= |w'.log|
      && w'.st.segs != [] && w'.st.segs[0].base == w.segs[0].base
  {
    W.ReopenRecovers(wo, w);
    var done :| committed <= done <= |w.log| && Wal.Damaged(wo, w.dir, w.segs, w.log, done);
    var m := Wal.LoadRecovers(wo, w.dir, w.segs, w.log, done);
    assert Wal.Load(w.dir, Wal.ProbeAll(wo, w.dir)).state.next == m;
    Wal.LoadKeepsOldest(wo, w.dir, w.segs, w.log, done);
  }

  lemma {:induction false} ReopenGood(wo: Options, o: P.Settings, n: Node, n': Node)
    requires Good(wo, o, n) && CrashStep(wo, n, Reopen, n')
    ensures Good(wo, o, n') && Leads(o, n.p, n'.p)
  {
    ReopenReaches(wo, n.w, n.p.committed);
    LeadsBy(o, n.p, P.Lose(|n'.w.log|), n'.p);
    LeadsKeepsGood(o, n.p, n'.p);
  }

  // ---- Whole runs ----

  lemma {:induction false} OwnKeepsLog(o: P.Settings, p: P.World, a: P.Action)
    requires P.Enabled(o, p, a) && Own(a)
    ensures var p' := P.Step(o, p, a); p'.log == p.log && p'.acked == p.acked && p'.oldest == p.oldest
  {
  }

  lemma {:induction false} StepGood(wo: Options, o: P.Settings, n: Node, ev: Event, n': Node)
    requires Good(wo, o, n) && Step(wo, o, n, ev, n')
    ensures Good(wo, o, n') && Leads(o, n.p, n'.p)
  {
    match ev
    case Consumer(a) =>
      OwnKeepsLog(o, n.p, a);
      LeadsBy(o, n.p, a, n'.p);
      LeadsKeepsGood(o, n.p, n'.p);
    case StopConsumer =>
      StopLeads(o, n.p);
      LeadsKeepsGood(o, n.p, n'.p);
    case Kill(e, keep) => KillGood(wo, o, n, e, keep, n');
    case PowerLoss(out) => PowerLossGood(wo, o, n, out, n');
    case Reopen => ReopenGood(wo, o, n, n');
    case _ =>
      LogStepLeads(wo, o, n, ev, n');
      LogStepLinks(wo, n, ev, n');
      LeadsKeepsGood(o, n.p, n'.p);
  }

  /** Every run of the two together is a spared run of the pipeline: so no acknowledged event below the committed offset
      is lost, the two logs stay the same, and the oldest offset is where the log's first segment starts. */
  lemma {:induction false} NodeLosesNothing(wo: Options, o: P.Settings, n: Node, evs: seq<Event>, n': Node)
    requires Good(wo, o, n) && Run(Machine(wo, o), n, evs, n')
    ensures Good(wo, o, n') && Leads(o, n.p, n'.p)
    ensures SameLog(n'.w.log, n'.w.acked, n'.p) && P.CommittedSafe(o, n'.p)
    ensures n'.p.oldest == Segs(n'.w)[0].base <= n'.p.committed <= |n'.p.log|
    decreases |evs|
  {
    if evs == [] {
      Stays(o, n.p);
    } else {
      var m :| Machine(wo, o)(n, evs[0], m) && Run(Machine(wo, o), m, evs[1..], n');
      StepGood(wo, o, n, evs[0], m);
      NodeLosesNothing(wo, o, m, evs[1..], n');
      LeadsOn(o, n.p, m.p, n'.p);
    }
  }

  /** A lifetime of the pipeline starts where NewReader puts its reader: over the log as it is, from the offset
      committed, or as a new consumer while nothing is committed. */
  lemma {:induction false} StartIsNewReader(wo: Options, o: P.Settings, n: Node, stored: Option<nat>)
    requires Good(wo, o, n) && n.w.Up? && P.Enabled(o, n.p, P.Start)
    requires stored == Some(n.p.committed) || (stored.None? && n.p.committed == 0)
    ensures var p := P.Step(o, n.p, P.Start).proc.value;
      p.start == p.pos == Reader.NewReader(n.w.st, stored).pos == n.p.committed
  {
  }

  /** After a kill the next open always succeeds. */
  lemma {:induction false} KillReopens(wo: Options, o: P.Settings, n: Node, e: Option<Entry>, keep: nat, n': Node)
    requires Good(wo, o, n) && CrashStep(wo, n, Kill(e, keep), n')
    ensures W.Enabled(wo, n'.w, W.Reopen) && W.Step(wo, n'.w, W.Reopen).Up?
    ensures |n.w.log| <= |W.Step(wo, n'.w, W.Reopen).log|
  {
    KilledRecovers(wo, n.w, e, keep);
    var d := n'.w;
    W.ReopenRecovers(wo, d);
    var m := Wal.LoadRecovers(wo, d.dir, d.segs, d.log, |n.w.log|);
    assert Wal.Load(d.dir, Wal.ProbeAll(wo, d.dir)).state.next == m;
  }

  /** The first start. */
  lemma {:induction false} FirstStartIsGood(wo: Options, o: P.Settings)
    ensures Good(wo, o, Node(W.Up(Wal.Fresh(0), [], 0), P.Empty()))
  {
    W.CreatedIsGood(wo);
    P.EmptyIsGood(o);
  }
}
