/** A reader in a second process, over a read-only attached log (internal/wal/reader.go, internal/wal/wal.go): whole
    runs of the owner's steps, refreshes, reads, commits and re-attachments. */
module TailSessions {
  import opened Base
  import opened Bytes
  import opened Segment
  import opened Wal
  import opened Runs
  import opened Tail
  import T = TailRuns
  import opened Reader
  import C = Consumer
  import U = CatchUp

  /** The two processes, a reader of the second, where it started and what it was given; its offset file, and the offset
      last committed under its name. */
  datatype Session = Session(w: T.World, rd: ReaderState, start: nat, got: seq<Record>, file: Option<seq<Byte>>,
                             last: Option<nat>)

  /** A step of the two processes, a read, a commit, or a new process that attaches and reads under the same name. */
  datatype SessionEvent = Between(ev: T.Event) | ReadNext | CommitOffset | Reattach

  ghost predicate SessionStep(o: Options, s: Session, ev: SessionEvent, s': Session) {
    match ev
    case Between(e) => T.Step(o, s.w, e, s'.w) && s' == s.(w := s'.w)
    case ReadNext =>
      var r := Next(o, T.Attached(s.w), s.rd);
      s' == s.(rd := r.1, got := if r.0.Got? then s.got + [r.0.rec] else s.got)
    case CommitOffset =>
      s' == s.(rd := s.rd.(committed := s.rd.pos), file := Some(EncodeOffset(o, s.rd.pos)), last := Some(s.rd.pos))
    case Reattach =>
      var w := s.w.(reader := ReadOnlyLog([], 0, Idle));
      OpenReader(o, T.Attached(w), s.file).Some? && s' == Begun(o, s, w)
  }

  function Begun(o: Options, s: Session, w: T.World): Session
    requires OpenReader(o, T.Attached(w), s.file).Some?
  {
    var rd := OpenReader(o, T.Attached(w), s.file).value;
    Session(w, rd, rd.pos, [], s.file, s.last)
  }

  ghost function SessionMachine(o: Options): (Session, SessionEvent, Session) -> bool {
    (s, ev, s') => SessionStep(o, s, ev, s')
  }

  /** The offset file is what was committed last. */
  ghost predicate FileOk(o: Options, s: Session) {
    && s.file == (if s.last.Some? then Some(EncodeOffset(o, s.last.value)) else None)
    && (s.last.Some? ==> s.last.value < TWO_64) && s.rd.pos < TWO_64
  }

  ghost predicate SessionGood(o: Options, s: Session) {
    T.Good(o, s.w) && C.Follows(o, s.rd, T.Shown(s.w.owner), s.start, s.got) && FileOk(o, s)
  }

  lemma {:induction false} FollowsMore(o: Options, rd: ReaderState, log: seq<Entry>, log': seq<Entry>, start: nat,
                                       got: seq<Record>)
    requires C.Follows(o, rd, log, start, got) && log <= log'
    ensures C.Follows(o, rd, log', start, got)
  {
    C.ConsecutiveFrame(got, log, log', start);
    if rd.cursor.Some? {
      CursorFrame(o, rd.cursor.value, log, log');
    }
  }

  lemma {:induction false} FollowsRead(o: Options, log: seq<Entry>, rd: ReaderState, start: nat, got: seq<Record>,
                                       r: (Read, ReaderState))
    requires C.Follows(o, rd, log, start, got)
    requires r == (NoRecord, rd)
      || (rd.pos < |log| && r.0 == Got(At(log[rd.pos], rd.pos)) && r.1.pos == rd.pos + 1
        && r.1.committed == rd.committed && ReaderOk(o, r.1, log))
    ensures C.Follows(o, r.1, log, start, if r.0.Got? then got + [r.0.rec] else got)
  {
  }

  lemma {:induction false} ShownFits(o: Options, w: T.World)
    requires T.Good(o, w)
    ensures |T.Shown(w.owner)| < TWO_64
  {
  }

  lemma {:induction false} ReadStepGood(o: Options, s: Session, s': Session)
    requires SessionGood(o, s) && SessionStep(o, s, ReadNext, s')
    ensures SessionGood(o, s')
  {
    T.TailReads(o, s.w, s.rd);
    ShownFits(o, s.w);
    FollowsRead(o, T.Shown(s.w.owner), s.rd, s.start, s.got, Next(o, T.Attached(s.w), s.rd));
  }

  lemma {:induction false} SessionStepGood(o: Options, s: Session, ev: SessionEvent, s': Session)
    requires SessionGood(o, s) && SessionStep(o, s, ev, s')
    ensures SessionGood(o, s') && T.Shown(s.w.owner) <= T.Shown(s'.w.owner)
  {
    match ev
    case Between(e) =>
      T.StepKeepsGood(o, s.w, e, s'.w);
      T.ShownGrows(o, s.w, e, s'.w);
      FollowsMore(o, s.rd, T.Shown(s.w.owner), T.Shown(s'.w.owner), s.start, s.got);
    case ReadNext => ReadStepGood(o, s, s');
    case CommitOffset =>
    case Reattach => TailResumes(o, s, s');
  }

  lemma {:induction false} BegunIsGood(o: Options, s: Session, w: T.World)
    requires FileOk(o, s) && T.Good(o, w) && w.reader == ReadOnlyLog([], 0, Idle)
    ensures OpenReader(o, T.Attached(w), s.file).Some? && SessionGood(o, Begun(o, s, w))
    ensures Begun(o, s, w).start == if s.last.Some? then s.last.value else 0
  {
    if s.last.Some? {
      OffsetRoundTrip(o, s.last.value);
    }
    NewReaderStarts(T.Attached(w), s.last);
  }

  /** A process that attaches again reads on at the last committed offset, or from the first record without one, and is
      never refused. */
  lemma {:induction false} TailResumes(o: Options, s: Session, s': Session)
    requires SessionGood(o, s) && SessionStep(o, s, Reattach, s')
    ensures SessionGood(o, s') && s'.last == s.last && s'.got == [] && s'.w.owner == s.w.owner
    ensures s'.rd.pos == s'.start == if s.last.Some? then s.last.value else 0
  {
    BegunIsGood(o, s, s'.w);
  }

  /** Whatever the owner writes, rolls and restarts and the attached process refreshes, commits and reads in between,
      the reader is given exactly the owner's records at consecutive offsets from where it started, and none of them
      ever changes. */
  lemma {:induction false} TailReadsInOrder(o: Options, s: Session, evs: seq<SessionEvent>, s': Session)
    requires SessionGood(o, s) && Run(SessionMachine(o), s, evs, s')
    ensures SessionGood(o, s') && T.Shown(s.w.owner) <= T.Shown(s'.w.owner)
    ensures s'.start + |s'.got| == s'.rd.pos && C.Consecutive(s'.got, T.Shown(s'.w.owner), s'.start)
    decreases |evs|
  {
    if evs != [] {
      var m :| SessionMachine(o)(s, evs[0], m) && Run(SessionMachine(o), m, evs[1..], s');
      SessionStepGood(o, s, evs[0], m);
      TailReadsInOrder(o, m, evs[1..], s');
    }
  }

  /** Any reader over an attached log starts so. */
  lemma {:induction false} NewTailReaderIsGood(o: Options, w: T.World, stored: Option<nat>)
    requires T.Good(o, w) && (stored.Some? ==> stored.value < TWO_64)
    ensures var rd, file := NewReader(T.Attached(w), stored),
      if stored.Some? then Some(EncodeOffset(o, stored.value)) else None;
      SessionGood(o, Session(w, rd, rd.pos, [], file, stored))
  {
    if w.reader.segs != [] {
      T.OwnerShows(o, w.owner);
    }
    NewReaderStarts(T.Attached(w), stored);
  }

  // ---- Every visible record is delivered ----

  lemma {:induction false} Lift(o: Options, s: Session, evs: seq<T.Event>, w': T.World)
    returns (steps: seq<SessionEvent>)
    requires Run(T.Machine(o), s.w, evs, w')
    ensures Run(SessionMachine(o), s, steps, s.(w := w'))
    decreases |evs|
  {
    if evs == [] {
      steps := [];
    } else {
      var m :| T.Machine(o)(s.w, evs[0], m) && Run(T.Machine(o), m, evs[1..], w');
      var s1 := s.(w := m);
      steps := Lift(o, s1, evs[1..], w');
      assert SessionMachine(o)(s, Between(evs[0]), s1);
      assert ([Between(evs[0])] + steps)[1..] == steps;
      steps := [Between(evs[0])] + steps;
    }
  }

  /** Reading on to the next offset of the attached log. */
  lemma {:induction false} ReadUp(o: Options, s: Session) returns (steps: seq<SessionEvent>, s': Session)
    requires SessionGood(o, s) && s.rd.pos <= s.w.reader.next
    ensures Run(SessionMachine(o), s, steps, s') && SessionGood(o, s')
    ensures s'.w == s.w && s'.start == s.start && s'.rd.pos == s.w.reader.next
    decreases s.w.reader.next - s.rd.pos
  {
    if s.rd.pos == s.w.reader.next {
      steps, s' := [], s;
    } else {
      var r := Next(o, T.Attached(s.w), s.rd);
      var s1 := s.(rd := r.1, got := if r.0.Got? then s.got + [r.0.rec] else s.got);
      T.TailReads(o, s.w, s.rd);
      assert SessionStep(o, s, ReadNext, s1);
      ReadStepGood(o, s, s1);
      steps, s' := ReadUp(o, s1);
      assert SessionMachine(o)(s, ReadNext, s1);
      assert ([ReadNext] + steps)[1..] == steps;
      steps := [ReadNext] + steps;
    }
  }

  /** Refreshing brings the next offset to what is visible. */
  lemma {:induction false} RefreshesUp(o: Options, s: Session) returns (steps: seq<SessionEvent>, s': Session)
    requires SessionGood(o, s)
    ensures Run(SessionMachine(o), s, steps, s') && SessionGood(o, s')
    ensures s' == s.(w := s'.w) && s'.w.owner == s.w.owner && s'.w.reader.next == T.Visible(s.w.owner)
  {
    var n := U.RefreshCatchesUp(o, s.w);
    var evs := U.TicksRun(o, s.w, n);
    s' := s.(w := U.Tick(o, s.w, n));
    steps := Lift(o, s, evs, U.Tick(o, s.w, n));
    TailReadsInOrder(o, s, steps, s');
  }

  lemma {:induction false} GotSoFar(o: Options, s: Session)
    requires SessionGood(o, s)
    ensures s.start + |s.got| == s.rd.pos && (s.got != [] ==> s.rd.pos <= |T.Shown(s.w.owner)|)
    ensures forall i :: 0 <= i < |s.got| ==> s.got[i] == At(T.Shown(s.w.owner)[s.start + i], s.start + i)
  {
  }

  /** Nothing visible is withheld: if the owner is still, refreshing and reading give the reader every record that is
      completely written, from where it started on. */
  lemma {:induction false} AllVisibleDelivered(o: Options, s: Session) returns (steps: seq<SessionEvent>, s': Session)
    requires SessionGood(o, s) && s.rd.pos <= T.Visible(s.w.owner)
    ensures Run(SessionMachine(o), s, steps, s') && SessionGood(o, s') && s'.w.owner == s.w.owner && s'.start == s.start
    ensures s'.start + |s'.got| == |T.Shown(s.w.owner)| == T.Visible(s.w.owner)
    ensures forall i :: 0 <= i < |s'.got| ==> s'.got[i] == At(T.Shown(s.w.owner)[s'.start + i], s'.start + i)
  {
    var first, s1 := RefreshesUp(o, s);
    T.OwnerShows(o, s.w.owner);
    var second;
    second, s' := ReadUp(o, s1);
    GotSoFar(o, s');
    Runs.Concat(SessionMachine(o), s, first, s1, second, s');
    steps := first + second;
  }
}
