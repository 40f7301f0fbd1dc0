/** The pipeline gets on (internal/ingest/pipeline.go): from every state that meets its invariant the consumer can bring
    the whole log to disk and commit it, without a crash, whatever files are in its way. */
module Draining {
  import opened Base
  import opened Rows
  import opened Store
  import opened Dedupe
  import opened Runs
  import opened Pipeline
  import opened PipelineLosses

  /** The consumer's own way on: nothing is submitted, lost or retained. */
  ghost predicate Onward(w: World, w': World) {
    w'.log == w.log && w'.acked == w.acked && w'.proc.Some? && w.committed <= w'.committed
  }

  ghost predicate Gets(o: Settings, w: World, w': World) {
    Leads(o, w, w') && Onward(w, w')
  }

  lemma {:induction false} Stay(o: Settings, w: World)
    requires w.proc.Some?
    ensures Gets(o, w, w)
  {
    assert Run(Careful(o), w, [], w);
  }

  lemma {:induction false} GetsBy(o: Settings, w: World, a: Action, w': World)
    requires Enabled(o, w, a) && Spared(o, w, a) && w' == Step(o, w, a) && Onward(w, w')
    ensures Gets(o, w, w')
  {
    LeadsBy(o, w, a, w');
  }

  lemma {:induction false} GetsOn(o: Settings, a: World, b: World, c: World)
    requires Gets(o, a, b) && Gets(o, b, c)
    ensures Gets(o, a, c)
  {
    LeadsOn(o, a, b, c);
  }

  // ---- The bound on memory ----

  ghost predicate Bounded(o: Settings, w: World) {
    w.proc.Some? ==> |Flight(w.proc.value.pc)| + |w.proc.value.buf| <= o.maxBufferRows
  }

  lemma {:induction false} StaysBounded(o: Settings, w: World, a: Action)
    requires Bounded(o, w) && Enabled(o, w, a)
    ensures Bounded(o, Step(o, w, a))
  {
    match a
    case Handle(now) =>
    case Store =>
    case _ =>
  }

  /** In every run the rows in the buffer and in a flush are never more than the buffer may hold. */
  lemma {:induction false} MemoryBounded(o: Settings, w: World, acts: seq<Action>, w': World)
    requires Bounded(o, w) && Run(Machine(o), w, acts, w')
    ensures Bounded(o, w')
    decreases |acts|
  {
    if acts != [] {
      var m :| Machine(o)(w, acts[0], m) && Run(Machine(o), m, acts[1..], w');
      StaysBounded(o, w, acts[0]);
      MemoryBounded(o, m, acts[1..], w');
    }
  }

  ghost predicate FlushesAll(p: Proc, p': Proc) {
    && p.pc.Appending? && p'.pc.Flushing? && p'.buf == [] && p'.pc.rows == p.buf && p'.pc.then_ == ToAppend(p.pc.row)
    && forall r :: r in p.buf ==> KeyOf(r.event) in p'.pc.todo
  }

  /** A row in the append loop goes into the buffer exactly when the buffer has room; else a flush begins with all of
      it. */
  lemma {:induction false} StoresIffRoom(o: Settings, w: World, p: Proc)
    requires At(w, p) && p.pc.Appending?
    ensures var p' := Step(o, w, Store).proc.value;
      if |p.buf| < o.maxBufferRows then p'.buf == p.buf + [p.pc.row] && !p'.pc.Flushing?
      else FlushesAll(p, p')
  {
    forall r | r in p.buf
      ensures KeyOf(r.event) in KeysIn(p.buf)
    {
      var i :| 0 <= i < |p.buf| && p.buf[i] == r;
    }
  }

  // ---- A flush that succeeds ----

  /** Every partition is written under a number that no file has. */
  lemma {:induction false} WriteAll(o: Settings, w: World, p: Proc) returns (w': World)
    requires At(w, p) && p.pc.Flushing? && p.pc.todo <= KeysIn(p.pc.rows) && p.buf == []
      && NumbersBelow(w.disk, p.flushCount)
    ensures Gets(o, w, w') && w'.proc.value.pc == AfterFlush(p.pc.then_, true)
    ensures w'.proc.value.buf == [] && w'.proc.value.pos == p.pos
    decreases |p.pc.todo|
  {
    if p.pc.todo == {} {
      w' := w.(proc := Some(p.(pc := AfterFlush(p.pc.then_, true))));
      GetsBy(o, w, EndFlush, w');
    } else {
      var k :| k in p.pc.todo;
      var w1 := WriteNext(o, w, p, k);
      w' := WriteAll(o, w1, w1.proc.value);
      GetsOn(o, w, w1, w');
    }
  }

  /** With the buffer full, failing flushes use up the numbers that are taken. */
  lemma {:induction false} UseUp(o: Settings, w: World, p: Proc, n: nat) returns (w': World)
    requires At(w, p) && p.pc.Appending? && |p.buf| + 1 > o.maxBufferRows >= 1 && NumbersBelow(w.disk, n)
    ensures Gets(o, w, w') && w'.disk == w.disk && w'.proc.value.flushCount >= n
    ensures w'.proc.value == p.(pc := w'.proc.value.pc, flushCount := w'.proc.value.flushCount)
    ensures w'.proc.value.pc.Appending? && w'.proc.value.pc.row == p.pc.row
    decreases n - p.flushCount
  {
    if n <= p.flushCount {
      w' := w;
      Stay(o, w);
    } else {
      var p1 := BeginFlush(p, ToAppend(p.pc.row));
      var p2 := p.(pc := Appending(p.pc.row, true), flushCount := p.flushCount + 1);
      var w1, w2 := w.(proc := Some(p1)), w.(proc := Some(p2));
      assert KeyOf(p.buf[0].event) in KeysIn(p.buf);
      GetsBy(o, w, Store, w1);
      assert p1.pc.rows + p1.buf == p.buf;
      GetsBy(o, w1, FailFlush(true), w2);
      w' := UseUp(o, w2, p2, n);
      GetsOn(o, w, w1, w2);
      GetsOn(o, w, w2, w');
    }
  }

  /** A row in the append loop gets into the buffer. */
  lemma {:induction false} Appends(o: Settings, w: World, p: Proc) returns (w': World)
    requires At(w, p) && p.pc.Appending? && o.maxBufferRows >= 1
    ensures Gets(o, w, w') && w'.proc.value.pc == Working(p.pc.row.index + 1) && w'.proc.value.pos == p.pos
  {
    var w1 := w;
    Stay(o, w);
    if |p.buf| + 1 > o.maxBufferRows {
      w1 := MakesRoom(o, w, p);
    }
    var p1 := w1.proc.value;
    w' := w1.(proc := Some(p1.(pc := Working(p1.pc.row.index + 1), buf := p1.buf + [p1.pc.row])));
    GetsBy(o, w1, Store, w');
    GetsOn(o, w, w1, w');
  }

  lemma {:induction false} MakesRoom(o: Settings, w: World, p: Proc) returns (w': World)
    requires At(w, p) && p.pc.Appending? && |p.buf| + 1 > o.maxBufferRows >= 1
    ensures Gets(o, w, w') && w'.proc.value.pc.Appending? && w'.proc.value.pc.row == p.pc.row
    ensures w'.proc.value.buf == [] && w'.proc.value.pos == p.pos
  {
    var n := HighestNumber(w.disk);
    var w1 := UseUp(o, w, p, n);
    var p1 := w1.proc.value;
    var p2 := BeginFlush(p1, ToAppend(p.pc.row));
    var w2 := w1.(proc := Some(p2));
    GetsBy(o, w1, Store, w2);
    w' := WriteAll(o, w2, p2);
    GetsOn(o, w, w1, w2);
    GetsOn(o, w, w2, w');
  }

  // ---- A record ----

  /** How many events of the current record are left. */
  ghost function ToDo(o: Settings, w: World, p: Proc): int
    requires 0 < p.pos <= |w.log| && p.pc.Working?
  {
    |Events(o, w.log[p.pos - 1])| - p.pc.at
  }

  /** The current record is finished. */
  lemma {:induction false} FinishesRecord(o: Settings, w: World, p: Proc) returns (w': World)
    requires At(w, p) && p.pc.Working? && 0 < p.pos <= |w.log| && o.maxBufferRows >= 1
    ensures Gets(o, w, w') && w'.proc.value.pc == Idle && w'.proc.value.pos == p.pos
    decreases ToDo(o, w, p)
  {
    var w1 := Step(o, w, Handle(0));
    GetsBy(o, w, Handle(0), w1);
    var p1 := w1.proc.value;
    if p1.pc.Idle? {
      w' := w1;
    } else {
      var w2 := w1;
      if p1.pc.Appending? {
        w2 := Appends(o, w1, p1);
        GetsOn(o, w, w1, w2);
      }
      w' := FinishesRecord(o, w2, w2.proc.value);
      GetsOn(o, w, w2, w');
    }
  }

  /** Between records, the rest of the log is read. */
  lemma {:induction false} ReadsRest(o: Settings, w: World, p: Proc) returns (w': World)
    requires At(w, p) && p.pc.Idle? && p.pos <= |w.log| && o.maxBufferRows >= 1
    ensures Gets(o, w, w') && w'.proc.value.pc == Idle && w'.proc.value.pos == |w.log|
    decreases |w.log| - p.pos
  {
    if p.pos == |w.log| {
      w' := w;
      Stay(o, w);
    } else {
      var p1 := p.(pos := p.pos + 1, pc := Working(0));
      var w1 := w.(proc := Some(p1));
      GetsBy(o, w, Read, w1);
      var w2 := FinishesRecord(o, w1, p1);
      w' := ReadsRest(o, w2, w2.proc.value);
      GetsOn(o, w, w1, w2);
      GetsOn(o, w, w2, w');
    }
  }

  /** From wherever the consumer is, it finishes the record it is at. */
  lemma {:induction false} GetsIdle(o: Settings, w: World, p: Proc) returns (w': World)
    requires Good(o, w) && At(w, p) && o.maxBufferRows >= 1
    ensures Gets(o, w, w') && w'.proc.value.pc == Idle && w'.proc.value.pos <= |w.log|
  {
    var w1 := LeavesFlush(o, w, p);
    var p1 := w1.proc.value;
    var w2 := w1;
    Stay(o, w1);
    if p1.pc.Appending? {
      w2 := Appends(o, w1, p1);
    } else if p1.pc.Committing? {
      w2 := w1.(committed := p1.pos, proc := Some(p1.(pc := Idle)));
      GetsBy(o, w1, Commit, w2);
    }
    GetsOn(o, w, w1, w2);
    w' := w2;
    if w2.proc.value.pc.Working? {
      w' := FinishesRecord(o, w2, w2.proc.value);
      GetsOn(o, w, w2, w');
    }
  }

  /** A flush under way is given up, or ends. */
  lemma {:induction false} LeavesFlush(o: Settings, w: World, p: Proc) returns (w': World)
    requires Good(o, w) && At(w, p)
    ensures Gets(o, w, w') && !w'.proc.value.pc.Flushing? && w'.proc.value.pos == p.pos
    ensures w.committed <= p.pos <= |w.log| && w'.committed == w.committed
    ensures (w'.proc.value.pc.Working? || w'.proc.value.pc.Appending?) ==> 0 < p.pos
  {
    w' := w;
    Stay(o, w);
    if p.pc.Flushing? {
      var a := if p.pc.todo == {} then EndFlush else FailFlush(false);
      w' := Step(o, w, a);
      GetsBy(o, w, a, w');
    }
  }

  /** Nothing is stuck: from every good state with a consumer, steps of its own lead to a state in which the whole log
      is committed, and by the no-loss theorem every event of it is on disk. */
  lemma {:induction false} Drains(o: Settings, w: World) returns (w': World)
    requires Good(o, w) && w.proc.Some? && o.maxBufferRows >= 1
    ensures Leads(o, w, w') && w'.log == w.log && w'.committed == |w.log|
    ensures forall n, i :: 0 <= n < |w.log| && 0 <= i < |Events(o, w.log[n])| ==>
      Held(o, DiskRows(w'.disk), w.log[n], i)
  {
    var w1 := GetsIdle(o, w, w.proc.value);
    var w2 := ReadsRest(o, w1, w1.proc.value);
    w' := CanCommit(o, w2, w2.proc.value);
    GetsOn(o, w, w1, w2);
    LeadsOn(o, w, w2, w');
    var acts :| Run(Careful(o), w, acts, w');
    NoEventLost(o, w, acts, w');
  }
}
