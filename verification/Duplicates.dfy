/** What the duplicate filter gives the pipeline (internal/ingest/pipeline.go): in every lifetime, whatever crashes and
    replays came before, an event is stored once for as long as the filter remembers it. */
module Duplicates {
  import opened Base
  import opened Bytes
  import opened Rows
  import opened Store
  import opened Dedupe
  import opened Runs
  import opened Pipeline

  /** A world, and the rows the present lifetime has taken to its append loop, in order. */
  datatype Watched = Watched(w: World, takes: seq<Row>)

  /** A row is taken when handling an event leaves it in the append loop. */
  function Watch(takes: seq<Row>, a: Action, w': World): seq<Row> {
    if w'.proc.None? || a.Start? then []
    else if a.Handle? && w'.proc.value.pc.Appending? then takes + [w'.proc.value.pc.row]
    else takes
  }

  ghost function Watching(o: Settings): (Watched, Action, Watched) -> bool {
    (s: Watched, a: Action, s': Watched) =>
      Enabled(o, s.w, a) && s'.w == Step(o, s.w, a) && s'.takes == Watch(s.takes, a, s'.w)
  }

  predicate HasId(r: Row) {
    |r.event.eventId| > 0
  }

  /** Rows of one event, by project and id. */
  predicate SameEvent(r: Row, s: Row) {
    HasId(r) && r.event.project == s.event.project && r.event.eventId == s.event.eventId
  }

  /** How many of the rows from i on, before j, have an id. */
  function WithId(rows: seq<Row>, i: nat, j: nat): nat
    requires i <= j <= |rows|
    decreases j
  {
    if i == j then 0 else WithId(rows, i, j - 1) + if HasId(rows[j - 1]) then 1 else 0
  }

  /** Between two rows of one event at least `cap` rows with an id were taken. */
  ghost predicate Far(cap: nat, rows: seq<Row>) {
    forall i, j :: 0 <= i < j < |rows| && SameEvent(rows[i], rows[j]) ==> WithId(rows, i + 1, j) >= cap
  }

  /** s comes after r: from a later record, or a later event of the same. */
  predicate Later(r: Row, s: Row) {
    r.rec.id < s.rec.id || (r.rec == s.rec && r.index < s.index)
  }

  ghost predicate Ascending(rows: seq<Row>) {
    forall i, j :: 0 <= i < j < |rows| ==> Later(rows[i], rows[j])
  }

  /** The rows in memory: in a flush, in the buffer, in the append loop. */
  function Memory(p: Proc): seq<Row> {
    Flight(p.pc) + p.buf + if Taken(p.pc).Some? then [Taken(p.pc).value] else []
  }

  // ---- The filter and what it has seen ----

  /** The keys of those of the first n rows that have an id. */
  function KeysTo(rows: seq<Row>, n: nat): seq<string>
    requires n <= |rows|
  {
    if n == 0 then []
    else if HasId(rows[n - 1]) then KeysTo(rows, n - 1) + [RowKey(rows[n - 1])]
    else KeysTo(rows, n - 1)
  }

  lemma {:induction false} KeysFrame(rows: seq<Row>, r: Row, n: nat)
    requires n <= |rows|
    ensures KeysTo(rows + [r], n) == KeysTo(rows, n)
  {
    if n > 0 {
      KeysFrame(rows, r, n - 1);
    }
  }

  lemma {:induction false} WithIdFrame(rows: seq<Row>, r: Row, i: nat, j: nat)
    requires i <= j <= |rows|
    ensures WithId(rows + [r], i, j) == WithId(rows, i, j)
    decreases j
  {
    if i < j {
      WithIdFrame(rows, r, i, j - 1);
    }
  }

  lemma {:induction false} WithIdAdds(rows: seq<Row>, i: nat, j: nat, k: nat)
    requires i <= j <= k <= |rows|
    ensures WithId(rows, i, k) == WithId(rows, i, j) + WithId(rows, j, k)
    decreases k
  {
    if j < k {
      WithIdAdds(rows, i, j, k - 1);
    }
  }

  /** Where the key of row i stands among the keys. */
  lemma {:induction false} KeyAt(rows: seq<Row>, i: nat, n: nat)
    requires i < n <= |rows| && HasId(rows[i])
    ensures |KeysTo(rows, n)| == WithId(rows, 0, n) && WithId(rows, 0, i) < |KeysTo(rows, n)|
    ensures KeysTo(rows, n)[WithId(rows, 0, i)] == RowKey(rows[i])
    decreases n
  {
    KeysLength(rows, n);
    KeysLength(rows, i);
    if i < n - 1 {
      KeyAt(rows, i, n - 1);
    }
  }

  lemma {:induction false} KeysLength(rows: seq<Row>, n: nat)
    requires n <= |rows|
    ensures |KeysTo(rows, n)| == WithId(rows, 0, n)
  {
    if n > 0 {
      KeysLength(rows, n - 1);
    }
  }

  /** The filter has seen exactly the keys of the rows taken. */
  ghost predicate SeenIs(cap: nat, takes: seq<Row>, seen: Window) {
    exists a, b :: 0 <= a <= b && Split(cap, History(KeysTo(takes, |takes|), seen), a, b)
  }

  ghost predicate OfProjects(rows: seq<Row>) {
    forall i :: 0 <= i < |rows| ==> rows[i].event.project == ProjectIn(rows[i].rec.bytes)
  }

  /** A row that the filter let through is far from every earlier one of its event. */
  lemma {:induction false} NewIsFar(cap: nat, takes: seq<Row>, seen: Window, row: Row, i: nat)
    requires cap > 0 && SeenIs(cap, takes, seen) && OfProjects(takes) && row.event.project == ProjectIn(row.rec.bytes)
    requires i < |takes| && SameEvent(takes[i], row) && !Known(seen, RowKey(row))
    ensures WithId(takes, i + 1, |takes|) >= cap
  {
    var a, b :| 0 <= a <= b && Split(cap, History(KeysTo(takes, |takes|), seen), a, b);
    LastAreKnown(cap, History(KeysTo(takes, |takes|), seen), a, b);
    KeyAt(takes, i, |takes|);
    WithIdAdds(takes, 0, i + 1, |takes|);
    WithIdAdds(takes, 0, i, i + 1);
  }

  lemma {:induction false} FarSnoc(cap: nat, takes: seq<Row>, row: Row)
    requires Far(cap, takes)
    requires forall i :: 0 <= i < |takes| && SameEvent(takes[i], row) ==> WithId(takes, i + 1, |takes|) >= cap
    ensures Far(cap, takes + [row])
  {
    var t := takes + [row];
    forall i, j | 0 <= i < j < |t| && SameEvent(t[i], t[j])
      ensures WithId(t, i + 1, j) >= cap
    {
      FarTo(cap, takes, row, i, j);
    }
  }

  lemma {:induction false} FarTo(cap: nat, takes: seq<Row>, row: Row, i: nat, j: nat)
    requires Far(cap, takes) && i < j <= |takes| && SameEvent(takes[i], if j < |takes| then takes[j] else row)
    requires SameEvent(takes[i], row) ==> WithId(takes, i + 1, |takes|) >= cap
    ensures WithId(takes + [row], i + 1, j) >= cap
  {
    FarAt(cap, takes, row, i, j);
    AtLeastFrame(cap, takes, row, i + 1, j);
  }

  lemma {:induction false} AtLeastFrame(cap: nat, takes: seq<Row>, row: Row, i: nat, j: nat)
    requires i <= j <= |takes| && WithId(takes, i, j) >= cap
    ensures WithId(takes + [row], i, j) >= cap
  {
    WithIdFrame(takes, row, i, j);
  }

  lemma {:induction false} FarAt(cap: nat, takes: seq<Row>, row: Row, i: nat, j: nat)
    requires Far(cap, takes) && i < j <= |takes| && SameEvent(takes[i], if j < |takes| then takes[j] else row)
    requires SameEvent(takes[i], row) ==> WithId(takes, i + 1, |takes|) >= cap
    ensures WithId(takes, i + 1, j) >= cap
  {
    if j < |takes| {
      FarPair(cap, takes, i, j);
    }
  }

  lemma {:induction false} FarPair(cap: nat, takes: seq<Row>, i: nat, j: nat)
    requires Far(cap, takes) && i < j < |takes| && SameEvent(takes[i], takes[j])
    ensures WithId(takes, i + 1, j) >= cap
  {
  }

  /** Offering the key of a row that was not known. */
  lemma {:induction false} SeenSnoc(cap: nat, takes: seq<Row>, seen: Window, row: Row, seen': Window)
    requires cap > 0 && SeenIs(cap, takes, seen)
    requires
      if HasId(row) then !Known(seen, RowKey(row)) && seen' == Accept(cap, seen, RowKey(row)) else seen' == seen
    ensures SeenIs(cap, takes + [row], seen')
  {
    var keys := KeysTo(takes, |takes|);
    var a, b :| 0 <= a <= b && Split(cap, History(keys, seen), a, b);
    KeysSnoc(takes, row);
    if HasId(row) {
      a, b := OfferSplits(cap, History(keys, seen), a, b, RowKey(row));
      assert Offer(cap, History(keys, seen), RowKey(row)) == History(keys + [RowKey(row)], seen');
    }
    assert Split(cap, History(KeysTo(takes + [row], |takes + [row]|), seen'), a, b);
  }

  lemma {:induction false} KeysSnoc(takes: seq<Row>, row: Row)
    ensures KeysTo(takes + [row], |takes + [row]|)
      == if HasId(row) then KeysTo(takes, |takes|) + [RowKey(row)] else KeysTo(takes, |takes|)
  {
    KeysFrame(takes, row, |takes|);
  }

  // ---- Where the rows are ----

  ghost predicate IdsAscend(w: World) {
    && (forall n :: 0 <= n < |w.log| ==> w.log[n].id < w.nextId)
    && (forall m, n :: 0 <= m < n < |w.log| ==> w.log[m].id < w.log[n].id)
  }

  /** Event i of record n is dealt with or in the append loop. */
  predicate Reached(p: Proc, n: nat, i: nat) {
    Past(p, n, i) || (Taken(p.pc).Some? && n + 1 == p.pos && i == Taken(p.pc).value.index)
  }

  ghost predicate Placed(w: World, p: Proc, r: Row) {
    exists n :: 0 <= n < p.pos && n < |w.log| && r.rec == w.log[n] && Reached(p, n, r.index)
  }

  ghost predicate AllPlaced(w: World, p: Proc, takes: seq<Row>) {
    forall i :: 0 <= i < |takes| ==> Placed(w, p, takes[i])
  }

  ghost predicate InMemory(w: World, p: Proc, takes: seq<Row>) {
    && Ascending(Memory(p))
    && (forall i :: 0 <= i < |Memory(p)| ==> Memory(p)[i] in takes)
    && (forall r :: r in OwnDisk(w) ==> r in takes)
    && (Taken(p.pc).Some? ==> 0 < p.pos <= |w.log| && Taken(p.pc).value.rec == w.log[p.pos - 1])
  }

  ghost predicate Good1(o: Settings, s: Watched) {
    && IdsAscend(s.w) && LivesOk(s.w)
    && (s.w.proc.Some? ==>
          var p := s.w.proc.value;
          && Ascending(s.takes) && OfProjects(s.takes) && Far(o.cap, s.takes) && AllPlaced(s.w, p, s.takes)
          && (o.cap > 0 ==> SeenIs(o.cap, s.takes, p.seen)) && InMemory(s.w, p, s.takes))
  }

  /** A row just taken comes after every row before it. */
  lemma {:induction false} TakenIsLater(w: World, p: Proc, takes: seq<Row>, row: Row)
    requires IdsAscend(w) && AllPlaced(w, p, takes) && p.pc.Working? && 0 < p.pos <= |w.log|
    requires row.rec == w.log[p.pos - 1] && row.index == p.pc.at
    ensures forall i :: 0 <= i < |takes| ==> Later(takes[i], row)
  {
    forall i | 0 <= i < |takes|
      ensures Later(takes[i], row)
    {
      assert Placed(w, p, takes[i]);
      var n :| 0 <= n < p.pos && n < |w.log| && takes[i].rec == w.log[n] && Reached(p, n, takes[i].index);
    }
  }

  lemma {:induction false} AscendingSnoc(rows: seq<Row>, row: Row)
    requires Ascending(rows) && forall i :: 0 <= i < |rows| ==> Later(rows[i], row)
    ensures Ascending(rows + [row])
  {
  }

  /** Places stay while the consumer goes on. */
  lemma {:induction false} StillPlaced(w: World, p: Proc, takes: seq<Row>, w': World, p': Proc)
    requires AllPlaced(w, p, takes) && w.log <= w'.log && p.pos <= p'.pos
    requires forall n, i {:trigger Reached(p, n, i)} :: 0 <= n && 0 <= i && Reached(p, n, i) ==> Reached(p', n, i)
    ensures AllPlaced(w', p', takes)
  {
    forall i | 0 <= i < |takes|
      ensures Placed(w', p', takes[i])
    {
      assert Placed(w, p, takes[i]);
      var n :| 0 <= n < p.pos && n < |w.log| && takes[i].rec == w.log[n] && Reached(p, n, takes[i].index);
      assert Reached(p', n, takes[i].index) && w'.log[n] == w.log[n];
    }
  }

  // ---- Each kind of step ----

  /** A step of the lifetime that takes nothing. */
  lemma {:induction false} NothingTaken(o: Settings, s: Watched, p: Proc, s': Watched, p': Proc)
    requires Good1(o, s) && s.w.proc == Some(p) && s'.w.proc == Some(p') && s'.takes == s.takes && p'.seen == p.seen
    requires s.w.log <= s'.w.log && IdsAscend(s'.w) && LivesOk(s'.w) && InMemory(s'.w, p', s.takes) && p.pos <= p'.pos
    requires forall n, i {:trigger Reached(p, n, i)} :: 0 <= n && 0 <= i && Reached(p, n, i) ==> Reached(p', n, i)
    ensures Good1(o, s')
  {
    StillPlaced(s.w, p, s.takes, s'.w, p');
  }

  /** The event that is taken: its row, and that the filter did not know its key. */
  ghost predicate TakesNew(o: Settings, w: World, p: Proc, row: Row, p': Proc) {
    && p.pc.Working? && 0 < p.pos <= |w.log| && row.rec == w.log[p.pos - 1] && row.index == p.pc.at
    && row.event.project == ProjectIn(row.rec.bytes)
    && p'.pc == Appending(row, false) && p' == p.(pc := p'.pc, seen := p'.seen)
    && (if HasId(row) then !Known(p.seen, RowKey(row))
      && p'.seen == Accept(o.cap, p.seen, RowKey(row)) else p'.seen == p.seen)
  }

  lemma {:induction false} NewTaken(o: Settings, s: Watched, p: Proc, row: Row, s': Watched, p': Proc)
    requires Good1(o, s) && s.w.proc == Some(p) && TakesNew(o, s.w, p, row, p')
    requires s'.w == s.w.(proc := Some(p')) && s'.takes == s.takes + [row]
    ensures Good1(o, s')
  {
    TakenIsLater(s.w, p, s.takes, row);
    AscendingSnoc(s.takes, row);
    forall i | 0 <= i < |s.takes| && SameEvent(s.takes[i], row)
      ensures WithId(s.takes, i + 1, |s.takes|) >= o.cap
    {
      if o.cap > 0 {
        NewIsFar(o.cap, s.takes, p.seen, row, i);
      }
    }
    FarSnoc(o.cap, s.takes, row);
    if o.cap > 0 {
      SeenSnoc(o.cap, s.takes, p.seen, row, p'.seen);
    }
    NewPlaced(s.w, p, s.takes, row, s'.w, p');
    NewInMemory(s.w, p, s.takes, row, s'.w, p');
  }

  lemma {:induction false} NewPlaced(w: World, p: Proc, takes: seq<Row>, row: Row, w': World, p': Proc)
    requires AllPlaced(w, p, takes) && p.pc.Working? && 0 < p.pos <= |w.log| && row.rec == w.log[p.pos - 1]
    requires p'.pc == Appending(row, false) && p'.pos == p.pos && row.index == p.pc.at && w'.log == w.log
    ensures AllPlaced(w', p', takes + [row])
  {
    StillPlaced(w, p, takes, w', p');
    assert Reached(p', p.pos - 1, row.index);
    assert Placed(w', p', row);
  }

  lemma {:induction false} NewInMemory(w: World, p: Proc, takes: seq<Row>, row: Row, w': World, p': Proc)
    requires InMemory(w, p, takes) && p.pc.Working? && 0 < p.pos <= |w.log| && row.rec == w.log[p.pos - 1]
    requires forall i :: 0 <= i < |takes| ==> Later(takes[i], row)
    requires p' == p.(pc := Appending(row, false), seen := p'.seen) && w' == w.(proc := Some(p'))
    ensures InMemory(w', p', takes + [row])
  {
    assert Memory(p) == p.buf && Memory(p') == p.buf + [row];
    AscendingSnoc(p.buf, row);
    assert OwnDisk(w') == OwnDisk(w);
    assert (takes + [row])[|takes|] == row;
  }

  lemma {:induction false} HandleWatched(o: Settings, s: Watched, now: int, s': Watched)
    requires Good1(o, s) && Watching(o)(s, Handle(now), s')
    ensures Good1(o, s')
  {
    var p, p' := s.w.proc.value, s'.w.proc.value;
    if p'.pc.Appending? {
      NewTaken(o, s, p, p'.pc.row, s', p');
    } else {
      assert Memory(p') == Memory(p) && OwnDisk(s'.w) == OwnDisk(s.w);
      NothingTaken(o, s, p, s', p');
    }
  }

  /** Rows stay in memory in their order, or leave its ends; what is written was there. */
  lemma {:induction false} StaysInMemory(w: World, p: Proc, takes: seq<Row>, w': World, p': Proc)
    requires InMemory(w, p, takes) && w.log <= w'.log
    requires exists i, j :: 0 <= i <= j <= |Memory(p)| && Memory(p') == Memory(p)[i..j]
    requires forall r :: r in OwnDisk(w') ==> r in OwnDisk(w) || r in Memory(p)
    requires Taken(p'.pc).Some? ==> Taken(p'.pc) == Taken(p.pc) && p'.pos == p.pos
    ensures InMemory(w', p', takes)
  {
    var i, j :| 0 <= i <= j <= |Memory(p)| && Memory(p') == Memory(p)[i..j];
    SliceAscends(Memory(p), takes, i, j);
  }

  lemma {:induction false} SliceAscends(rows: seq<Row>, takes: seq<Row>, i: nat, j: nat)
    requires i <= j <= |rows| && Ascending(rows) && forall k :: 0 <= k < |rows| ==> rows[k] in takes
    ensures Ascending(rows[i..j]) && forall k :: 0 <= k < |rows[i..j]| ==> rows[i..j][k] in takes
  {
  }

  lemma {:induction false} Whole(s: seq<Row>)
    ensures s[0..|s|] == s
  {
  }

  /** A step that leaves the rows where they are. */
  lemma {:induction false} SameMemory(o: Settings, s: Watched, p: Proc, s': Watched, p': Proc)
    requires Good1(o, s) && s.w.proc == Some(p) && s'.w == s.w.(proc := Some(p'), committed := s'.w.committed)
    requires s'.takes == s.takes && p'.seen == p.seen && p.pos <= p'.pos && Memory(p') == Memory(p)
    requires Taken(p'.pc).Some? ==> Taken(p'.pc) == Taken(p.pc) && p'.pos == p.pos
    requires forall n, i {:trigger Reached(p, n, i)} :: 0 <= n && 0 <= i && Reached(p, n, i) ==> Reached(p', n, i)
    ensures Good1(o, s')
  {
    assert OwnDisk(s'.w) == OwnDisk(s.w);
    Whole(Memory(p));
    StaysInMemory(s.w, p, s.takes, s'.w, p');
    NothingTaken(o, s, p, s', p');
  }

  lemma {:induction false} ReadWatched(o: Settings, s: Watched, s': Watched)
    requires Good1(o, s) && Watching(o)(s, Read, s')
    ensures Good1(o, s')
  {
    var p, p' := s.w.proc.value, s'.w.proc.value;
    assert Memory(p') == Memory(p);
    SameMemory(o, s, p, s', p');
  }

  lemma {:induction false} StoreWatched(o: Settings, s: Watched, s': Watched)
    requires Good1(o, s) && Watching(o)(s, Store, s')
    ensures Good1(o, s')
  {
    var p, p' := s.w.proc.value, s'.w.proc.value;
    assert Memory(p') == Memory(p);
    SameMemory(o, s, p, s', p');
  }

  lemma {:induction false} AbandonWatched(o: Settings, s: Watched, s': Watched)
    requires Good1(o, s) && Watching(o)(s, Abandon, s')
    ensures Good1(o, s')
  {
    var p, p' := s.w.proc.value, s'.w.proc.value;
    assert OwnDisk(s'.w) == OwnDisk(s.w);
    assert Memory(p') == Memory(p)[0..|p.buf|];
    StaysInMemory(s.w, p, s.takes, s'.w, p');
    NothingTaken(o, s, p, s', p');
  }

  lemma {:induction false} PartInMemory(rows: seq<Row>, k: Key, r: Row)
    requires r in PartIn(rows, k)
    ensures r in rows
  {
  }

  lemma {:induction false} WriteWatched(o: Settings, s: Watched, k: Key, minTs: int, s': Watched)
    requires Good1(o, s) && Watching(o)(s, WritePart(k, minTs), s')
    ensures Good1(o, s')
  {
    var p, p' := s.w.proc.value, s'.w.proc.value;
    forall r | r in OwnDisk(s'.w)
      ensures r in OwnDisk(s.w) || r in Memory(p)
    {
      var x :| x in s'.w.disk && s'.w.disk[x].life == s'.w.life && r in s'.w.disk[x].rows;
      if x == PathFor(p, k, minTs) {
        PartInMemory(p.pc.rows, k, r);
      }
    }
    assert Memory(p') == Memory(p);
    Whole(Memory(p));
    StaysInMemory(s.w, p, s.takes, s'.w, p');
    NothingTaken(o, s, p, s', p');
  }

  /** The steps of a commit that leave the disk as it is. */
  lemma {:induction false} CommitWatched(o: Settings, s: Watched, a: Action, s': Watched)
    requires Good1(o, s) && Watching(o)(s, a, s') && (a.BeginCommit? || a.Commit? || a.FailCommit?)
    ensures Good1(o, s')
  {
    var p, p' := s.w.proc.value, s'.w.proc.value;
    assert Memory(p') == Memory(p);
    SameMemory(o, s, p, s', p');
  }

  /** A flush puts its rows back, or lets them go. */
  lemma {:induction false} FailWatched(o: Settings, s: Watched, counted: bool, s': Watched)
    requires Good1(o, s) && Watching(o)(s, FailFlush(counted), s')
    ensures Good1(o, s')
  {
    var p, p' := s.w.proc.value, s'.w.proc.value;
    assert Memory(p') == Memory(p);
    SameMemory(o, s, p, s', p');
  }

  lemma {:induction false} EndWatched(o: Settings, s: Watched, s': Watched)
    requires Good1(o, s) && Watching(o)(s, EndFlush, s')
    ensures Good1(o, s')
  {
    var p, p' := s.w.proc.value, s'.w.proc.value;
    assert OwnDisk(s'.w) == OwnDisk(s.w);
    assert Memory(p') == Memory(p)[|p.pc.rows|..|Memory(p)|];
    StaysInMemory(s.w, p, s.takes, s'.w, p');
    NothingTaken(o, s, p, s', p');
  }

  lemma {:induction false} GrownWatched(o: Settings, s: Watched, p: Proc, s': Watched)
    requires Good1(o, s) && s.w.proc == Some(p) && s'.w.proc == Some(p) && s'.takes == s.takes
    requires s.w.log <= s'.w.log && OwnDisk(s'.w) == OwnDisk(s.w) && IdsAscend(s'.w) && LivesOk(s'.w)
    ensures Good1(o, s')
  {
    Whole(Memory(p));
    StaysInMemory(s.w, p, s.takes, s'.w, p);
    NothingTaken(o, s, p, s', p);
  }

  lemma {:induction false} OutsideWatched(o: Settings, s: Watched, a: Action, s': Watched)
    requires Good1(o, s) && Watching(o)(s, a, s') && (a.Submit? || a.Ack? || a.Retain? || a.Lose? || a.Start?)
    ensures Good1(o, s')
  {
    if a.Start? {
      StartWatched(o, s, s');
    } else if s.w.proc.Some? && !a.Lose? {
      var p := s.w.proc.value;
      assert OwnDisk(s'.w) == OwnDisk(s.w);
      GrownWatched(o, s, p, s');
    }
  }

  lemma {:induction false} StartWatched(o: Settings, s: Watched, s': Watched)
    requires Good1(o, s) && Watching(o)(s, Start, s')
    ensures Good1(o, s')
  {
    assert OwnDisk(s'.w) == {};
    assert Memory(s'.w.proc.value) == [];
    assert KeysTo([], 0) == [] && Split(o.cap, History([], Fresh()), 0, 0);
  }

  lemma {:induction false} StepWatched(o: Settings, s: Watched, a: Action, s': Watched)
    requires Good1(o, s) && Watching(o)(s, a, s')
    ensures Good1(o, s')
  {
    match a
    case Read => ReadWatched(o, s, s');
    case Handle(now) => HandleWatched(o, s, now, s');
    case Store => StoreWatched(o, s, s');
    case Abandon => AbandonWatched(o, s, s');
    case WritePart(k, minTs) => WriteWatched(o, s, k, minTs, s');
    case BeginCommit => CommitWatched(o, s, a, s');
    case FailFlush(counted) => FailWatched(o, s, counted, s');
    case EndFlush => EndWatched(o, s, s');
    case Commit => CommitWatched(o, s, a, s');
    case FailCommit => CommitWatched(o, s, a, s');
    case _ => OutsideWatched(o, s, a, s');
  }

  lemma {:induction false} RunWatched(o: Settings, s: Watched, acts: seq<Action>, s': Watched)
    requires Good1(o, s) && Run(Watching(o), s, acts, s')
    ensures Good1(o, s')
    decreases |acts|
  {
    if acts != [] {
      var m :| Watching(o)(s, acts[0], m) && Run(Watching(o), m, acts[1..], s');
      StepWatched(o, s, acts[0], m);
      RunWatched(o, m, acts[1..], s');
    }
  }

  // ---- What follows ----

  /** In every run, spared or not: if a lifetime takes two rows of one event, it took at least `cap` rows with an id
      between them. What it has in memory are rows it took, each once and in order, and so are those in its files. */
  lemma {:induction false} DuplicatesAreFar(o: Settings, w: World, acts: seq<Action>, s': Watched)
    requires IdsAscend(w) && LivesOk(w) && w.proc.None? && Run(Watching(o), Watched(w, []), acts, s')
    ensures Far(o.cap, s'.takes) && Ascending(s'.takes)
    ensures s'.w.proc.Some? ==>
      && Ascending(Memory(s'.w.proc.value))
      && (forall i :: 0 <= i < |Memory(s'.w.proc.value)| ==> Memory(s'.w.proc.value)[i] in s'.takes)
      && (forall r :: r in OwnDisk(s'.w) ==> r in s'.takes)
  {
    RunWatched(o, Watched(w, []), acts, s');
    if s'.w.proc.None? {
      LastWatch(o, Watched(w, []), acts, s');
    }
  }

  lemma {:induction false} LastWatch(o: Settings, s: Watched, acts: seq<Action>, s': Watched)
    requires (s.w.proc.None? ==> s.takes == []) && Run(Watching(o), s, acts, s') && s'.w.proc.None?
    ensures s'.takes == []
    decreases |acts|
  {
    if acts != [] {
      var m :| Watching(o)(s, acts[0], m) && Run(Watching(o), m, acts[1..], s');
      LastWatch(o, m, acts[1..], s');
    }
  }

  /** While a lifetime has taken no more than `cap` rows with an id, its flush, buffer, append loop and files hold one
      row of each event. */
  lemma {:induction false} OneRowPerEvent(o: Settings, w: World, acts: seq<Action>, s': Watched, r: Row, t: Row)
    requires IdsAscend(w) && LivesOk(w) && w.proc.None? && Run(Watching(o), Watched(w, []), acts, s') && s'.w.proc.Some?
    requires WithId(s'.takes, 0, |s'.takes|) <= o.cap
    requires r in OwnDisk(s'.w) || r in Memory(s'.w.proc.value)
    requires t in OwnDisk(s'.w) || t in Memory(s'.w.proc.value)
    requires SameEvent(r, t)
    ensures r == t
  {
    DuplicatesAreFar(o, w, acts, s');
    var i :| 0 <= i < |s'.takes| && s'.takes[i] == r;
    var j :| 0 <= j < |s'.takes| && s'.takes[j] == t;
    if i < j {
      TooFar(o.cap, s'.takes, i, j);
    } else if j < i {
      TooFar(o.cap, s'.takes, j, i);
    }
  }

  lemma {:induction false} WithIdOne(rows: seq<Row>, i: nat)
    requires i < |rows| && HasId(rows[i])
    ensures WithId(rows, i, i + 1) == 1
  {
  }

  lemma {:induction false} WithIdWithin(rows: seq<Row>, i: nat, j: nat)
    requires i <= j <= |rows|
    ensures WithId(rows, i, j) <= WithId(rows, 0, |rows|)
  {
    WithIdAdds(rows, 0, i, j);
    WithIdAdds(rows, 0, j, |rows|);
  }

  lemma {:induction false} WithIdAround(rows: seq<Row>, i: nat, j: nat)
    requires i < j < |rows| && HasId(rows[i]) && HasId(rows[j])
    ensures WithId(rows, i, j + 1) == WithId(rows, i + 1, j) + 2
  {
    WithIdOne(rows, i);
    WithIdAdds(rows, i, i + 1, j);
  }

  lemma {:induction false} TooFar(cap: nat, takes: seq<Row>, i: nat, j: nat)
    requires Far(cap, takes) && i < j < |takes| && SameEvent(takes[i], takes[j])
    ensures WithId(takes, 0, |takes|) >= cap + 2
  {
    WithIdAround(takes, i, j);
    WithIdWithin(takes, i, j + 1);
  }
}
