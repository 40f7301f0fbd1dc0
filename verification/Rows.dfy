/** Rows, queries and segments of the event store (internal/eventstore/query.go, store.go). */
module Rows {
  import opened Base
  import opened Bytes

  datatype Event = Event(eventId: string, project: int, ts: int, level: string, fingerprint: string, release: string,
                         environment: string, userId: string, message: string, payload: seq<Byte>)

  /** 0 and "" mean "no constraint", except for the project, which is required. */
  datatype Query = Query(project: int, timeMin: int, timeMax: int, level: string, fingerprint: string, release: string,
                         environment: string, userId: string, limit: int)

  predicate Match(q: Query, e: Event) {
    && e.project == q.project
    && (q.timeMin != 0 ==> e.ts >= q.timeMin)
    && (q.timeMax != 0 ==> e.ts <= q.timeMax)
    && (|q.level| > 0 ==> e.level == q.level)
    && (|q.fingerprint| > 0 ==> e.fingerprint == q.fingerprint)
    && (|q.release| > 0 ==> e.release == q.release)
    && (|q.environment| > 0 ==> e.environment == q.environment)
    && (|q.userId| > 0 ==> e.userId == q.userId)
  }

  /** No constraint, or that value. */
  predicate Asks(want: string, have: string) {
    want == "" || have == want
  }

  /** A row matches exactly when it is of the project, within the times, both included, and has every value asked
      for. */
  lemma {:induction false} MatchIff(q: Query, e: Event)
    ensures Match(q, e) <==>
      && e.project == q.project && (q.timeMin == 0 || q.timeMin <= e.ts) && (q.timeMax == 0 || e.ts <= q.timeMax)
      && Asks(q.level, e.level) && Asks(q.fingerprint, e.fingerprint) && Asks(q.release, e.release)
      && Asks(q.environment, e.environment) && Asks(q.userId, e.userId)
  {
  }

  /** A segment's file name: its partition, its first timestamp, and the number of the write. */
  datatype Path = Path(project: int, hour: int, minTs: int, number: nat)

  datatype SegMeta = SegMeta(path: Path, project: int, hour: int, minTs: int, maxTs: int, rows: nat)

  /** A row group: its pages, whether it has a column index, and its Bloom filters as the sets of values they
      answer "maybe" for. */
  datatype RowGroup = RowGroup(pages: seq<seq<Event>>, indexed: bool, fingerprints: Option<set<string>>,
                               releases: Option<set<string>>, users: Option<set<string>>)

  /** An immutable segment file; the timestamp bounds and the user sketch are in its footer. */
  datatype Segment = Segment(groups: seq<RowGroup>, minTs: int, maxTs: int, sketch: seq<nat>)

  // ---- Concatenation and filtering, by index ----

  function Concat<T>(parts: seq<seq<T>>, n: nat): seq<T>
    requires n <= |parts|
  {
    if n == 0 then [] else Concat(parts, n - 1) + parts[n - 1]
  }

  function GroupRows(g: RowGroup): seq<Event> {
    Concat(g.pages, |g.pages|)
  }

  function RowsOf(groups: seq<RowGroup>, n: nat): seq<Event>
    requires n <= |groups|
  {
    if n == 0 then [] else RowsOf(groups, n - 1) + GroupRows(groups[n - 1])
  }

  function SegRows(s: Segment): seq<Event> {
    RowsOf(s.groups, |s.groups|)
  }

  function FilterTo(q: Query, rows: seq<Event>, n: nat): seq<Event>
    requires n <= |rows|
  {
    if n == 0 then []
    else if Match(q, rows[n - 1]) then FilterTo(q, rows, n - 1) + [rows[n - 1]]
    else FilterTo(q, rows, n - 1)
  }

  /** The plain filter a query stands for. */
  function Filter(q: Query, rows: seq<Event>): seq<Event> {
    FilterTo(q, rows, |rows|)
  }

  function Take<T>(s: seq<T>, n: nat): seq<T> {
    if |s| <= n then s else s[..n]
  }

  lemma {:induction false} FilterToFrame(q: Query, a: seq<Event>, b: seq<Event>, n: nat)
    requires n <= |a|
    ensures FilterTo(q, a + b, n) == FilterTo(q, a, n)
  {
    if n > 0 {
      FilterToFrame(q, a, b, n - 1);
    }
  }

  lemma {:induction false} FilterConcatTo(q: Query, a: seq<Event>, b: seq<Event>, n: nat)
    requires n <= |b|
    ensures FilterTo(q, a + b, |a| + n) == Filter(q, a) + FilterTo(q, b, n)
  {
    if n == 0 {
      FilterToFrame(q, a, b, |a|);
    } else {
      FilterConcatTo(q, a, b, n - 1);
      assert (a + b)[|a| + n - 1] == b[n - 1];
    }
  }

  lemma {:induction false} FilterConcat(q: Query, a: seq<Event>, b: seq<Event>)
    ensures Filter(q, a + b) == Filter(q, a) + Filter(q, b)
  {
    FilterConcatTo(q, a, b, |b|);
  }

  /** The filter keeps the rows that match, each once and in order. */
  lemma {:induction false} FilterPicks(q: Query, rows: seq<Event>, n: nat) returns (at: seq<nat>)
    requires n <= |rows|
    ensures |at| == |FilterTo(q, rows, n)| && forall i, j :: 0 <= i < j < |at| ==> at[i] < at[j]
    ensures forall i :: 0 <= i < |at| ==> at[i] < n && Match(q, rows[at[i]]) && FilterTo(q, rows, n)[i] == rows[at[i]]
    ensures forall j :: 0 <= j < n && Match(q, rows[j]) ==> j in at
  {
    if n == 0 {
      at := [];
    } else {
      var prev := FilterPicks(q, rows, n - 1);
      if Match(q, rows[n - 1]) {
        at := prev + [n - 1];
        assert at[|prev|] == n - 1;
        forall j | 0 <= j < n && Match(q, rows[j])
          ensures j in at
        {
          assert j < n - 1 ==> j in prev;
        }
      } else {
        at := prev;
      }
    }
  }

  lemma {:induction false} FilterNone(q: Query, rows: seq<Event>, n: nat)
    requires n <= |rows| && forall i :: 0 <= i < n ==> !Match(q, rows[i])
    ensures FilterTo(q, rows, n) == []
  {
    if n > 0 {
      FilterNone(q, rows, n - 1);
    }
  }

  /** Stopping at the limit in two stages is stopping at the limit once. */
  lemma {:induction false} TakeTwice<T>(a: seq<T>, b: seq<T>, n: nat)
    ensures |Take(a, n)| <= n
    ensures Take(a, n) + Take(b, n - |Take(a, n)|) == Take(a + b, n)
  {
  }

  // ---- What pruning relies on ----

  predicate Sorted(rows: seq<Event>) {
    forall i, j :: 0 <= i < j < |rows| ==> rows[i].ts <= rows[j].ts
  }

  predicate MayHold(filter: Option<set<string>>, v: string) {
    filter.None? || v in filter.value
  }

  /** Bloom filters have no false negatives; pages are not empty. */
  ghost predicate GroupOk(g: RowGroup) {
    && (forall p :: 0 <= p < |g.pages| ==> g.pages[p] != [])
    && (forall i :: 0 <= i < |GroupRows(g)| ==>
          && MayHold(g.fingerprints, GroupRows(g)[i].fingerprint)
          && MayHold(g.releases, GroupRows(g)[i].release)
          && MayHold(g.users, GroupRows(g)[i].userId))
  }

  ghost predicate SegmentOk(s: Segment) {
    Sorted(SegRows(s)) && forall g :: 0 <= g < |s.groups| ==> GroupOk(s.groups[g])
  }

  /** The manifest entry describes the segment: its project's rows only, inside the timestamp bounds. */
  ghost predicate Describes(m: SegMeta, s: Segment) {
    forall i :: 0 <= i < |SegRows(s)| ==> SegRows(s)[i].project == m.project && m.minTs <= SegRows(s)[i].ts <= m.maxTs
  }

  predicate SegmentMayMatch(q: Query, m: SegMeta) {
    && m.project == q.project
    && (q.timeMin != 0 ==> m.maxTs >= q.timeMin)
    && (q.timeMax != 0 ==> m.minTs <= q.timeMax)
  }

  lemma {:induction false} PrunedSegmentIsEmpty(q: Query, m: SegMeta, s: Segment)
    requires Describes(m, s) && !SegmentMayMatch(q, m)
    ensures Filter(q, SegRows(s)) == []
  {
    forall i | 0 <= i < |SegRows(s)|
      ensures !Match(q, SegRows(s)[i])
    {
      var e := SegRows(s)[i];
      assert e.project == m.project && m.minTs <= e.ts <= m.maxTs;
    }
    FilterNone(q, SegRows(s), |SegRows(s)|);
  }

  /** The query asks for this time. */
  predicate AsksTime(q: Query, t: int) {
    (q.timeMin == 0 || q.timeMin <= t) && (q.timeMax == 0 || t <= q.timeMax)
  }

  ghost predicate SomeTime(q: Query, lo: int, hi: int) {
    exists t :: lo <= t <= hi && AsksTime(q, t)
  }

  /** A segment is opened only when it is the project's and some time within its bounds is asked for: pruning is as
      sharp as the bounds allow. The window must not be empty. */
  lemma {:induction false} OpenedIff(q: Query, m: SegMeta)
    requires m.minTs <= m.maxTs && (q.timeMin != 0 && q.timeMax != 0 ==> q.timeMin <= q.timeMax)
    ensures SegmentMayMatch(q, m) <==> m.project == q.project && SomeTime(q, m.minTs, m.maxTs)
  {
    var t := if q.timeMin != 0 && m.minTs < q.timeMin then q.timeMin else m.minTs;
    if SegmentMayMatch(q, m) {
      assert m.minTs <= t <= m.maxTs && AsksTime(q, t);
    }
  }

  function MinTs(rows: seq<Event>, n: nat): int
    requires 0 < n <= |rows|
  {
    if n == 1 then rows[0].ts else if rows[n - 1].ts < MinTs(rows, n - 1) then rows[n - 1].ts else MinTs(rows, n - 1)
  }

  function MaxTs(rows: seq<Event>, n: nat): int
    requires 0 < n <= |rows|
  {
    if n == 1 then rows[0].ts else if rows[n - 1].ts > MaxTs(rows, n - 1) then rows[n - 1].ts else MaxTs(rows, n - 1)
  }

  /** The row-group test: first page minimum against the upper bound, last page maximum against the lower. */
  predicate TimePruned(q: Query, g: RowGroup)
    requires forall p :: 0 <= p < |g.pages| ==> g.pages[p] != []
  {
    && (q.timeMin != 0 || q.timeMax != 0)
    && g.indexed && |g.pages| > 0
    && (var first, last := g.pages[0], g.pages[|g.pages| - 1];
        || (q.timeMax != 0 && MinTs(first, |first|) > q.timeMax)
        || (q.timeMin != 0 && MaxTs(last, |last|) < q.timeMin))
  }

  predicate BloomPruned(q: Query, g: RowGroup) {
    || (|q.fingerprint| > 0 && !MayHold(g.fingerprints, q.fingerprint))
    || (|q.release| > 0 && !MayHold(g.releases, q.release))
    || (|q.userId| > 0 && !MayHold(g.users, q.userId))
  }

  lemma {:induction false} MinIsFirst(rows: seq<Event>, n: nat)
    requires 0 < n <= |rows| && Sorted(rows)
    ensures MinTs(rows, n) == rows[0].ts && MaxTs(rows, n) == rows[n - 1].ts
  {
    if n > 1 {
      MinIsFirst(rows, n - 1);
    }
  }

  lemma {:induction false} SortedSlice(rows: seq<Event>, a: nat, part: seq<Event>)
    requires Sorted(rows) && a + |part| <= |rows| && rows[a..a + |part|] == part
    ensures Sorted(part)
  {
  }

  /** Where the first and last pages sit in the group's rows. */
  lemma {:induction false} FirstPage(pages: seq<seq<Event>>, n: nat)
    requires 0 < n <= |pages|
    ensures pages[0] <= Concat(pages, n)
  {
    if n > 1 {
      FirstPage(pages, n - 1);
    } else {
      assert Concat(pages, 1) == Concat(pages, 0) + pages[0] == pages[0];
    }
  }

  /** In a sorted group the first page holds the earliest row and the last page the latest. */
  lemma {:induction false} PageBounds(g: RowGroup)
    requires GroupOk(g) && Sorted(GroupRows(g)) && |g.pages| > 0
    ensures var rows, first, last := GroupRows(g), g.pages[0], g.pages[|g.pages| - 1];
      |rows| > 0 && MinTs(first, |first|) == rows[0].ts && MaxTs(last, |last|) == rows[|rows| - 1].ts
  {
    var rows, n := GroupRows(g), |g.pages|;
    var first, last := g.pages[0], g.pages[n - 1];
    FirstPage(g.pages, n);
    assert rows == Concat(g.pages, n - 1) + last;
    SortedSlice(rows, 0, first);
    SortedSlice(rows, |rows| - |last|, last);
    MinIsFirst(first, |first|);
    MinIsFirst(last, |last|);
  }

  lemma {:induction false} TimePrunedIsEmpty(q: Query, g: RowGroup)
    requires GroupOk(g) && Sorted(GroupRows(g)) && TimePruned(q, g)
    ensures Filter(q, GroupRows(g)) == []
  {
    var rows := GroupRows(g);
    PageBounds(g);
    forall i | 0 <= i < |rows|
      ensures !Match(q, rows[i])
    {
      assert rows[0].ts <= rows[i].ts <= rows[|rows| - 1].ts;
    }
    FilterNone(q, rows, |rows|);
  }

  /** And so is the reading of row groups: one with a column index is skipped exactly when no time between its first row
      and its last is asked for, and any one exactly when a filter rules out a value asked for. */
  lemma {:induction false} GroupSkippedIff(q: Query, g: RowGroup)
    requires GroupOk(g) && Sorted(GroupRows(g)) && g.indexed && |g.pages| > 0
    requires q.timeMin != 0 && q.timeMax != 0 ==> q.timeMin <= q.timeMax
    ensures |GroupRows(g)| > 0
    ensures TimePruned(q, g) <==> !SomeTime(q, GroupRows(g)[0].ts, GroupRows(g)[|GroupRows(g)| - 1].ts)
  {
    PageBounds(g);
    var rows := GroupRows(g);
    var lo, hi := rows[0].ts, rows[|rows| - 1].ts;
    var t := if q.timeMin != 0 && lo < q.timeMin then q.timeMin else lo;
    if !TimePruned(q, g) {
      assert lo <= t <= hi && AsksTime(q, t);
    }
  }

  /** The filter of a column, if there is one, does not hold the value asked for. */
  predicate RulesOut(filter: Option<set<string>>, v: string) {
    v != "" && filter.Some? && v !in filter.value
  }

  lemma {:induction false} BloomSkippedIff(q: Query, g: RowGroup)
    ensures BloomPruned(q, g) <==>
      RulesOut(g.fingerprints, q.fingerprint) || RulesOut(g.releases, q.release) || RulesOut(g.users, q.userId)
  {
  }

  lemma {:induction false} BloomPrunedIsEmpty(q: Query, g: RowGroup)
    requires GroupOk(g) && BloomPruned(q, g)
    ensures Filter(q, GroupRows(g)) == []
  {
    var rows := GroupRows(g);
    FilterNone(q, rows, |rows|);
  }

  lemma {:induction false} GroupSorted(groups: seq<RowGroup>, n: nat, g: nat)
    requires g < n <= |groups| && Sorted(RowsOf(groups, n))
    ensures Sorted(GroupRows(groups[g]))
  {
    var rows, before := RowsOf(groups, n), RowsOf(groups, n - 1);
    if g == n - 1 {
      SortedSlice(rows, |before|, GroupRows(groups[g]));
    } else {
      SortedSlice(rows, 0, before);
      GroupSorted(groups, n - 1, g);
    }
  }
}
