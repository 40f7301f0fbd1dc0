/** Issue merge and split (internal/metadata/issues.go): a flattened union structure with lifecycle and
    counters, changed by serialised transactions. */
module Issues {

  datatype Status = Unresolved | Resolved | Ignored | Regressed

  /** mergedInto is 0 for an issue that is not merged. */
  datatype Issue = Issue(org: int, project: int, fingerprint: string, basis: string, title: string, level: string,
                         status: Status, firstSeen: int, lastSeen: int, timesSeen: nat, mergedInto: nat)

  /** The issues table; rows are never deleted, so row number i has id i + 1. */
  type Table = seq<Issue>

  datatype Hit = Hit(org: int, project: int, fingerprint: string, basis: string, title: string, level: string,
    seenAt: int)

  datatype Outcome = Outcome(id: nat, isNew: bool, regressed: bool, timesSeen: nat, status: Status)

  datatype Error = BadRequest | NotFound | SelfMerge

  datatype Result<T> = Ok(value: T) | Err(error: Error)

  predicate Has(t: Table, id: nat) {
    1 <= id <= |t|
  }

  function Row(t: Table, id: nat): Issue
    requires Has(t, id)
  {
    t[id - 1]
  }

  function Put(t: Table, id: nat, row: Issue): Table
    requires Has(t, id)
  {
    t[id - 1 := row]
  }

  /** The lookup by (project, fingerprint); 0 when there is none. */
  function Find(t: Table, project: int, fingerprint: string): (id: nat)
    ensures id == 0 || (Has(t, id) && Row(t, id).project == project && Row(t, id).fingerprint == fingerprint)
    ensures id == 0 ==> forall i :: 0 <= i < |t| ==> t[i].project != project || t[i].fingerprint != fingerprint
  {
    if t == [] then 0
    else
      var id := Find(t[..|t| - 1], project, fingerprint);
      if id != 0 then id
      else if t[|t| - 1].project == project && t[|t| - 1].fingerprint == fingerprint then |t| else 0
  }

  /** Where an issue's hits are counted. */
  function Root(t: Table, id: nat): nat
    requires Has(t, id)
  {
    if Row(t, id).mergedInto == 0 then id else Row(t, id).mergedInto
  }

  // ---- The transactions ----

  function Max(a: int, b: int): int { if a > b then a else b }

  function Bump(row: Issue, u: Hit): Issue {
    row.(lastSeen := Max(row.lastSeen, u.seenAt), timesSeen := row.timesSeen + 1, level := u.level,
         status := if row.status == Resolved then Regressed else row.status)
  }

  function NewIssue(u: Hit): Issue {
    Issue(u.org, u.project, u.fingerprint, u.basis, u.title, u.level, Unresolved, u.seenAt, u.seenAt, 1, 0)
  }

  function Upsert(t: Table, u: Hit): Result<(Table, Outcome)> {
    if u.project == 0 || u.fingerprint == "" then Err(BadRequest)
    else
      var id := Find(t, u.project, u.fingerprint);
      if id == 0 then Ok((t + [NewIssue(u)], Outcome(|t| + 1, true, false, 1, Unresolved)))
      else
        var target := Root(t, id);
        if !Has(t, target) then Err(NotFound)
        else
          var row := Row(t, target);
          var row' := Bump(row, u);
          Ok((Put(t, target, row'), Outcome(target, false, row.status == Resolved, row'.timesSeen, row'.status)))
  }

  /** UPDATE issues SET merged_into = to WHERE merged_into = from AND project_id = project. */
  function Repoint(t: Table, project: int, from: nat, to: nat): (r: Table)
    ensures |r| == |t|
    ensures forall i :: 0 <= i < |t| ==>
      r[i] == if t[i].mergedInto == from && t[i].project == project then t[i].(mergedInto := to) else t[i]
  {
    seq(|t|, i requires 0 <= i < |t| =>
      if t[i].mergedInto == from && t[i].project == project then t[i].(mergedInto := to) else t[i])
  }

  predicate InProject(t: Table, id: nat, project: int) {
    Has(t, id) && Row(t, id).project == project
  }

  /** One source: point it at the target, flatten, add its count. */
  function MergeOne(t: Table, project: int, target: nat, src: nat): (r: Table)
    requires Has(t, target) && Has(t, src)
    ensures |r| == |t|
  {
    var count := Row(t, src).timesSeen;
    var t1 := Put(t, src, Row(t, src).(mergedInto := target));
    var t2 := Repoint(t1, project, src, target);
    Put(t2, target, Row(t2, target).(timesSeen := Row(t2, target).timesSeen + count))
  }

  function MergeSources(t: Table, project: int, target: nat, srcs: seq<nat>): (r: Result<Table>)
    requires Has(t, target)
    ensures r.Ok? ==> |r.value| == |t|
    decreases |srcs|
  {
    if srcs == [] then Ok(t)
    else if srcs[0] == target then Err(SelfMerge)
    else if !InProject(t, srcs[0], project) then Err(NotFound)
    else MergeSources(MergeOne(t, project, target, srcs[0]), project, target, srcs[1..])
  }

  function Merge(t: Table, project: int, target: nat, srcs: seq<nat>): Result<Table> {
    if !InProject(t, target, project) || Row(t, target).mergedInto != 0 then Err(NotFound)
    else MergeSources(t, project, target, srcs)
  }

  function Split(t: Table, project: int, src: nat): Result<Table> {
    if !InProject(t, src, project) || Row(t, src).mergedInto == 0 then Err(NotFound)
    else Ok(Put(t, src, Row(t, src).(mergedInto := 0, status := Unresolved)))
  }

  function SetStatus(t: Table, project: int, id: nat, status: Status): Result<Table> {
    if status == Regressed then Err(BadRequest)
    else if !InProject(t, id, project) then Err(NotFound)
    else Ok(Put(t, id, Row(t, id).(status := status)))
  }

  // ---- The invariant: one hop, inside the project ----

  ghost predicate EdgeOk(t: Table, row: Issue) {
    row.mergedInto != 0 ==> InProject(t, row.mergedInto, row.project) && Row(t, row.mergedInto).mergedInto == 0
  }

  ghost predicate Flat(t: Table) {
    forall i :: 0 <= i < |t| ==> EdgeOk(t, t[i])
  }

  ghost predicate Counted(t: Table) {
    forall i :: 0 <= i < |t| ==> t[i].timesSeen >= 1 && t[i].firstSeen <= t[i].lastSeen
  }

  function Key(row: Issue): (int, string) {
    (row.project, row.fingerprint)
  }

  ghost predicate Unique(t: Table) {
    forall i, j :: 0 <= i < j < |t| ==> Key(t[i]) != Key(t[j])
  }

  ghost predicate Valid(t: Table) {
    Flat(t) && Counted(t) && Unique(t)
  }

  /** t' differs from t in no field that the invariant looks at. */
  ghost predicate SameShape(t: Table, t': Table) {
    && |t'| == |t|
    && forall i :: 0 <= i < |t| ==>
      && Key(t'[i]) == Key(t[i]) && t'[i].mergedInto == t[i].mergedInto
      && t'[i].timesSeen >= t[i].timesSeen && t'[i].firstSeen == t[i].firstSeen && t'[i].lastSeen >= t[i].lastSeen
  }

  lemma {:induction false} SameShapeValid(t: Table, t': Table)
    requires Valid(t) && SameShape(t, t')
    ensures Valid(t')
  {
  }

  lemma {:induction false} NewRowValid(t: Table, u: Hit)
    requires Valid(t) && Find(t, u.project, u.fingerprint) == 0
    ensures Valid(t + [NewIssue(u)])
  {
  }

  /** The row of a first sight: an unresolved root with the hit's fields, seen once at the hit's time. */
  ghost predicate FirstSight(u: Hit, row: Issue) {
    && row.org == u.org && row.project == u.project && row.fingerprint == u.fingerprint && row.basis == u.basis
    && row.title == u.title && row.level == u.level && row.firstSeen == u.seenAt && row.lastSeen == u.seenAt
    && row.status == Unresolved && row.timesSeen == 1 && row.mergedInto == 0
  }

  /** A row after a hit: seen once more, at the later of the two times, at the hit's level; regressed if it was
      resolved, and otherwise of the same status. Everything else stays. */
  ghost predicate SeenAgain(u: Hit, row: Issue, row': Issue) {
    && row'.timesSeen == row.timesSeen + 1 && row'.level == u.level
    && row'.lastSeen >= row.lastSeen && row'.lastSeen >= u.seenAt && row'.lastSeen in {row.lastSeen, u.seenAt}
    && (row.status == Resolved ==> row'.status == Regressed) && (row.status != Resolved ==> row'.status == row.status)
    && row'.org == row.org && row'.project == row.project && row'.fingerprint == row.fingerprint
    && row'.basis == row.basis && row'.title == row.title && row'.firstSeen == row.firstSeen
    && row'.mergedInto == row.mergedInto
  }

  /** What a successful upsert does: the root of the fingerprint is seen again and every other row is untouched; a first
      sight makes a new root. */
  ghost predicate Landed(t: Table, u: Hit, t': Table, out: Outcome) {
    var id := Find(t, u.project, u.fingerprint);
    && (if id == 0 then |t'| == |t| + 1 && out.id == |t'| else |t'| == |t| && Has(t, out.id) && out.id == Root(t, id))
    && (out.isNew <==> id == 0)
    && (if id == 0 then FirstSight(u, Row(t', out.id)) else SeenAgain(u, Row(t, out.id), Row(t', out.id)))
    && (forall k :: Has(t, k) && k != out.id ==> Row(t', k) == Row(t, k))
    && (out.regressed <==> id != 0 && Row(t, out.id).status == Resolved)
    && out.status == Row(t', out.id).status && out.timesSeen == Row(t', out.id).timesSeen
  }

  lemma {:induction false} HitLandsOnRoot(t: Table, u: Hit)
    requires Valid(t) && u.project != 0 && u.fingerprint != ""
    ensures Upsert(t, u).Ok?
    ensures var (t', out) := Upsert(t, u).value;
      && Landed(t, u, t', out) && Valid(t')
      && Has(t', out.id) && Row(t', out.id).status != Resolved && Row(t', out.id).mergedInto == 0
  {
    var id := Find(t, u.project, u.fingerprint);
    if id == 0 {
      NewRowValid(t, u);
    } else {
      assert EdgeOk(t, Row(t, id));
      var target := Root(t, id);
      SameShapeValid(t, Put(t, target, Bump(Row(t, target), u)));
    }
  }

  /** In a valid table only a hit without project or fingerprint is refused. */
  lemma {:induction false} HitRefused(t: Table, u: Hit)
    requires Valid(t)
    ensures Upsert(t, u).Err? <==> u.project == 0 || u.fingerprint == ""
    ensures Upsert(t, u).Err? ==> Upsert(t, u).error == BadRequest
  {
    if u.project != 0 && u.fingerprint != "" {
      HitLandsOnRoot(t, u);
    }
  }

  // ---- Merging ----

  /** What one merge step does to each row of a flat table. */
  lemma {:induction false} MergeOneRow(t: Table, project: int, target: nat, src: nat, k: nat)
    requires Flat(t) && InProject(t, target, project) && InProject(t, src, project)
    requires src != target && Row(t, target).mergedInto == 0 && Has(t, k)
    ensures Row(MergeOne(t, project, target, src), k) == Row(t, k).(
      mergedInto := if k == src || Row(t, k).mergedInto == src then target else Row(t, k).mergedInto,
      timesSeen := Row(t, k).timesSeen + (if k == target then Row(t, src).timesSeen else 0))
  {
  }

  lemma {:induction false} MergeOneValid(t: Table, project: int, target: nat, src: nat)
    requires Valid(t) && InProject(t, target, project) && InProject(t, src, project)
    requires src != target && Row(t, target).mergedInto == 0
    ensures Valid(MergeOne(t, project, target, src))
    ensures Row(MergeOne(t, project, target, src), target).mergedInto == 0
    ensures InProject(MergeOne(t, project, target, src), target, project)
  {
    var t' := MergeOne(t, project, target, src);
    forall k | Has(t, k)
      ensures Key(Row(t', k)) == Key(Row(t, k)) && Row(t', k).timesSeen >= 1
      ensures Row(t', k).firstSeen <= Row(t', k).lastSeen && EdgeOk(t', Row(t', k))
    {
      MergeOneRow(t, project, target, src, k);
      MergeOneRow(t, project, target, src, target);
      assert EdgeOk(t, t[k - 1]);
      var m := Row(t, k).mergedInto;
      if m != 0 && m != src && k != src {
        MergeOneRow(t, project, target, src, m);
      }
    }
    assert forall i :: 0 <= i < |t| ==> t'[i] == Row(t', i + 1) && t[i] == Row(t, i + 1);
  }

  /** A successful merge sends to the target exactly the named sources and whatever was rooted at them. */
  lemma {:induction false} MergeRemaps(t: Table, project: int, target: nat, srcs: seq<nat>)
    requires Valid(t) && InProject(t, target, project) && Row(t, target).mergedInto == 0
    requires MergeSources(t, project, target, srcs).Ok?
    ensures var t' := MergeSources(t, project, target, srcs).value;
      && Valid(t')
      && forall k :: Has(t, k) ==> Root(t', k) == if k in srcs || Root(t, k) in srcs then target else Root(t, k)
    decreases |srcs|
  {
    if srcs != [] {
      var src, t1 := srcs[0], MergeOne(t, project, target, srcs[0]);
      MergeOneValid(t, project, target, src);
      MergeRemaps(t1, project, target, srcs[1..]);
      NoSelf(t1, project, target, srcs[1..]);
      forall k | Has(t, k)
        ensures Root(t1, k) == if k == src || Root(t, k) == src then target else Root(t, k)
      {
        MergeOneRow(t, project, target, src, k);
      }
      assert forall k :: k in srcs <==> k == src || k in srcs[1..];
    }
  }

  lemma {:induction false} NoSelf(t: Table, project: int, target: nat, srcs: seq<nat>)
    requires Has(t, target) && MergeSources(t, project, target, srcs).Ok?
    ensures target !in srcs
    decreases |srcs|
  {
    if srcs != [] {
      NoSelf(MergeOne(t, project, target, srcs[0]), project, target, srcs[1..]);
    }
  }

  /** The first source that stops a merge: the target itself, or no issue of the project. */
  ghost predicate Stops(t: Table, project: int, target: nat, srcs: seq<nat>, i: nat) {
    && i < |srcs| && (srcs[i] == target || !InProject(t, srcs[i], project))
    && forall j :: 0 <= j < i ==> srcs[j] != target && InProject(t, srcs[j], project)
  }

  /** Then the merge fails, and for that reason. */
  lemma {:induction false} MergeStops(t: Table, project: int, target: nat, srcs: seq<nat>, i: nat)
    requires Has(t, target) && Stops(t, project, target, srcs, i)
    ensures MergeSources(t, project, target, srcs) == Err(if srcs[i] == target then SelfMerge else NotFound)
    decreases i
  {
    if i > 0 {
      var t1 := MergeOne(t, project, target, srcs[0]);
      SameProjects(t, project, target, srcs[0]);
      assert forall j :: 0 <= j < |srcs[1..]| ==> srcs[1..][j] == srcs[j + 1];
      MergeStops(t1, project, target, srcs[1..], i - 1);
    }
  }

  lemma {:induction false} SourcesOkIff(t: Table, project: int, target: nat, srcs: seq<nat>)
    requires Has(t, target)
    ensures MergeSources(t, project, target, srcs).Ok? <==>
      forall i :: 0 <= i < |srcs| ==> srcs[i] != target && InProject(t, srcs[i], project)
    decreases |srcs|
  {
    if srcs != [] && srcs[0] != target && InProject(t, srcs[0], project) {
      SourcesOkIff(MergeOne(t, project, target, srcs[0]), project, target, srcs[1..]);
      SameProjects(t, project, target, srcs[0]);
      assert forall i :: 0 < i < |srcs| ==> srcs[i] == srcs[1..][i - 1];
    }
  }

  lemma {:induction false} SameProjects(t: Table, project: int, target: nat, src: nat)
    requires Has(t, target) && Has(t, src)
    ensures forall k :: InProject(MergeOne(t, project, target, src), k, project) <==> InProject(t, k, project)
  {
  }

  /** A merge succeeds exactly when the target is an unmerged issue of the project and every source another issue of
      it. */
  lemma {:induction false} MergeOkIff(t: Table, project: int, target: nat, srcs: seq<nat>)
    ensures Merge(t, project, target, srcs).Ok? <==>
      && InProject(t, target, project) && Row(t, target).mergedInto == 0
      && forall i :: 0 <= i < |srcs| ==> srcs[i] != target && InProject(t, srcs[i], project)
  {
    if InProject(t, target, project) {
      SourcesOkIff(t, project, target, srcs);
    }
  }

  /** A merge changes nothing of a row but where it points and, for the target, the count. */
  lemma {:induction false} MergeKeepsFields(t: Table, project: int, target: nat, srcs: seq<nat>)
    requires Valid(t) && InProject(t, target, project) && Row(t, target).mergedInto == 0
    requires MergeSources(t, project, target, srcs).Ok?
    ensures var t' := MergeSources(t, project, target, srcs).value;
      forall k :: Has(t, k) ==>
        && Row(t', k) == Row(t, k).(mergedInto := Row(t', k).mergedInto, timesSeen := Row(t', k).timesSeen)
        && (k != target ==> Row(t', k).timesSeen == Row(t, k).timesSeen)
    decreases |srcs|
  {
    if srcs != [] {
      var t1 := MergeOne(t, project, target, srcs[0]);
      MergeOneValid(t, project, target, srcs[0]);
      MergeKeepsFields(t1, project, target, srcs[1..]);
      forall k | Has(t, k)
        ensures Row(t1, k) == Row(t, k).(mergedInto := Row(t1, k).mergedInto, timesSeen := Row(t1, k).timesSeen)
        ensures k != target ==> Row(t1, k).timesSeen == Row(t, k).timesSeen
      {
        MergeOneRow(t, project, target, srcs[0], k);
      }
    }
  }

  // ---- Counting ----

  function Weight(row: Issue): nat {
    if row.mergedInto == 0 then row.timesSeen else 0
  }

  function TotalOf(t: Table, n: nat): nat
    requires n <= |t|
  {
    if n == 0 then 0 else TotalOf(t, n - 1) + Weight(t[n - 1])
  }

  /** times_seen summed over the issues that are not merged: what the issue list shows. */
  function Total(t: Table): nat {
    TotalOf(t, |t|)
  }

  lemma {:induction false} TotalSame(t: Table, t': Table, n: nat)
    requires n <= |t| && n <= |t'| && forall i :: 0 <= i < n ==> Weight(t[i]) == Weight(t'[i])
    ensures TotalOf(t, n) == TotalOf(t', n)
  {
    if n > 0 {
      TotalSame(t, t', n - 1);
    }
  }

  lemma {:induction false} TotalPutOf(t: Table, id: nat, row: Issue, n: nat)
    requires Has(t, id) && n <= |t|
    ensures TotalOf(Put(t, id, row), n) == TotalOf(t, n) + if id <= n then Weight(row) - Weight(Row(t, id)) else 0
  {
    if n > 0 {
      TotalPutOf(t, id, row, n - 1);
    }
  }

  lemma {:induction false} TotalPut(t: Table, id: nat, row: Issue)
    requires Has(t, id)
    ensures Total(Put(t, id, row)) == Total(t) - Weight(Row(t, id)) + Weight(row)
  {
    TotalPutOf(t, id, row, |t|);
  }

  /** The count of a source that is already merged is added to the target without leaving the sum. */
  function Recounted(t: Table, src: nat): nat
    requires Has(t, src)
  {
    if Row(t, src).mergedInto != 0 then Row(t, src).timesSeen else 0
  }

  lemma {:induction false} RepointTotal(t: Table, project: int, from: nat, to: nat)
    requires from != 0 && to != 0
    ensures Total(Repoint(t, project, from, to)) == Total(t)
  {
    TotalSame(t, Repoint(t, project, from, to), |t|);
  }

  lemma {:induction false} MergeOneTotal(t: Table, project: int, target: nat, src: nat)
    requires Has(t, target) && Has(t, src) && src != target && Row(t, target).mergedInto == 0
    ensures Total(MergeOne(t, project, target, src)) == Total(t) + Recounted(t, src)
  {
    var row := Row(t, src).(mergedInto := target);
    var t1 := Put(t, src, row);
    TotalPut(t, src, row);
    RepointTotal(t1, project, src, target);
    var t2 := Repoint(t1, project, src, target);
    TotalPut(t2, target, Row(t2, target).(timesSeen := Row(t2, target).timesSeen + row.timesSeen));
  }

  function MergeSurplus(t: Table, project: int, target: nat, srcs: seq<nat>): nat
    requires Has(t, target) && MergeSources(t, project, target, srcs).Ok?
    decreases |srcs|
  {
    if srcs == [] then 0
    else Recounted(t, srcs[0]) + MergeSurplus(MergeOne(t, project, target, srcs[0]), project, target, srcs[1..])
  }

  lemma {:induction false} MergeTotal(t: Table, project: int, target: nat, srcs: seq<nat>)
    requires Valid(t) && InProject(t, target, project) && Row(t, target).mergedInto == 0
    requires MergeSources(t, project, target, srcs).Ok?
    ensures Total(MergeSources(t, project, target, srcs).value) == Total(t) + MergeSurplus(t, project, target, srcs)
    decreases |srcs|
  {
    if srcs != [] {
      MergeOneValid(t, project, target, srcs[0]);
      MergeOneTotal(t, project, target, srcs[0]);
      MergeTotal(MergeOne(t, project, target, srcs[0]), project, target, srcs[1..]);
    }
  }

  /** The sources are distinct and none is merged yet. */
  ghost predicate FreshSources(t: Table, srcs: seq<nat>) {
    && (forall i :: 0 <= i < |srcs| ==> Has(t, srcs[i]) && Row(t, srcs[i]).mergedInto == 0)
    && (forall i, j :: 0 <= i < j < |srcs| ==> srcs[i] != srcs[j])
  }

  lemma {:induction false} SurplusFreeIffFresh(t: Table, project: int, target: nat, srcs: seq<nat>)
    requires Valid(t) && InProject(t, target, project) && Row(t, target).mergedInto == 0
    requires MergeSources(t, project, target, srcs).Ok?
    ensures MergeSurplus(t, project, target, srcs) == 0 <==> FreshSources(t, srcs)
    decreases |srcs|
  {
    if srcs != [] {
      var src, rest, t1 := srcs[0], srcs[1..], MergeOne(t, project, target, srcs[0]);
      MergeOneValid(t, project, target, src);
      SurplusFreeIffFresh(t1, project, target, rest);
      FreshStep(t, project, target, srcs);
    }
  }

  lemma {:induction false} FreshStep(t: Table, project: int, target: nat, srcs: seq<nat>)
    requires Valid(t) && InProject(t, target, project) && Row(t, target).mergedInto == 0
    requires srcs != [] && srcs[0] != target && InProject(t, srcs[0], project)
    ensures FreshSources(t, srcs) <==>
      Row(t, srcs[0]).mergedInto == 0 && FreshSources(MergeOne(t, project, target, srcs[0]), srcs[1..])
  {
  }

  // ---- Whole runs ----

  datatype Op =
    | DoHit(u: Hit)
    | DoMerge(project: int, target: nat, srcs: seq<nat>)
    | DoSplit(project: int, src: nat)
    | DoStatus(project: int, id: nat, status: Status)

  /** A transaction that returns an error is rolled back. */
  function Apply(t: Table, op: Op): Table {
    match op
    case DoHit(u) => if Upsert(t, u).Ok? then Upsert(t, u).value.0 else t
    case DoMerge(p, target, srcs) => if Merge(t, p, target, srcs).Ok? then Merge(t, p, target, srcs).value else t
    case DoSplit(p, src) => if Split(t, p, src).Ok? then Split(t, p, src).value else t
    case DoStatus(p, id, status) => if SetStatus(t, p, id, status).Ok? then SetStatus(t, p, id, status).value else t
  }

  function HitsOf(t: Table, op: Op): nat {
    if op.DoHit? && Upsert(t, op.u).Ok? then 1 else 0
  }

  function SurplusOf(t: Table, op: Op): nat {
    match op
    case DoMerge(p, target, srcs) =>
      if Merge(t, p, target, srcs).Ok? then MergeSurplus(t, p, target, srcs) else 0
    case DoSplit(p, src) => if Split(t, p, src).Ok? then Row(t, src).timesSeen else 0
    case _ => 0
  }

  /** The call adds to no count twice: a merge of distinct unmerged sources, or no effective split. */
  ghost predicate Clean(t: Table, op: Op) {
    match op
    case DoMerge(p, target, srcs) => Merge(t, p, target, srcs).Ok? ==> FreshSources(t, srcs)
    case DoSplit(p, src) => Split(t, p, src).Err?
    case _ => true
  }

  lemma {:induction false} SplitOk(t: Table, project: int, src: nat)
    requires Valid(t) && Split(t, project, src).Ok?
    ensures Valid(Split(t, project, src).value)
    ensures Total(Split(t, project, src).value) == Total(t) + Row(t, src).timesSeen
  {
    var t' := Split(t, project, src).value;
    TotalPut(t, src, Row(t', src));
    forall i | 0 <= i < |t'|
      ensures EdgeOk(t', t'[i])
    {
      assert EdgeOk(t, t[i]);
    }
    assert forall i :: 0 <= i < |t| ==> Key(t'[i]) == Key(t[i]);
  }

  lemma {:induction false} HitTotal(t: Table, u: Hit)
    requires Valid(t) && Upsert(t, u).Ok?
    ensures Valid(Upsert(t, u).value.0) && Total(Upsert(t, u).value.0) == Total(t) + 1
  {
    HitLandsOnRoot(t, u);
    var id := Find(t, u.project, u.fingerprint);
    if id == 0 {
      TotalSame(t, t + [NewIssue(u)], |t|);
    } else {
      assert EdgeOk(t, Row(t, id));
      TotalPut(t, Root(t, id), Bump(Row(t, Root(t, id)), u));
    }
  }

  /** One transaction: the invariant is kept, and the shown counts grow by the hit and by what it recounts. */
  lemma {:induction false} ApplyCounts(t: Table, op: Op)
    requires Valid(t)
    ensures Valid(Apply(t, op))
    ensures Total(Apply(t, op)) == Total(t) + HitsOf(t, op) + SurplusOf(t, op)
    ensures SurplusOf(t, op) == 0 <==> Clean(t, op)
  {
    match op
    case DoHit(u) => if Upsert(t, u).Ok? { HitTotal(t, u); }
    case DoMerge(p, target, srcs) =>
      if Merge(t, p, target, srcs).Ok? {
        MergeRemaps(t, p, target, srcs);
        MergeTotal(t, p, target, srcs);
        SurplusFreeIffFresh(t, p, target, srcs);
      }
    case DoSplit(p, src) => if Split(t, p, src).Ok? { SplitOk(t, p, src); }
    case DoStatus(p, id, status) =>
      if SetStatus(t, p, id, status).Ok? {
        TotalPut(t, id, Row(t, id).(status := status));
        SameShapeValid(t, SetStatus(t, p, id, status).value);
      }
  }

  function RunOps(t: Table, ops: seq<Op>): Table
    decreases |ops|
  {
    if ops == [] then t else RunOps(Apply(t, ops[0]), ops[1..])
  }

  /** The hits recorded along a run. */
  function Hits(t: Table, ops: seq<Op>): nat
    decreases |ops|
  {
    if ops == [] then 0 else HitsOf(t, ops[0]) + Hits(Apply(t, ops[0]), ops[1..])
  }

  ghost predicate AllClean(t: Table, ops: seq<Op>)
    decreases |ops|
  {
    ops == [] || (Clean(t, ops[0]) && AllClean(Apply(t, ops[0]), ops[1..]))
  }

  /** Under arbitrary merges and splits the shown counts never fall below the hits recorded, and they equal
      them exactly when every merge named distinct unmerged sources and no split took effect. */
  lemma {:induction false} CountsConserved(t: Table, ops: seq<Op>)
    requires Valid(t)
    ensures Valid(RunOps(t, ops))
    ensures Total(RunOps(t, ops)) >= Total(t) + Hits(t, ops)
    ensures Total(RunOps(t, ops)) == Total(t) + Hits(t, ops) <==> AllClean(t, ops)
    decreases |ops|
  {
    if ops != [] {
      ApplyCounts(t, ops[0]);
      CountsConserved(Apply(t, ops[0]), ops[1..]);
    }
  }

  // ---- Lifecycle ----

  /** Row k alone differs, and in the named fields alone. */
  ghost predicate OnlyRow(t: Table, t': Table, k: nat, row: Issue) {
    |t'| == |t| && Has(t, k) && Row(t', k) == row && forall j :: Has(t, j) && j != k ==> Row(t', j) == Row(t, j)
  }

  /** A status is set on an issue of the project, and only to one that a user may choose. */
  lemma {:induction false} StatusSets(t: Table, project: int, id: nat, status: Status)
    ensures SetStatus(t, project, id, status).Ok? <==>
      status in {Unresolved, Resolved, Ignored} && Has(t, id) && Row(t, id).project == project
    ensures SetStatus(t, project, id, status).Ok? ==>
      OnlyRow(t, SetStatus(t, project, id, status).value, id, Row(t, id).(status := status))
  {
  }

  /** A split makes a merged issue of the project an unresolved root again; its count and its target's stay. */
  lemma {:induction false} SplitUndoes(t: Table, project: int, src: nat)
    ensures Split(t, project, src).Ok? <==>
      Has(t, src) && Row(t, src).project == project && Row(t, src).mergedInto != 0
    ensures Split(t, project, src).Ok? ==>
      OnlyRow(t, Split(t, project, src).value, src, Row(t, src).(mergedInto := 0, status := Unresolved))
  {
  }

  /** The transaction counts a hit on issue k. */
  ghost predicate Hits1(t: Table, op: Op, k: nat) {
    op.DoHit? && Upsert(t, op.u).Ok? && Upsert(t, op.u).value.1.id == k
  }

  /** A call by a user that is about the status of issue k. */
  predicate Sets(op: Op, k: nat) {
    (op.DoStatus? && op.id == k) || (op.DoSplit? && op.src == k)
  }

  lemma {:induction false} StatusStep(t: Table, op: Op, k: nat)
    requires Valid(t) && Has(t, k) && !Sets(op, k)
    ensures Has(Apply(t, op), k)
    ensures Row(Apply(t, op), k).status ==
      if Hits1(t, op, k) && Row(t, k).status == Resolved then Regressed else Row(t, k).status
  {
    match op
    case DoHit(u) =>
      if Upsert(t, u).Ok? {
        HitRefused(t, u);
        HitLandsOnRoot(t, u);
      }
    case DoMerge(p, target, srcs) =>
      if Merge(t, p, target, srcs).Ok? {
        MergeKeepsFields(t, p, target, srcs);
      }
    case _ =>
  }

  /** Some transaction of the run counts a hit on issue k. */
  ghost predicate EverHit(t: Table, ops: seq<Op>, k: nat)
    decreases |ops|
  {
    ops != [] && (Hits1(t, ops[0], k) || EverHit(Apply(t, ops[0]), ops[1..], k))
  }

  /** The lifecycle over runs: as long as no user sets it, an issue's status stays, whatever hits and merges come,
      except that a resolved issue is regressed from its next hit on. So an ignored issue stays ignored, and none is
      resolved silently. */
  lemma {:induction false} StatusOverRuns(t: Table, ops: seq<Op>, k: nat)
    requires Valid(t) && Has(t, k) && forall i :: 0 <= i < |ops| ==> !Sets(ops[i], k)
    ensures Has(RunOps(t, ops), k)
    ensures Row(RunOps(t, ops), k).status ==
      if EverHit(t, ops, k) && Row(t, k).status == Resolved then Regressed else Row(t, k).status
    decreases |ops|
  {
    if ops != [] {
      ApplyCounts(t, ops[0]);
      StatusStep(t, ops[0], k);
      StatusOverRuns(Apply(t, ops[0]), ops[1..], k);
    }
  }

  // ---- The database object ----

  class Db {
    var issues: Table

    constructor ()
      ensures issues == []
    {
      issues := [];
    }

    method UpsertIssue(u: Hit) returns (r: Result<Outcome>)
      modifies this
      ensures r.Ok? <==> Upsert(old(issues), u).Ok?
      ensures r.Ok? ==> (issues, r.value) == Upsert(old(issues), u).value
      ensures r.Err? ==> issues == old(issues) && r.error == Upsert(old(issues), u).error
    {
      if u.project == 0 || u.fingerprint == "" {
        return Err(BadRequest);
      }
      var id := Find(issues, u.project, u.fingerprint);
      if id == 0 {
        issues := issues + [NewIssue(u)];
        return Ok(Outcome(|issues|, true, false, 1, Unresolved));
      }
      var target := id;
      if Row(issues, id).mergedInto != 0 {
        target := Row(issues, id).mergedInto;
        if !Has(issues, target) {
          return Err(NotFound);
        }
      }
      var row := Row(issues, target);
      var status, regressed := row.status, false;
      if status == Resolved {
        status, regressed := Regressed, true;
      }
      row := row.(lastSeen := Max(row.lastSeen, u.seenAt), timesSeen := row.timesSeen + 1, level := u.level,
                  status := status);
      issues := Put(issues, target, row);
      return Ok(Outcome(target, false, regressed, row.timesSeen, status));
    }

    /** The loop over the sources works on the transaction's copy; only success commits it. */
    method MergeIssues(project: int, target: nat, srcs: seq<nat>) returns (r: Result<()>)
      modifies this
      ensures r.Ok? <==> Merge(old(issues), project, target, srcs).Ok?
      ensures r.Ok? ==> issues == Merge(old(issues), project, target, srcs).value
      ensures r.Err? ==> issues == old(issues) && r.error == Merge(old(issues), project, target, srcs).error
    {
      var tx := issues;
      if !Has(tx, target) || Row(tx, target).project != project || Row(tx, target).mergedInto != 0 {
        return Err(NotFound);
      }
      var i := 0;
      while i < |srcs|
        invariant 0 <= i <= |srcs| && |tx| == |issues| && issues == old(issues)
        invariant Merge(issues, project, target, srcs) == MergeSources(tx, project, target, srcs[i..])
      {
        var src := srcs[i];
        if src == target {
          return Err(SelfMerge);
        }
        if !Has(tx, src) || Row(tx, src).project != project {
          return Err(NotFound);
        }
        var count := Row(tx, src).timesSeen;
        assert srcs[i..][1..] == srcs[i + 1..];
        ghost var before := tx;
        tx := Put(tx, src, Row(tx, src).(mergedInto := target));
        tx := Repoint(tx, project, src, target);
        tx := Put(tx, target, Row(tx, target).(timesSeen := Row(tx, target).timesSeen + count));
        assert tx == MergeOne(before, project, target, src);
        i := i + 1;
      }
      issues := tx;
      return Ok(());
    }

    method SplitIssue(project: int, src: nat) returns (r: Result<()>)
      modifies this
      ensures r.Ok? <==> Split(old(issues), project, src).Ok?
      ensures r.Err? ==> r.error == NotFound
      ensures issues == Apply(old(issues), DoSplit(project, src))
    {
      if !InProject(issues, src, project) || Row(issues, src).mergedInto == 0 {
        return Err(NotFound);
      }
      issues := Put(issues, src, Row(issues, src).(mergedInto := 0, status := Unresolved));
      return Ok(());
    }

    method SetIssueStatus(project: int, id: nat, status: Status) returns (r: Result<()>)
      modifies this
      ensures r.Ok? <==> SetStatus(old(issues), project, id, status).Ok?
      ensures r.Err? ==> r.error == if status == Regressed then BadRequest else NotFound
      ensures issues == Apply(old(issues), DoStatus(project, id, status))
    {
      if status == Regressed {
        return Err(BadRequest);
      }
      if !InProject(issues, id, project) {
        return Err(NotFound);
      }
      issues := Put(issues, id, Row(issues, id).(status := status));
      return Ok(());
    }
  }
}
