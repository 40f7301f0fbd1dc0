/** Per-project token buckets (internal/ratelimit/ratelimit.go), in exact arithmetic; times are in seconds. */
module RateLimit {

  datatype Limit = Limit(perSecond: real, burst: real)

  datatype Bucket = Bucket(tokens: real, last: real)

  /** Tokens earned between two times. */
  type Earning = (real, real) -> real

  function AtRate(perSecond: real): Earning {
    (from: real, to: real) => (to - from) * perSecond
  }

  function Refill(earn: Earning, burst: real, b: Bucket, now: real): Bucket {
    var t := b.tokens + earn(b.last, now);
    Bucket(if t > burst then burst else t, now)
  }

  predicate Admits(earn: Earning, burst: real, b: Bucket, now: real) {
    Refill(earn, burst, b, now).tokens >= 1.0
  }

  function Spend(earn: Earning, burst: real, b: Bucket, now: real): Bucket {
    var r := Refill(earn, burst, b, now);
    if r.tokens >= 1.0 then Bucket(r.tokens - 1.0, now) else r
  }

  /** The limiter: a default, overrides, and at most `max` buckets. */
  datatype State = State(def: Limit, limit: map<int, Limit>, b: map<int, Bucket>, max: nat)

  function LimitOf(s: State, project: int): (lim: Limit)
    ensures project !in s.limit ==> lim == s.def
    ensures forall id :: id in s.limit && id == project ==> lim == s.limit[id]
  {
    if project in s.limit then s.limit[project] else s.def
  }

  /** The bucket a call works on: a new one starts full; beyond the cap there is none. */
  function BucketOf(s: State, project: int, created: real): (r: map<int, Bucket>)
    ensures project in r <==> project in s.b || |s.b| < s.max
  {
    if project in s.b then s.b
    else if |s.b| >= s.max then s.b
    else s.b[project := Bucket(LimitOf(s, project).burst, created)]
  }

  function AllowCall(s: State, project: int, created: real, now: real): (State, bool) {
    var b := BucketOf(s, project, created);
    if project !in b then (s, true)
    else
      var lim := LimitOf(s, project);
      (s.(b := b[project := Spend(AtRate(lim.perSecond), lim.burst, b[project], now)]),
        Admits(AtRate(lim.perSecond), lim.burst, b[project], now))
  }

  class Limiter {
    const def: Limit
    const max: nat
    var limit: map<int, Limit>
    var b: map<int, Bucket>

    ghost function St(): State
      reads this
    {
      State(def, limit, b, max)
    }

    constructor (def: Limit, maxProjects: int)
      ensures St() == State(def, map[], map[], if maxProjects <= 0 then 10000 else maxProjects)
    {
      this.def, limit, b := def, map[], map[];
      max := if maxProjects <= 0 then 10000 else maxProjects;
    }

    method SetLimit(project: int, lim: Limit)
      modifies this`limit
      ensures limit == old(limit)[project := lim]
    {
      limit := limit[project := lim];
    }

    /** Allow reads the clock once for a new bucket and once for the refill. */
    method Allow(project: int, created: real, now: real, unrated: real) returns (ok: bool, wait: real)
      modifies this`b
      ensures (St(), ok) == AllowCall(old(St()), project, created, now)
      ensures !ok ==> project in b && b[project].last == now
      ensures !ok ==> wait == RetryAfter(LimitOf(St(), project), b[project].tokens, unrated)
    {
      var lim := if project in limit then limit[project] else def;
      if project !in b {
        if |b| >= max {
          return true, 0.0;
        }
        b := b[project := Bucket(lim.burst, created)];
      }
      var bk, earn := b[project], AtRate(lim.perSecond);
      var tokens := bk.tokens + earn(bk.last, now);
      if tokens > lim.burst {
        tokens := lim.burst;
      }
      if tokens >= 1.0 {
        b := b[project := Bucket(tokens - 1.0, now)];
        return true, 0.0;
      }
      b := b[project := Bucket(tokens, now)];
      wait := RetryAfter(lim, tokens, unrated);
      return false, wait;
    }

    /** Snapshot: the tokens of every bucket. */
    method Snapshot() returns (out: map<int, real>)
      ensures out.Keys == b.Keys && forall id :: id in b ==> out[id] == b[id].tokens
    {
      out := map id | id in b :: b[id].tokens;
    }

    /** Restore: seed buckets, in map order, until the cap is reached. */
    method Restore(state: map<int, real>, order: seq<int>, now: real)
      requires (forall i :: 0 <= i < |order| ==> order[i] in state) && forall id :: id in state ==> id in order
      modifies this`b
      ensures forall id :: id in b ==>
        (id in old(b) && b[id] == old(b)[id]) || (id in state && b[id] == Bucket(state[id], now))
      ensures |b| < max ==> forall id :: id in state ==> id in b && b[id] == Bucket(state[id], now)
    {
      var i := 0;
      while i < |order|
        invariant 0 <= i <= |order|
        invariant forall id :: id in b ==>
          (id in old(b) && b[id] == old(b)[id]) || (id in state && b[id] == Bucket(state[id], now))
        invariant forall j :: 0 <= j < i ==> order[j] in b && b[order[j]] == Bucket(state[order[j]], now)
      {
        if |b| >= max {
          break;
        }
        b := b[order[i] := Bucket(state[order[i]], now)];
        i := i + 1;
      }
    }
  }

  /** The time until one token refills, at least a second. Without a refill rate the quotient is no number and its
      conversion, `unrated`, is up to the platform. */
  function RetryAfter(lim: Limit, tokens: real, unrated: real): real {
    var wait := if lim.perSecond == 0.0 then unrated else (1.0 - tokens) / lim.perSecond;
    if wait < 1.0 then 1.0 else wait
  }

  lemma {:induction false} QuotientEarns(x: real, rate: real, w: real)
    requires rate > 0.0 && w >= x / rate
    ensures w * rate >= x
  {
  }

  /** A client that waits as told is admitted, if the bucket can hold a token at all. */
  lemma {:induction false} RetryIsEnough(lim: Limit, b: Bucket, unrated: real)
    requires lim.perSecond > 0.0 && lim.burst >= 1.0
    ensures Admits(AtRate(lim.perSecond), lim.burst, b, b.last + RetryAfter(lim, b.tokens, unrated))
  {
    var w := RetryAfter(lim, b.tokens, unrated);
    QuotientEarns(1.0 - b.tokens, lim.perSecond, w);
    assert AtRate(lim.perSecond)(b.last, b.last + w) == w * lim.perSecond;
  }

  /** Within the burst, waiting w admits exactly when the missing part of a token is earned by then. */
  lemma {:induction false} WaitAdmitsIff(lim: Limit, b: Bucket, w: real)
    requires lim.perSecond > 0.0 && lim.burst >= 1.0 && b.tokens < 1.0
    ensures Admits(AtRate(lim.perSecond), lim.burst, b, b.last + w) <==> w >= (1.0 - b.tokens) / lim.perSecond
  {
    EarnsIff(1.0 - b.tokens, lim.perSecond, w);
    assert AtRate(lim.perSecond)(b.last, b.last + w) == w * lim.perSecond;
  }

  /** So the wait suggested is a second, or the shortest that is enough. */
  lemma {:induction false} RetryIsLeast(lim: Limit, b: Bucket, w: real, unrated: real)
    requires lim.perSecond > 0.0 && lim.burst >= 1.0 && b.tokens < 1.0
    requires 1.0 < RetryAfter(lim, b.tokens, unrated) && w < RetryAfter(lim, b.tokens, unrated)
    ensures !Admits(AtRate(lim.perSecond), lim.burst, b, b.last + w)
  {
    WaitAdmitsIff(lim, b, w);
  }

  lemma {:induction false} EarnsIff(x: real, rate: real, w: real)
    requires rate > 0.0
    ensures w * rate >= x <==> w >= x / rate
  {
    assert x / rate * rate == x;
    if w >= x / rate {
      QuotientEarns(x, rate, w);
    } else {
      assert (x / rate - w) * rate > 0.0;
    }
  }

  // ---- One bucket over any stretch of calls ----

  datatype Tally = Tally(bucket: Bucket, admitted: nat)

  function Calls(earn: Earning, burst: real, b: Bucket, times: seq<real>, n: nat): Tally
    requires n <= |times|
  {
    if n == 0 then Tally(b, 0)
    else
      var t := Calls(earn, burst, b, times, n - 1);
      Tally(Spend(earn, burst, t.bucket, times[n - 1]),
        t.admitted + if Admits(earn, burst, t.bucket, times[n - 1]) then 1 else 0)
  }

  ghost predicate Nondecreasing(times: seq<real>) {
    forall i, j :: 0 <= i < j < |times| ==> times[i] <= times[j]
  }

  ghost predicate Adds(earn: Earning, a: real, b: real, c: real) {
    earn(a, b) + earn(b, c) == earn(a, c)
  }

  /** Earning is additive and never negative. */
  ghost predicate Steady(earn: Earning) {
    && (forall a, b :: a <= b ==> earn(a, b) >= 0.0)
    && (forall a, b, c :: Adds(earn, a, b, c))
  }

  lemma {:induction false} AtRateSteady(perSecond: real)
    requires perSecond >= 0.0
    ensures Steady(AtRate(perSecond))
  {
  }

  /** What was admitted plus what is left never exceeds the burst plus what was earned since the first call. */
  lemma {:induction false} Potential(earn: Earning, burst: real, b: Bucket, times: seq<real>, n: nat)
    requires Steady(earn) && burst >= 0.0 && Nondecreasing(times) && 0 < n <= |times|
    ensures var t := Calls(earn, burst, b, times, n);
      && t.bucket.last == times[n - 1]
      && (t.admitted == 0 || t.bucket.tokens >= 0.0)
      && t.admitted as real + t.bucket.tokens <= burst + earn(times[0], times[n - 1])
  {
    var s := Calls(earn, burst, b, times, n - 1);
    assert earn(times[0], times[n - 1]) >= 0.0;
    if n > 1 {
      Potential(earn, burst, b, times, n - 1);
      assert earn(times[n - 2], times[n - 1]) >= 0.0;
      assert Adds(earn, times[0], times[n - 2], times[n - 1]);
    } else {
      assert earn(times[0], times[0]) >= 0.0;
    }
  }

  lemma {:induction false} BoundedBy(earn: Earning, burst: real, b: Bucket, times: seq<real>)
    requires Steady(earn) && burst >= 0.0 && Nondecreasing(times) && |times| > 0
    ensures Calls(earn, burst, b, times, |times|).admitted as real <= burst + earn(times[0], times[|times| - 1])
  {
    Potential(earn, burst, b, times, |times|);
    assert Adds(earn, times[0], times[0], times[|times| - 1]);
  }

  /** Any stretch of calls on one bucket, whatever it held before, admits at most burst + rate * elapsed. */
  lemma {:induction false} Bounded(lim: Limit, b: Bucket, times: seq<real>, elapsed: real)
    requires lim.perSecond >= 0.0 && lim.burst >= 0.0 && Nondecreasing(times) && |times| > 0
    requires elapsed == times[|times| - 1] - times[0]
    ensures Calls(AtRate(lim.perSecond), lim.burst, b, times,
      |times|).admitted as real <= lim.burst + elapsed * lim.perSecond
  {
    AtRateSteady(lim.perSecond);
    BoundedBy(AtRate(lim.perSecond), lim.burst, b, times);
    assert AtRate(lim.perSecond)(times[0], times[|times| - 1]) == elapsed * lim.perSecond;
  }

  /** When the refill of call i fills the bucket, everything before it is forgotten. */
  ghost predicate Fills(earn: Earning, burst: real, b: Bucket, times: seq<real>, i: nat)
    requires i < |times|
  {
    Refill(earn, burst, Calls(earn, burst, b, times, i).bucket, times[i]).tokens == burst
  }

  /** What the first n calls left, reckoned from where the bucket was last full: from the start, or from call i. */
  ghost predicate Reckons(earn: Earning, burst: real, b: Bucket, times: seq<real>, n: nat, from: int, left: real,
                          at: real)
    requires n <= |times|
  {
    var t := Calls(earn, burst, b, times, n);
    && t.bucket.last == at && t.bucket.tokens == left
    && if from < 0 then left + t.admitted as real == b.tokens + earn(b.last, at)
       else
         && from < n && Fills(earn, burst, b, times, from)
         && left + (t.admitted - Calls(earn, burst, b, times, from).admitted) as real == burst + earn(times[from], at)
  }

  /** The last call filled the bucket. */
  lemma {:induction false} ReckonsAnew(earn: Earning, burst: real, b: Bucket, times: seq<real>, n: nat)
    requires Steady(earn) && 0 < n <= |times| && Fills(earn, burst, b, times, n - 1)
    ensures var t := Calls(earn, burst, b, times, n);
      Reckons(earn, burst, b, times, n, n - 1, t.bucket.tokens, t.bucket.last)
  {
    var now := times[n - 1];
    assert Adds(earn, now, now, now);
  }

  /** It did not: what was earned adds up. */
  lemma {:induction false} ReckonsOn(earn: Earning, burst: real, b: Bucket, times: seq<real>, n: nat, from: int)
    requires Steady(earn) && 0 < n <= |times|
    requires var s := Calls(earn, burst, b, times, n - 1);
      && Reckons(earn, burst, b, times, n - 1, from, s.bucket.tokens, s.bucket.last)
      && s.bucket.tokens + earn(s.bucket.last, times[n - 1]) <= burst
    ensures var t := Calls(earn, burst, b, times, n);
      Reckons(earn, burst, b, times, n, from, t.bucket.tokens, t.bucket.last)
  {
    var s := Calls(earn, burst, b, times, n - 1);
    assert Adds(earn, if from < 0 then b.last else times[from], s.bucket.last, times[n - 1]);
  }

  /** One call more. */
  lemma {:induction false} ReckonsNext(earn: Earning, burst: real, b: Bucket, times: seq<real>, n: nat, from: int)
    returns (from': int)
    requires Steady(earn) && 0 < n <= |times|
    requires var s := Calls(earn, burst, b, times, n - 1);
      Reckons(earn, burst, b, times, n - 1, from, s.bucket.tokens, s.bucket.last)
    ensures var t := Calls(earn, burst, b, times, n);
      Reckons(earn, burst, b, times, n, from', t.bucket.tokens, t.bucket.last)
  {
    var s := Calls(earn, burst, b, times, n - 1);
    if s.bucket.tokens + earn(s.bucket.last, times[n - 1]) > burst {
      from' := n - 1;
      ReckonsAnew(earn, burst, b, times, n);
    } else {
      from' := from;
      ReckonsOn(earn, burst, b, times, n, from);
    }
  }

  lemma {:induction false} ReckonsFirst(earn: Earning, burst: real, b: Bucket, times: seq<real>)
    requires Steady(earn)
    ensures Reckons(earn, burst, b, times, 0, -1, b.tokens, b.last)
  {
    assert Adds(earn, b.last, b.last, b.last);
  }

  lemma {:induction false} Reckoning(earn: Earning, burst: real, b: Bucket, times: seq<real>, n: nat)
    returns (from: int)
    requires Steady(earn) && n <= |times|
    ensures var t := Calls(earn, burst, b, times, n);
      Reckons(earn, burst, b, times, n, from, t.bucket.tokens, t.bucket.last)
  {
    if n == 0 {
      from := -1;
      ReckonsFirst(earn, burst, b, times);
    } else {
      from := Reckoning(earn, burst, b, times, n - 1);
      from := ReckonsNext(earn, burst, b, times, n, from);
    }
  }

  /** No client is refused early: a call is admitted exactly when the calls admitted since the bucket was last full, and
      this one, are covered by what it held then and what was earned since. */
  lemma {:induction false} AdmittedIffCovered(earn: Earning, burst: real, b: Bucket, times: seq<real>, n: nat,
                                              now: real)
    returns (from: int)
    requires Steady(earn) && burst >= 1.0 && n <= |times|
    ensures from < n && (from >= 0 ==> Fills(earn, burst, b, times, from))
    ensures var t := Calls(earn, burst, b, times, n);
      Admits(earn, burst, t.bucket, now) <==>
        if from < 0 then (t.admitted + 1) as real <= b.tokens + earn(b.last, now)
        else (t.admitted - Calls(earn, burst, b, times, from).admitted + 1) as real <= burst + earn(times[from], now)
  {
    from := Reckoning(earn, burst, b, times, n);
    var t := Calls(earn, burst, b, times, n);
    assert Adds(earn, if from < 0 then b.last else times[from], t.bucket.last, now);
  }

  // ---- Projects do not disturb one another ----

  datatype Call = Call(project: int, created: real, now: real)

  function RunCalls(s: State, calls: seq<Call>, n: nat): State
    requires n <= |calls|
  {
    if n == 0 then s
    else AllowCall(RunCalls(s, calls, n - 1), calls[n - 1].project, calls[n - 1].created, calls[n - 1].now).0
  }

  /** How many of a project's calls were admitted. */
  function AdmittedOf(s: State, calls: seq<Call>, project: int, n: nat): nat
    requires n <= |calls|
  {
    if n == 0 then 0
    else
      var c := calls[n - 1];
      var ok := AllowCall(RunCalls(s, calls, n - 1), c.project, c.created, c.now).1;
      AdmittedOf(s, calls, project, n - 1) + if c.project == project && ok then 1 else 0
  }

  function TimesOf(calls: seq<Call>, project: int, n: nat): seq<real>
    requires n <= |calls|
  {
    if n == 0 then []
    else if calls[n - 1].project == project then TimesOf(calls, project, n - 1) + [calls[n - 1].now]
    else TimesOf(calls, project, n - 1)
  }

  lemma {:induction false} CallsFrame(earn: Earning, burst: real, b: Bucket, times: seq<real>, t: real, n: nat)
    requires n <= |times|
    ensures Calls(earn, burst, b, times + [t], n) == Calls(earn, burst, b, times, n)
  {
    if n > 0 {
      CallsFrame(earn, burst, b, times, t, n - 1);
    }
  }

  /** The project's first call is number f. */
  ghost predicate FirstAt(calls: seq<Call>, project: int, f: nat) {
    f < |calls| && calls[f].project == project && forall i :: 0 <= i < f ==> calls[i].project != project
  }

  /** At its first call the project has a bucket or gets one. */
  ghost predicate HasRoom(s: State, calls: seq<Call>, project: int, f: nat)
    requires f <= |calls|
  {
    var r := RunCalls(s, calls, f);
    project in r.b || |r.b| < r.max
  }

  /** The bucket its calls start from: the one it has, or a full one made at its first call. */
  function StartBucket(s: State, calls: seq<Call>, project: int, f: nat): Bucket
    requires f < |calls|
  {
    if project in s.b then s.b[project] else Bucket(LimitOf(s, project).burst, calls[f].created)
  }

  ghost predicate SameLimits(s: State, r: State) {
    r.limit == s.limit && r.def == s.def && r.max == s.max
  }

  /** Calls of other projects leave a project as it is. */
  lemma {:induction false} Untouched(s: State, calls: seq<Call>, project: int, n: nat)
    requires n <= |calls| && forall i :: 0 <= i < n ==> calls[i].project != project
    ensures var r := RunCalls(s, calls, n);
      && SameLimits(s, r) && (project in r.b <==> project in s.b) && (project in s.b ==> r.b[project] == s.b[project])
      && TimesOf(calls, project, n) == [] && AdmittedOf(s, calls, project, n) == 0
  {
    if n > 0 {
      Untouched(s, calls, project, n - 1);
    }
  }

  function CallsFrom(s: State, project: int, b: Bucket, times: seq<real>): Tally {
    Calls(AtRate(LimitOf(s, project).perSecond), LimitOf(s, project).burst, b, times, |times|)
  }

  /** One more call of the project. */
  lemma {:induction false} OwnCall(s: State, project: int, b: Bucket, times: seq<real>, now: real)
    ensures var t, t', lim := CallsFrom(s, project, b, times), CallsFrom(s, project, b, times + [now]),
      LimitOf(s, project);
      && t'.bucket == Spend(AtRate(lim.perSecond), lim.burst, t.bucket, now)
      && t'.admitted == t.admitted + if Admits(AtRate(lim.perSecond), lim.burst, t.bucket, now) then 1 else 0
  {
    var lim := LimitOf(s, project);
    CallsFrame(AtRate(lim.perSecond), lim.burst, b, times, now, |times|);
  }

  /** A call works on its own project's bucket, or on a full one made for it, and leaves the others. */
  lemma {:induction false} OneCall(r: State, c: Call, project: int, b: Bucket)
    requires
      if project in r.b then b == r.b[project]
      else c.project == project && |r.b| < r.max && b == Bucket(LimitOf(r, project).burst, c.created)
    ensures var (r', ok) := AllowCall(r, c.project, c.created, c.now);
      var lim := LimitOf(r, project);
      && SameLimits(r, r') && project in r'.b
      && (if c.project == project
          then r'.b[project] == Spend(AtRate(lim.perSecond), lim.burst, b, c.now)
            && ok == Admits(AtRate(lim.perSecond), lim.burst, b, c.now)
          else r'.b[project] == b)
  {
  }

  /** The project's bucket and admissions after n calls are those of its own calls alone. */
  ghost predicate Alone(s: State, calls: seq<Call>, project: int, b: Bucket, n: nat)
    requires n <= |calls|
  {
    var r, t := RunCalls(s, calls, n), CallsFrom(s, project, b, TimesOf(calls, project, n));
    SameLimits(s, r) && project in r.b && r.b[project] == t.bucket && AdmittedOf(s, calls, project, n) == t.admitted
  }

  lemma {:induction false} AloneStep(s: State, calls: seq<Call>, project: int, b: Bucket, n: nat)
    requires n < |calls| && Alone(s, calls, project, b, n)
    ensures Alone(s, calls, project, b, n + 1)
  {
    var r, c, times := RunCalls(s, calls, n), calls[n], TimesOf(calls, project, n);
    OneCall(r, c, project, r.b[project]);
    OwnCall(s, project, b, times, c.now);
  }

  lemma {:induction false} AloneFirst(s: State, calls: seq<Call>, project: int, f: nat)
    requires FirstAt(calls, project, f) && HasRoom(s, calls, project, f)
    ensures Alone(s, calls, project, StartBucket(s, calls, project, f), f + 1)
  {
    var b := StartBucket(s, calls, project, f);
    Untouched(s, calls, project, f);
    OneCall(RunCalls(s, calls, f), calls[f], project, b);
    OwnCall(s, project, b, [], calls[f].now);
  }

  /** In any mix of calls, from any state, a project with room at its first call has the bucket and the admissions of
      its own calls alone. */
  lemma {:induction false} Isolated(s: State, calls: seq<Call>, project: int, f: nat, n: nat)
    requires FirstAt(calls, project, f) && HasRoom(s, calls, project, f) && f < n <= |calls|
    ensures Alone(s, calls, project, StartBucket(s, calls, project, f), n)
  {
    if n == f + 1 {
      AloneFirst(s, calls, project, f);
    } else {
      Isolated(s, calls, project, f, n - 1);
      AloneStep(s, calls, project, StartBucket(s, calls, project, f), n - 1);
    }
  }

  /** A project without room at its first call never gets a bucket, and every call of it is admitted. */
  lemma {:induction false} Flooded(s: State, calls: seq<Call>, project: int, f: nat, n: nat)
    requires FirstAt(calls, project, f) && !HasRoom(s, calls, project, f) && f <= n <= |calls|
    ensures var r := RunCalls(s, calls, n);
      project !in r.b && |r.b| >= r.max && AdmittedOf(s, calls, project, n) == |TimesOf(calls, project, n)|
  {
    if n == f {
      Untouched(s, calls, project, f);
    } else {
      Flooded(s, calls, project, f, n - 1);
    }
  }

  lemma {:induction false} TimesOrdered(calls: seq<Call>, project: int, n: nat)
    requires n <= |calls| && Ordered(calls)
    ensures Nondecreasing(TimesOf(calls, project, n))
    ensures forall i :: 0 <= i < |TimesOf(calls, project, n)| ==>
      exists j :: 0 <= j < n && TimesOf(calls, project, n)[i] == calls[j].now
  {
    if n > 0 {
      TimesOrdered(calls, project, n - 1);
      var t0, t := TimesOf(calls, project, n - 1), TimesOf(calls, project, n);
      forall i | 0 <= i < |t|
        ensures exists j :: 0 <= j < n && t[i] == calls[j].now
      {
        if i < |t0| {
          var j :| 0 <= j < n - 1 && t0[i] == calls[j].now;
          assert t[i] == calls[j].now;
        } else {
          assert t[i] == calls[n - 1].now;
        }
      }
    }
  }

  ghost predicate Ordered(calls: seq<Call>) {
    forall i, j :: 0 <= i < j < |calls| ==> calls[i].now <= calls[j].now
  }

  /** At most burst + rate * elapsed admissions, elapsed being between the project's own first and last call. */
  ghost predicate Within(s: State, calls: seq<Call>, project: int) {
    var lim, times := LimitOf(s, project), TimesOf(calls, project, |calls|);
    |times| > 0 ==> AdmittedOf(s, calls, project, |calls|) as real <= lim.burst + AtRate(lim.perSecond)(times[0],
      times[|times| - 1])
  }

  /** In any mix of calls, from any state, under a clock that does not run back: a project with room at its first call
      keeps within its limit; one without is admitted every time. */
  lemma {:induction false} ProjectBounded(s: State, calls: seq<Call>, project: int, f: nat)
    requires LimitOf(s, project).perSecond >= 0.0 && LimitOf(s, project).burst >= 0.0 && Ordered(calls)
      && FirstAt(calls, project, f)
    ensures HasRoom(s, calls, project, f) ==> Within(s, calls, project)
    ensures !HasRoom(s, calls, project, f) ==>
      AdmittedOf(s, calls, project, |calls|) == |TimesOf(calls, project, |calls|)|
  {
    if HasRoom(s, calls, project, f) {
      var lim, times := LimitOf(s, project), TimesOf(calls, project, |calls|);
      TimesOrdered(calls, project, |calls|);
      Isolated(s, calls, project, f, |calls|);
      AtRateSteady(lim.perSecond);
      if |times| > 0 {
        BoundedBy(AtRate(lim.perSecond), lim.burst, StartBucket(s, calls, project, f), times);
      }
    } else {
      Flooded(s, calls, project, f, |calls|);
    }
  }

  /** n calls of one project at one time. */
  function Burst(project: int, t: real, n: nat): seq<Call> {
    seq(n, i => Call(project, t, t))
  }

  lemma {:induction false} BurstTimes(project: int, t: real, n: nat, k: nat)
    requires k <= n
    ensures |TimesOf(Burst(project, t, n), project, k)| == k
    ensures forall i :: 0 <= i < k ==> TimesOf(Burst(project, t, n), project, k)[i] == t
  {
    if k > 0 {
      BurstTimes(project, t, n, k - 1);
    }
  }

  /** The exact condition: every mix of calls that the project begins keeps it within its limit, if and only if it has a
      bucket or there is room for one. */
  lemma {:induction false} BoundedIffRoom(s: State, project: int)
    requires LimitOf(s, project).perSecond >= 0.0 && LimitOf(s, project).burst >= 0.0
    ensures (forall calls :: Ordered(calls) && FirstAt(calls, project, 0) ==> Within(s, calls, project))
      <==> project in s.b || |s.b| < s.max
  {
    if project in s.b || |s.b| < s.max {
      forall calls | Ordered(calls) && FirstAt(calls, project, 0)
        ensures Within(s, calls, project)
      {
        ProjectBounded(s, calls, project, 0);
      }
    } else {
      var n := LimitOf(s, project).burst.Floor + 1;
      var calls := Burst(project, 0.0, n);
      BurstTimes(project, 0.0, n, n);
      Flooded(s, calls, project, 0, n);
      BurstBreaks(s, project, n, calls);
    }
  }

  lemma {:induction false} BurstBreaks(s: State, project: int, n: nat, calls: seq<Call>)
    requires n as real > LimitOf(s, project).burst && n > 0 && calls == Burst(project, 0.0, n)
    requires AdmittedOf(s, calls, project, n) == n && |TimesOf(calls, project, n)| == n
    requires forall i :: 0 <= i < n ==> TimesOf(calls, project, n)[i] == 0.0
    ensures Ordered(calls) && FirstAt(calls, project, 0) && !Within(s, calls, project)
  {
    var lim := LimitOf(s, project);
    assert AtRate(lim.perSecond)(0.0, 0.0) == 0.0;
  }
}
