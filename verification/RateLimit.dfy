/** The fixed-window request limiter (internal/httpapi/ratelimit.go). A key names a client
    and a class of requests, so its limit and window are fixed. Times are nanoseconds. */
module RateLimit {
  const SECOND := 1_000_000_000

  type Key = int

  /** What the class of a key allows; NewRateLimiter replaces limits below 1. */
  datatype Quota = Quota(limit: int, window: int)

  predicate Proper(q: Quota) {
    q.limit >= 1 && q.window > 0
  }

  datatype Bucket = Bucket(started: int, count: int)

  /** An admitted request: its time and the start of the window it was counted in. */
  datatype Admission = Admission(at: int, started: int)

  /** The last request's time, the buckets, and for each key what was admitted. */
  datatype Limiter = Limiter(clock: int, buckets: map<Key, Bucket>, log: map<Key, seq<Admission>>)

  const EMPTY := Limiter(0, map[], map[])

  /** The bucket a request at now is counted in. */
  function Current(r: Limiter, k: Key, q: Quota, now: int): Bucket {
    if k !in r.buckets || now - r.buckets[k].started >= q.window then Bucket(now, 0) else r.buckets[k]
  }

  predicate Admits(r: Limiter, k: Key, q: Quota, now: int) {
    Current(r, k, q, now).count < q.limit
  }

  function Log(r: Limiter, k: Key): seq<Admission> {
    if k in r.log then r.log[k] else []
  }

  function Allow(r: Limiter, k: Key, q: Quota, now: int): Limiter {
    var b := Current(r, k, q, now);
    if b.count >= q.limit then r.(clock := now)
    else Limiter(now, r.buckets[k := b.(count := b.count + 1)], r.log[k := Log(r, k) + [Admission(now, b.started)]])
  }

  /** Seconds, rounded up, and at least one. */
  function RetryAfter(b: Bucket, q: Quota, now: int): int {
    var rest := q.window - (now - b.started);
    var seconds := -((-rest) / SECOND);
    if seconds < 1 then 1 else seconds
  }

  datatype Request = Request(key: Key, now: int)

  function Run(rs: seq<Request>, quota: Key -> Quota): Limiter {
    if rs == [] then EMPTY else
      var last := rs[|rs| - 1];
      Allow(Run(rs[..|rs| - 1], quota), last.key, quota(last.key), last.now)
  }

  /** The clock does not run backwards. */
  predicate Monotone(rs: seq<Request>) {
    forall i, j :: 0 <= i < j < |rs| ==> rs[i].now <= rs[j].now
  }

  // -------------------------------------------------------------- invariant

  /** The bucket holds the newest `count` admissions; those before started a window earlier. */
  ghost predicate BucketOk(b: Bucket, log: seq<Admission>, q: Quota) {
    && 1 <= b.count <= |log| && b.count <= q.limit
    && (forall i :: |log| - b.count <= i < |log| ==> log[i].started == b.started)
    && (forall i :: 0 <= i < |log| - b.count ==> log[i].started + q.window <= b.started)
  }

  ghost predicate LogOk(log: seq<Admission>, q: Quota, clock: int) {
    && (forall i :: 0 <= i < |log| ==> log[i].started <= log[i].at < log[i].started + q.window && log[i].at <= clock)
    && (forall i, j :: 0 <= i < j < |log| ==> log[i].at <= log[j].at)
    && (forall i :: Spaced(log, i, q))
  }

  /** An admission and the one `limit` later belong to windows that do not overlap. */
  ghost predicate Spaced(log: seq<Admission>, i: int, q: Quota) {
    0 <= i && 0 <= i + q.limit < |log| && i < |log| ==> log[i].started + q.window <= log[i + q.limit].started
  }

  ghost predicate KeyOk(r: Limiter, k: Key, q: Quota) {
    && LogOk(Log(r, k), q, r.clock)
    && (k in r.buckets <==> Log(r, k) != [])
    && (k in r.buckets ==> BucketOk(r.buckets[k], Log(r, k), q))
  }

  lemma {:induction false} AppendSpaced(log: seq<Admission>, q: Quota, b: Bucket, now: int, i: int)
    requires Proper(q) && (forall j :: Spaced(log, j, q)) && 0 <= b.count < q.limit && b.count <= |log|
    requires forall j :: 0 <= j < |log| - b.count ==> log[j].started + q.window <= b.started
    ensures Spaced(log + [Admission(now, b.started)], i, q)
  {
    assert Spaced(log, i, q);
  }

  lemma {:induction false} AppendOk(log: seq<Admission>, q: Quota, clock: int, b: Bucket, now: int)
    requires Proper(q) && LogOk(log, q, clock) && clock <= now && b.started <= now < b.started + q.window
    requires 0 <= b.count < q.limit && b.count <= |log|
    requires forall j :: |log| - b.count <= j < |log| ==> log[j].started == b.started
    requires forall j :: 0 <= j < |log| - b.count ==> log[j].started + q.window <= b.started
    ensures var log' := log + [Admission(now, b.started)];
            LogOk(log', q, now) && BucketOk(b.(count := b.count + 1), log', q)
  {
    forall i ensures Spaced(log + [Admission(now, b.started)], i, q) { AppendSpaced(log, q, b, now, i); }
  }

  /** The bucket a request is counted in describes the end of the log. */
  lemma {:induction false} CurrentOk(r: Limiter, k: Key, q: Quota, now: int)
    requires KeyOk(r, k, q) && r.clock <= now && Proper(q)
    ensures var b, log := Current(r, k, q, now), Log(r, k);
            && b.started <= now < b.started + q.window && 0 <= b.count <= |log|
            && (forall j :: |log| - b.count <= j < |log| ==> log[j].started == b.started)
            && (forall j :: 0 <= j < |log| - b.count ==> log[j].started + q.window <= b.started)
  {
    var log := Log(r, k);
    if k in r.buckets { assert log[|log| - 1].started == r.buckets[k].started; }
  }

  lemma {:induction false} AllowKeeps(r: Limiter, k: Key, q: Quota, now: int)
    requires KeyOk(r, k, q) && r.clock <= now && Proper(q)
    ensures KeyOk(Allow(r, k, q, now), k, q)
  {
    CurrentOk(r, k, q, now);
    if Admits(r, k, q, now) { AppendOk(Log(r, k), q, r.clock, Current(r, k, q, now), now); }
  }

  lemma {:induction false} EveryRunOk(rs: seq<Request>, quota: Key -> Quota, k: Key)
    requires Monotone(rs) && (rs != [] ==> rs[0].now >= 0) && forall key :: Proper(quota(key))
    ensures KeyOk(Run(rs, quota), k, quota(k))
    ensures rs != [] ==> Run(rs, quota).clock == rs[|rs| - 1].now
    ensures rs == [] ==> Run(rs, quota).clock == 0
  {
    if rs != [] {
      var front, last := rs[..|rs| - 1], rs[|rs| - 1];
      EveryRunOk(front, quota, k);
      var r := Run(front, quota);
      assert r.clock <= last.now;
      if last.key == k {
        AllowKeeps(r, k, quota(k), last.now);
      } else {
        var r' := Run(rs, quota);
        assert Log(r', k) == Log(r, k);
      }
    }
  }

  // ----------------------------------------------------------- main theorems

  lemma {:induction false} TwoLimitsApart(log: seq<Admission>, q: Quota, clock: int, i: nat, j: nat)
    requires LogOk(log, q, clock) && Proper(q) && i + 2 * q.limit <= j < |log|
    ensures log[i].at + q.window < log[j].at
  {
    var n := i + 2 * q.limit;
    assert Spaced(log, i, q) && Spaced(log, i + q.limit, q);
    assert log[n].at <= log[j].at;
  }

  /** With a monotone clock, every closed interval as long as the window holds at most
      2 * limit admitted requests of a key, over any run. */
  lemma {:induction false} AtMostTwiceTheLimit(rs: seq<Request>, quota: Key -> Quota, k: Key, from: int, i: nat, j: nat)
    requires Monotone(rs) && (rs != [] ==> rs[0].now >= 0) && forall key :: Proper(quota(key))
    requires i <= j < |Log(Run(rs, quota), k)|
    requires from <= Log(Run(rs, quota), k)[i].at && Log(Run(rs, quota), k)[j].at <= from + quota(k).window
    ensures j - i + 1 <= 2 * quota(k).limit
  {
    EveryRunOk(rs, quota, k);
    var log, q := Log(Run(rs, quota), k), quota(k);
    if i + 2 * q.limit <= j { TwoLimitsApart(log, q, Run(rs, quota).clock, i, j); }
  }

  /** The log is what was admitted: one entry per admitted request of the key, in order. */
  lemma {:induction false} LogIsWhatWasAdmitted(rs: seq<Request>, quota: Key -> Quota, k: Key)
    requires rs != []
    ensures var front, last := rs[..|rs| - 1], rs[|rs| - 1];
            var r := Run(front, quota);
            if last.key == k && Admits(r, k, quota(k), last.now)
            then exists started :: Log(Run(rs, quota), k) == Log(r, k) + [Admission(last.now, started)]
            else Log(Run(rs, quota), k) == Log(r, k)
  {
    var front, last := rs[..|rs| - 1], rs[|rs| - 1];
    var r := Run(front, quota);
    if last.key == k && Admits(r, k, quota(k), last.now) {
      assert Log(Run(rs, quota), k) == Log(r, k) + [Admission(last.now, Current(r, k, quota(k), last.now).started)];
    }
  }

  /** n requests of one key at one time. */
  function Burst(k: Key, n: nat, at: int): seq<Request> {
    if n == 0 then [] else Burst(k, n - 1, at) + [Request(k, at)]
  }

  function Repeat(x: Admission, n: nat): seq<Admission> {
    if n == 0 then [] else Repeat(x, n - 1) + [x]
  }

  lemma {:induction false} RunSnoc(rs: seq<Request>, last: Request, quota: Key -> Quota)
    ensures Run(rs + [last], quota) == Allow(Run(rs, quota), last.key, quota(last.key), last.now)
  {
    assert (rs + [last])[..|rs|] == rs;
  }

  /** r is r0 after n admitted requests of k in a window that started at `at`. */
  ghost predicate Filled(r0: Limiter, r: Limiter, k: Key, q: Quota, at: int, n: nat) {
    && Log(r, k) == Log(r0, k) + Repeat(Admission(at, at), n)
    && (if n == 0 then k !in r.buckets || at - r.buckets[k].started >= q.window else k in r.buckets && r.buckets[k] == Bucket(at, n))
  }

  lemma {:induction false} OneMore(r0: Limiter, r: Limiter, k: Key, q: Quota, at: int, n: nat)
    requires Proper(q) && Filled(r0, r, k, q, at, n) && n < q.limit
    ensures Filled(r0, Allow(r, k, q, at), k, q, at, n + 1)
  {
    assert Current(r, k, q, at) == Bucket(at, n);
    assert Log(Allow(r, k, q, at), k) == Log(r, k) + [Admission(at, at)];
  }

  function AllowAll(r: Limiter, k: Key, q: Quota, at: int, n: nat): Limiter {
    if n == 0 then r else Allow(AllowAll(r, k, q, at, n - 1), k, q, at)
  }

  /** A burst that opens a window and fits the limit is admitted. */
  lemma {:induction false} BurstAdmitted(r: Limiter, k: Key, q: Quota, at: int, n: nat)
    requires Proper(q) && n <= q.limit && Filled(r, r, k, q, at, 0)
    ensures Filled(r, AllowAll(r, k, q, at, n), k, q, at, n)
  {
    if n > 0 {
      BurstAdmitted(r, k, q, at, n - 1);
      OneMore(r, AllowAll(r, k, q, at, n - 1), k, q, at, n - 1);
    }
  }

  lemma {:induction false} BurstGrows(rs: seq<Request>, k: Key, n: nat, at: int)
    ensures rs + Burst(k, n + 1, at) == (rs + Burst(k, n, at)) + [Request(k, at)]
    ensures rs + Burst(k, 0, at) == rs
  {
  }

  lemma {:induction false} RunBurst(rs: seq<Request>, quota: Key -> Quota, k: Key, n: nat, at: int)
    ensures Run(rs + Burst(k, n, at), quota) == AllowAll(Run(rs, quota), k, quota(k), at, n)
    decreases n
  {
    if n == 0 {
      BurstGrows(rs, k, 0, at);
    } else {
      BurstGrows(rs, k, n - 1, at);
      RunSnoc(rs + Burst(k, n - 1, at), Request(k, at), quota);
      RunBurst(rs, quota, k, n - 1, at);
    }
  }

  lemma {:induction false} RepeatLength(x: Admission, n: nat)
    ensures |Repeat(x, n)| == n && forall i :: 0 <= i < n ==> Repeat(x, n)[i] == x
  {
    if n > 0 { RepeatLength(x, n - 1); }
  }

  /** The bound is met for every limit and window: limit requests at 0 and limit requests at
      the end of the window are all admitted, 2 * limit within one window length. */
  lemma {:induction false} TwiceTheLimitHappens(k: Key, quota: Key -> Quota)
    requires Proper(quota(k))
    ensures var q := quota(k);
            var log := Log(Run(Burst(k, q.limit, 0) + Burst(k, q.limit, q.window), quota), k);
            |log| == 2 * q.limit && forall i :: 0 <= i < |log| ==> 0 <= log[i].at <= q.window
  {
    var q := quota(k);
    RunBurst([], quota, k, q.limit, 0);
    assert [] + Burst(k, q.limit, 0) == Burst(k, q.limit, 0);
    RunBurst(Burst(k, q.limit, 0), quota, k, q.limit, q.window);
    TwoBursts(k, q);
    RepeatLength(Admission(0, 0), q.limit);
    RepeatLength(Admission(q.window, q.window), q.limit);
  }

  lemma {:induction false} TwoBursts(k: Key, q: Quota)
    requires Proper(q)
    ensures Log(AllowAll(AllowAll(EMPTY, k, q, 0, q.limit), k, q, q.window, q.limit), k) ==
            Repeat(Admission(0, 0), q.limit) + Repeat(Admission(q.window, q.window), q.limit)
  {
    BurstAdmitted(EMPTY, k, q, 0, q.limit);
    var r := AllowAll(EMPTY, k, q, 0, q.limit);
    assert Log(EMPTY, k) == [];
    assert Filled(r, r, k, q, q.window, 0);
    BurstAdmitted(r, k, q, q.window, q.limit);
  }

  /** Nothing of the key is admitted from r to r'. */
  ghost predicate Untouched(r: Limiter, r': Limiter, k: Key) {
    (k in r.buckets <==> k in r'.buckets) && (k in r.buckets ==> r'.buckets[k] == r.buckets[k])
  }

  /** Retry-After is sound: after a refusal at now, a request at least that many seconds
      later is admitted if no other request of the key was in between. */
  lemma {:induction false} RetryAfterSound(r: Limiter, r': Limiter, k: Key, q: Quota, now: int, later: int)
    requires Proper(q) && !Admits(r, k, q, now) && Untouched(r, r', k)
    requires later >= now + RetryAfter(Current(r, k, q, now), q, now) * SECOND
    ensures Admits(r', k, q, later)
  {
    var b := Current(r, k, q, now);
    var rest := q.window - (now - b.started);
    var seconds := -((-rest) / SECOND);
    assert seconds * SECOND >= rest;
  }

  /** And not a second too long: with the key untouched, admission starts exactly when the window ends. */
  lemma {:induction false} RetryAfterTight(r: Limiter, k: Key, q: Quota, now: int, later: int)
    requires Proper(q) && !Admits(r, k, q, now) && k in r.buckets && later >= now >= r.buckets[k].started
    ensures Admits(r, k, q, later) <==> later >= r.buckets[k].started + q.window
    ensures var wait := RetryAfter(Current(r, k, q, now), q, now);
            wait >= 1 && now + (wait - 1) * SECOND < r.buckets[k].started + q.window
  {
    var rest := q.window - (now - r.buckets[k].started);
    var seconds := -((-rest) / SECOND);
    assert (seconds - 1) * SECOND < rest;
  }

  // -------------------------------------------------------------- the limiter

  class RateLimiter {
    var clock: int
    var buckets: map<Key, Bucket>
    ghost var log: map<Key, seq<Admission>>

    constructor ()
      ensures Now() == EMPTY
    {
      clock, buckets, log := 0, map[], map[];
    }

    ghost function Now(): Limiter
      reads this
    {
      Limiter(clock, buckets, log)
    }

    method AllowRequest(key: Key, q: Quota, now: int) returns (allowed: bool, retry: int)
      modifies this
      ensures Now() == Allow(old(Now()), key, q, now)
      ensures allowed == Admits(old(Now()), key, q, now)
      ensures retry == if allowed then 0 else RetryAfter(Current(old(Now()), key, q, now), q, now)
    {
      clock := now;
      var bucket := if key in buckets then buckets[key] else Bucket(now, 0);
      if key !in buckets || now - bucket.started >= q.window { bucket := Bucket(now, 0); }
      if bucket.count >= q.limit {
        retry := -((-(q.window - (now - bucket.started))) / SECOND);
        if retry < 1 { retry := 1; }
        return false, retry;
      }
      log := log[key := (if key in log then log[key] else []) + [Admission(now, bucket.started)]];
      bucket := bucket.(count := bucket.count + 1);
      buckets := buckets[key := bucket];
      return true, 0;
    }
  }
}
