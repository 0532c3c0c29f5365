/** Expected slots of schedule periods inside a report window, and the counts over
    them (GetMonitorReliabilityReport and UpsertHourlyMonitorRollups). */
module Slots {
  import opened Positions
  import opened Schedule

  function Min(a: int, b: int): int { if a <= b then a else b }
  function Max(a: int, b: int): int { if a >= b then a else b }

  /** COALESCE(periods.ends_at, to). */
  function EndOr(p: Period, to: int): int {
    if p.ends.None? then to else p.ends.value
  }

  /** The definition: t is a grid point of p inside both p and [from, to). */
  ghost predicate Expected(p: Period, from: int, to: int, t: int) {
    OnGrid(p, t) && from <= t < to && p.starts <= t < EndOr(p, to)
  }

  // -------------------------------------------------------------- enumeration

  function CeilDiv(a: int, b: int): int
    requires b > 0
  {
    -((-a) / b)
  }

  function FirstIndex(p: Period, from: int): int
    requires p.interval > 0
  {
    Max(0, CeilDiv(from - p.first, p.interval))
  }

  /** generate_series(start, stop, step). */
  function Series(start: int, stop: int, step: int): seq<int>
    requires step > 0
    decreases stop - start
  {
    if start > stop then [] else [start] + Series(start + step, stop, step)
  }

  function AtLeast(s: seq<int>, low: int): seq<int> {
    if s == [] then []
    else if s[0] >= low then [s[0]] + AtLeast(s[1..], low)
    else AtLeast(s[1..], low)
  }

  /** The lateral join of the queries, for one period. */
  function SlotsIn(p: Period, from: int, to: int): seq<int>
    requires p.interval > 0
  {
    if p.starts >= to || EndOr(p, to) <= from then [] else
      AtLeast(Series(GridPoint(p, FirstIndex(p, from)), Min(EndOr(p, to), to) - 1, p.interval), Max(from, p.starts))
  }

  method GenerateSeries(start: int, stop: int, step: int) returns (s: seq<int>)
    requires step > 0
    ensures s == Series(start, stop, step)
  {
    s := [];
    var at := start;
    while at <= stop
      invariant s + Series(at, stop, step) == Series(start, stop, step)
      decreases stop - at
    {
      assert s + Series(at, stop, step) == s + [at] + Series(at + step, stop, step);
      s := s + [at];
      at := at + step;
    }
  }

  ghost predicate Increasing(s: seq<int>) {
    forall i, j :: 0 <= i < j < |s| ==> s[i] < s[j]
  }

  lemma {:induction false} SeriesElements(start: int, stop: int, step: int, t: int)
    requires step > 0
    ensures t in Series(start, stop, step) <==> t <= stop && exists k :: k >= 0 && t == start + k * step
    decreases stop - start
  {
    if start > stop {
      forall k | k >= 0 && t == start + k * step ensures t > stop { MulMonotone(0, k, step); }
    } else {
      SeriesElements(start + step, stop, step, t);
      var rest := Series(start + step, stop, step);
      assert t in [start] + rest <==> t == start || t in rest;
      if t == start { assert t == start + 0 * step; }
      if exists k :: k >= 0 && t == start + step + k * step {
        var k :| k >= 0 && t == start + step + k * step;
        assert t == start + (k + 1) * step;
      }
      if exists k :: k >= 0 && t == start + k * step {
        var k :| k >= 0 && t == start + k * step;
        if k > 0 { assert t == start + step + (k - 1) * step; }
      }
    }
  }

  lemma {:induction false} SeriesIncreasing(start: int, stop: int, step: int)
    requires step > 0
    ensures Increasing(Series(start, stop, step))
    ensures forall i :: 0 <= i < |Series(start, stop, step)| ==> Series(start, stop, step)[i] >= start
    decreases stop - start
  {
    if start <= stop {
      SeriesIncreasing(start + step, stop, step);
    }
  }

  lemma {:induction false} AtLeastMembers(s: seq<int>, low: int, t: int)
    ensures t in AtLeast(s, low) <==> t in s && t >= low
  {
    if s != [] {
      AtLeastMembers(s[1..], low, t);
      assert t in s <==> t == s[0] || t in s[1..];
    }
  }

  lemma {:induction false} AtLeastIncreasing(s: seq<int>, low: int)
    requires Increasing(s)
    ensures Increasing(AtLeast(s, low))
  {
    if s != [] {
      var r, all := AtLeast(s[1..], low), AtLeast(s, low);
      AtLeastIncreasing(s[1..], low);
      if s[0] >= low {
        forall j | 0 <= j < |r| ensures r[j] > s[0] {
          AtLeastMembers(s[1..], low, r[j]);
          var k :| 0 <= k < |s[1..]| && s[1..][k] == r[j];
          assert s[k + 1] == r[j];
        }
        assert forall i, j :: 0 <= i < j < |all| ==> all[i] < all[j];
      }
    }
  }

  /** ceil jumps to the first grid point not before `from`. */
  lemma FirstIndexIsLeast(p: Period, from: int, k: int)
    requires p.interval > 0 && k >= 0
    ensures GridPoint(p, k) >= from <==> k >= FirstIndex(p, from)
  {
    var a, b := from - p.first, p.interval;
    var q := (-a) / b;
    assert -a == q * b + (-a) % b && 0 <= (-a) % b < b;
    var c := -q;
    assert q * b == -(c * b);
    assert c * b - b < a <= c * b;
    if k >= c {
      MulMonotone(c, k, b);
    } else {
      MulMonotone(k, c - 1, b);
      assert (c - 1) * b == c * b - b;
    }
  }

  /** Counting on from the jump start reaches the grid points not before `from`. */
  lemma {:induction false} JumpReaches(p: Period, from: int, t: int)
    requires p.interval > 0
    ensures var start := GridPoint(p, FirstIndex(p, from));
            (exists k :: k >= 0 && t == start + k * p.interval) <==> OnGrid(p, t) && t >= from
  {
    var n := FirstIndex(p, from);
    var start := GridPoint(p, n);
    if exists k :: k >= 0 && t == start + k * p.interval {
      var k :| k >= 0 && t == start + k * p.interval;
      assert (n + k) * p.interval == n * p.interval + k * p.interval;
      assert GridPoint(p, n + k) == t;
      FirstIndexIsLeast(p, from, n + k);
    }
    if OnGrid(p, t) && t >= from {
      var k :| k >= 0 && GridPoint(p, k) == t;
      FirstIndexIsLeast(p, from, k);
      assert (k - n) * p.interval == k * p.interval - n * p.interval;
      assert t == start + (k - n) * p.interval;
    }
  }

  /** The jump-start series enumerates exactly the expected slots, each once, in order. */
  lemma {:induction false} SlotsExact(p: Period, from: int, to: int, t: int)
    requires p.interval > 0
    ensures t in SlotsIn(p, from, to) <==> Expected(p, from, to, t)
    ensures Increasing(SlotsIn(p, from, to))
  {
    var start, stop := GridPoint(p, FirstIndex(p, from)), Min(EndOr(p, to), to) - 1;
    var s := Series(start, stop, p.interval);
    assert t in s <==> t <= stop && OnGrid(p, t) && t >= from by {
      SeriesElements(start, stop, p.interval, t);
      JumpReaches(p, from, t);
    }
    SeriesIncreasing(start, stop, p.interval);
    AtLeastMembers(s, Max(from, p.starts), t);
    AtLeastIncreasing(s, Max(from, p.starts));
  }

  // ------------------------------------------------------------------- counts

  /** A scheduled result's slot; check_jobs is unique on (monitor_id, scheduled_at). */
  datatype Key = Key(monitor: int, at: int)

  datatype Tally = Tally(expected: int, observed: int, successful: int)

  const ZERO := Tally(0, 0, 0)

  function Add(a: Tally, b: Tally): Tally {
    Tally(a.expected + b.expected, a.observed + b.observed, a.successful + b.successful)
  }

  function One(results: map<Key, bool>, k: Key): Tally {
    Tally(1, if k in results then 1 else 0, if k in results && results[k] then 1 else 0)
  }

  function TallySlots(results: map<Key, bool>, m: int, s: seq<int>): Tally {
    if s == [] then ZERO else Add(One(results, Key(m, s[0])), TallySlots(results, m, s[1..]))
  }

  predicate Proper(periods: seq<Period>) {
    forall i :: 0 <= i < |periods| ==> periods[i].interval > 0
  }

  function PeriodTally(p: Period, results: map<Key, bool>, m: int, from: int, to: int): Tally
    requires p.interval > 0
  {
    TallySlots(results, m, SlotsIn(p, from, to))
  }

  function Sum(ts: seq<Tally>): Tally {
    if ts == [] then ZERO else Add(Sum(ts[..|ts| - 1]), ts[|ts| - 1])
  }

  function Tallies(periods: seq<Period>, results: map<Key, bool>, m: int, from: int, to: int): seq<Tally>
    requires Proper(periods)
  {
    seq(|periods|, i requires 0 <= i < |periods| => PeriodTally(periods[i], results, m, from, to))
  }

  /** GetMonitorReliabilityReport: all periods of the monitor over [from, to). */
  function Report(periods: seq<Period>, results: map<Key, bool>, m: int, from: int, to: int): Tally
    requires Proper(periods)
  {
    Sum(Tallies(periods, results, m, from, to))
  }

  /** GREATEST(expected_checks - observed_checks, 0). */
  function Unknown(t: Tally): int {
    Max(t.expected - t.observed, 0)
  }

  lemma {:induction false} LeastIsFirst(s: seq<int>, t: int)
    requires Increasing(s) && t in s
    ensures s[0] <= t
    ensures t in s[1..] <==> t != s[0]
  {
    var i :| 0 <= i < |s| && s[i] == t;
    if i > 0 { assert s[1..][i - 1] == t; }
  }

  lemma {:induction false} IncreasingUnique(s: seq<int>, r: seq<int>)
    requires Increasing(s) && Increasing(r) && (forall t :: t in s <==> t in r)
    ensures s == r
  {
    assert r != [] ==> r[0] in r;
    if s != [] {
      assert s[0] in s && s[0] in r;
      LeastIsFirst(r, s[0]);
      LeastIsFirst(s, r[0]);
      forall t ensures t in s[1..] <==> t in r[1..] {
        if t in s { LeastIsFirst(s, t); LeastIsFirst(r, t); }
      }
      IncreasingUnique(s[1..], r[1..]);
      assert s == [s[0]] + s[1..] && r == [r[0]] + r[1..];
    }
  }

  lemma AddLaws(a: Tally, b: Tally, c: Tally)
    ensures Add(a, Add(b, c)) == Add(Add(a, b), c)
    ensures Add(ZERO, a) == a == Add(a, ZERO)
  {
  }

  lemma AddSwap(a: Tally, b: Tally, c: Tally, d: Tally)
    ensures Add(Add(a, b), Add(c, d)) == Add(Add(a, c), Add(b, d))
  {
  }

  lemma {:induction false} TallyConcat(results: map<Key, bool>, m: int, s: seq<int>, r: seq<int>)
    ensures TallySlots(results, m, s + r) == Add(TallySlots(results, m, s), TallySlots(results, m, r))
  {
    if s == [] {
      assert s + r == r;
    } else {
      var a, b, c := One(results, Key(m, s[0])), TallySlots(results, m, s[1..]), TallySlots(results, m, r);
      calc {
        TallySlots(results, m, s + r);
        { assert (s + r)[0] == s[0] && (s + r)[1..] == s[1..] + r; }
        Add(a, TallySlots(results, m, s[1..] + r));
        { TallyConcat(results, m, s[1..], r); }
        Add(a, Add(b, c));
        { AddLaws(a, b, c); }
        Add(Add(a, b), c);
        Add(TallySlots(results, m, s), c);
      }
    }
  }

  /** Splitting a window splits a period's slots. */
  lemma {:induction false} SlotsSplit(p: Period, from: int, mid: int, to: int)
    requires p.interval > 0 && from <= mid <= to
    ensures SlotsIn(p, from, to) == SlotsIn(p, from, mid) + SlotsIn(p, mid, to)
  {
    var a, b, c := SlotsIn(p, from, mid), SlotsIn(p, mid, to), SlotsIn(p, from, to);
    forall t
      ensures t in c <==> t in a + b
      ensures t in a ==> t < mid
      ensures t in b ==> t >= mid
    {
      SlotsExact(p, from, mid, t);
      SlotsExact(p, mid, to, t);
      SlotsExact(p, from, to, t);
    }
    SlotsExact(p, from, mid, 0);
    SlotsExact(p, mid, to, 0);
    SlotsExact(p, from, to, 0);
    forall i, j | 0 <= i < j < |a + b| ensures (a + b)[i] < (a + b)[j] {
      if i < |a| <= j { assert (a + b)[i] in a && (a + b)[j] in b; }
    }
    IncreasingUnique(c, a + b);
  }

  lemma {:induction false} PeriodAdds(p: Period, results: map<Key, bool>, m: int, from: int, mid: int, to: int)
    requires p.interval > 0 && from <= mid <= to
    ensures PeriodTally(p, results, m, from, to)
         == Add(PeriodTally(p, results, m, from, mid), PeriodTally(p, results, m, mid, to))
  {
    SlotsSplit(p, from, mid, to);
    TallyConcat(results, m, SlotsIn(p, from, mid), SlotsIn(p, mid, to));
  }

  lemma {:induction false} SumAdds(a: seq<Tally>, b: seq<Tally>, c: seq<Tally>)
    requires |a| == |b| == |c| && forall i :: 0 <= i < |c| ==> c[i] == Add(a[i], b[i])
    ensures Sum(c) == Add(Sum(a), Sum(b))
  {
    if c == [] {
      assert a == [];
      assert b == [];
      assert Sum(a) == ZERO;
      assert Sum(b) == ZERO;
    } else {
      var n := |c| - 1;
      SumAdds(a[..n], b[..n], c[..n]);
      assert Sum(a) == Add(Sum(a[..n]), a[n]);
      assert Sum(b) == Add(Sum(b[..n]), b[n]);
      assert Sum(c) == Add(Sum(c[..n]), c[n]);
      AddSwap(Sum(a[..n]), Sum(b[..n]), a[n], b[n]);
    }
  }

  /** Counts add over adjacent windows. */
  lemma {:induction false} ReportAdds(periods: seq<Period>, results: map<Key, bool>, m: int, from: int, mid: int, to: int)
    requires Proper(periods) && from <= mid <= to
    ensures Report(periods, results, m, from, to)
         == Add(Report(periods, results, m, from, mid), Report(periods, results, m, mid, to))
  {
    var a, b := Tallies(periods, results, m, from, mid), Tallies(periods, results, m, mid, to);
    var c := Tallies(periods, results, m, from, to);
    forall i | 0 <= i < |periods| ensures c[i] == Add(a[i], b[i]) {
      PeriodAdds(periods[i], results, m, from, mid, to);
    }
    SumAdds(a, b, c);
  }

  lemma {:induction false} TallyBounds(results: map<Key, bool>, m: int, s: seq<int>)
    ensures var t := TallySlots(results, m, s); 0 <= t.successful <= t.observed <= t.expected == |s|
  {
    if s != [] { TallyBounds(results, m, s[1..]); }
  }

  predicate Bounded(t: Tally) {
    0 <= t.successful <= t.observed <= t.expected
  }

  lemma {:induction false} SumBounded(ts: seq<Tally>)
    requires forall i :: 0 <= i < |ts| ==> Bounded(ts[i])
    ensures Bounded(Sum(ts))
  {
    if ts != [] { SumBounded(ts[..|ts| - 1]); }
  }

  /** With one scheduled result per slot: successful <= observed and expected = observed + unknown. */
  lemma {:induction false} ReportBounds(periods: seq<Period>, results: map<Key, bool>, m: int, from: int, to: int)
    requires Proper(periods)
    ensures var t := Report(periods, results, m, from, to);
            Bounded(t) && t.expected == t.observed + Unknown(t)
  {
    var ts := Tallies(periods, results, m, from, to);
    forall i | 0 <= i < |ts| ensures Bounded(ts[i]) {
      TallyBounds(results, m, SlotsIn(periods[i], from, to));
    }
    SumBounded(ts);
  }

  /** Report.Normalize: successful is clamped to observed before observed is clamped to expected. */
  function Normalize(t: Tally): Tally {
    var observed, expected := Max(t.observed, 0), Max(t.expected, 0);
    Tally(expected, Min(observed, expected), Min(Max(t.successful, 0), observed))
  }

  /** So the clamped counts bound an uptime exactly when successful and observed did not both exceed expected. */
  lemma NormalizeBoundedIff(t: Tally)
    ensures Bounded(Normalize(t)) <==> Max(t.successful, 0) <= Max(t.expected, 0) || Max(t.observed, 0) <= Max(t.expected, 0)
  {
  }

  lemma RatioBounds(a: int, b: int)
    requires 0 <= a <= b && b > 0
    ensures 0.0 <= a as real / b as real <= 1.0
  {
  }

  /** Counts of the report query pass unchanged, and their uptime and coverage lie between 0 and 1. */
  lemma {:induction false} ReportRatios(periods: seq<Period>, results: map<Key, bool>, m: int, from: int, to: int)
    requires Proper(periods)
    ensures var t := Report(periods, results, m, from, to);
            && Normalize(t) == t
            && (t.observed > 0 ==> 0.0 <= t.successful as real / t.observed as real <= 1.0)
            && (t.expected > 0 ==> 0.0 <= t.observed as real / t.expected as real <= 1.0)
  {
    ReportBounds(periods, results, m, from, to);
    var t := Report(periods, results, m, from, to);
    if t.observed > 0 { RatioBounds(t.successful, t.observed); }
    if t.expected > 0 { RatioBounds(t.observed, t.expected); }
  }

  /** No slot is expected by two periods of a sound monitor. */
  lemma NoSlotTwice(m: Monitor, clock: int, i: nat, j: nat, from: int, to: int, t: int)
    requires Sound(m, clock) && i < j < |m.periods|
    ensures !(Expected(m.periods[i], from, to, t) && Expected(m.periods[j], from, to, t))
  {
  }

  // ------------------------------------------------------- what a report counts

  ghost predicate ExpectedBy(periods: seq<Period>, from: int, to: int, t: int) {
    exists i :: 0 <= i < |periods| && Expected(periods[i], from, to, t)
  }

  /** The slots some period expects in [from, to). */
  ghost function SlotSet(periods: seq<Period>, from: int, to: int): set<int> {
    set t | from <= t < to && ExpectedBy(periods, from, to, t)
  }

  ghost function Observed(slots: set<int>, results: map<Key, bool>, m: int): set<int> {
    set t | t in slots && Key(m, t) in results
  }

  ghost function Successful(slots: set<int>, results: map<Key, bool>, m: int): set<int> {
    set t | t in slots && Key(m, t) in results && results[Key(m, t)]
  }

  /** The three counts of a tally are the sizes of these sets. */
  ghost predicate Counts(c: Tally, slots: set<int>, results: map<Key, bool>, m: int) {
    c.expected == |slots| && c.observed == |Observed(slots, results, m)| && c.successful == |Successful(slots, results, m)|
  }

  lemma SizeUnion(a: set<int>, b: set<int>, c: set<int>)
    requires a !! b && c == a + b
    ensures |c| == |a| + |b|
  {
  }

  lemma {:induction false} ObservedUnion(a: set<int>, b: set<int>, results: map<Key, bool>, m: int)
    requires a !! b
    ensures |Observed(a + b, results, m)| == |Observed(a, results, m)| + |Observed(b, results, m)|
  {
    assert Observed(a + b, results, m) == Observed(a, results, m) + Observed(b, results, m);
    SizeUnion(Observed(a, results, m), Observed(b, results, m), Observed(a + b, results, m));
  }

  lemma {:induction false} SuccessfulUnion(a: set<int>, b: set<int>, results: map<Key, bool>, m: int)
    requires a !! b
    ensures |Successful(a + b, results, m)| == |Successful(a, results, m)| + |Successful(b, results, m)|
  {
    assert Successful(a + b, results, m) == Successful(a, results, m) + Successful(b, results, m);
    SizeUnion(Successful(a, results, m), Successful(b, results, m), Successful(a + b, results, m));
  }

  lemma {:induction false} CountsUnion(c: Tally, d: Tally, a: set<int>, b: set<int>, results: map<Key, bool>, m: int)
    requires Counts(c, a, results, m) && Counts(d, b, results, m) && a !! b
    ensures Counts(Add(c, d), a + b, results, m)
  {
    SizeUnion(a, b, a + b);
    ObservedUnion(a, b, results, m);
    SuccessfulUnion(a, b, results, m);
  }

  lemma {:induction false} CountsNone(results: map<Key, bool>, m: int)
    ensures Counts(ZERO, {}, results, m)
  {
    assert Observed({}, results, m) == {} && Successful({}, results, m) == {};
  }

  lemma {:induction false} CountsOne(t: int, results: map<Key, bool>, m: int)
    ensures Counts(One(results, Key(m, t)), {t}, results, m)
  {
    assert Observed({t}, results, m) == if Key(m, t) in results then {t} else {};
    assert Successful({t}, results, m) == if Key(m, t) in results && results[Key(m, t)] then {t} else {};
  }

  ghost function Elements(s: seq<int>): set<int> {
    set t | t in s
  }

  lemma {:induction false} ElementsFirst(s: seq<int>)
    requires Increasing(s) && s != []
    ensures Increasing(s[1..]) && {s[0]} !! Elements(s[1..]) && Elements(s) == {s[0]} + Elements(s[1..])
  {
    assert s == [s[0]] + s[1..];
  }

  lemma {:induction false} SlotsCounted(results: map<Key, bool>, m: int, s: seq<int>)
    requires Increasing(s)
    ensures Counts(TallySlots(results, m, s), Elements(s), results, m)
  {
    if s == [] {
      assert Elements(s) == {};
      CountsNone(results, m);
    } else {
      ElementsFirst(s);
      SlotsCounted(results, m, s[1..]);
      CountsOne(s[0], results, m);
      CountsUnion(One(results, Key(m, s[0])), TallySlots(results, m, s[1..]), {s[0]}, Elements(s[1..]), results, m);
    }
  }

  lemma {:induction false} PeriodCounted(p: Period, results: map<Key, bool>, m: int, from: int, to: int)
    requires p.interval > 0
    ensures Counts(PeriodTally(p, results, m, from, to), SlotSet([p], from, to), results, m)
  {
    var s := SlotsIn(p, from, to);
    forall t ensures t in s <==> t in SlotSet([p], from, to) {
      SlotsExact(p, from, to, t);
      assert ExpectedBy([p], from, to, t) <==> Expected([p][0], from, to, t);
    }
    SlotsExact(p, from, to, 0);
    SlotsCounted(results, m, s);
    assert Elements(s) == SlotSet([p], from, to);
  }

  ghost predicate Disjoint(periods: seq<Period>, from: int, to: int) {
    forall i, j, t :: 0 <= i < j < |periods| ==> !(Expected(periods[i], from, to, t) && Expected(periods[j], from, to, t))
  }

  lemma {:induction false} LastPeriod(periods: seq<Period>, p: Period, from: int, to: int)
    requires Disjoint(periods + [p], from, to)
    ensures Disjoint(periods, from, to)
    ensures SlotSet(periods + [p], from, to) == SlotSet(periods, from, to) + SlotSet([p], from, to)
    ensures SlotSet(periods, from, to) !! SlotSet([p], from, to)
  {
    var n, all := |periods|, periods + [p];
    assert all[n] == p == [p][0];
    forall i | 0 <= i < n ensures all[i] == periods[i] {}
    forall t
      ensures ExpectedBy([p], from, to, t) <==> Expected(p, from, to, t)
      ensures ExpectedBy(all, from, to, t) <==> ExpectedBy(periods, from, to, t) || Expected(p, from, to, t)
      ensures ExpectedBy(periods, from, to, t) ==> !Expected(p, from, to, t)
    {
      assert Expected([p][0], from, to, t) <==> Expected(p, from, to, t);
      assert Expected(all[n], from, to, t) <==> Expected(p, from, to, t);
      if ExpectedBy(periods, from, to, t) {
        var i :| 0 <= i < n && Expected(periods[i], from, to, t);
        assert Expected(all[i], from, to, t);
      }
    }
    forall i, j, t | 0 <= i < j < n ensures !(Expected(periods[i], from, to, t) && Expected(periods[j], from, to, t)) {
      assert !(Expected(all[i], from, to, t) && Expected(all[j], from, to, t));
    }
  }

  lemma {:induction false} ReportSnoc(periods: seq<Period>, p: Period, results: map<Key, bool>, m: int, from: int, to: int)
    requires Proper(periods + [p])
    ensures Proper(periods) && p.interval > 0
    ensures Report(periods + [p], results, m, from, to) == Add(Report(periods, results, m, from, to), PeriodTally(p, results, m, from, to))
  {
    var all := periods + [p];
    assert all[|periods|] == p && forall i :: 0 <= i < |periods| ==> periods[i] == all[i];
    var ts := Tallies(all, results, m, from, to);
    assert ts[..|periods|] == Tallies(periods, results, m, from, to);
  }

  lemma {:induction false} PeriodsCounted(periods: seq<Period>, results: map<Key, bool>, m: int, from: int, to: int)
    requires Proper(periods) && Disjoint(periods, from, to)
    ensures Counts(Report(periods, results, m, from, to), SlotSet(periods, from, to), results, m)
  {
    if periods == [] {
      assert SlotSet(periods, from, to) == {} && Tallies(periods, results, m, from, to) == [];
      CountsNone(results, m);
    } else {
      var n := |periods| - 1;
      var front, p := periods[..n], periods[n];
      assert periods == front + [p];
      LastPeriod(front, p, from, to);
      ReportSnoc(front, p, results, m, from, to);
      PeriodsCounted(front, results, m, from, to);
      PeriodCounted(p, results, m, from, to);
      CountsUnion(Report(front, results, m, from, to), PeriodTally(p, results, m, from, to),
                  SlotSet(front, from, to), SlotSet([p], from, to), results, m);
    }
  }

  lemma {:induction false} SoundDisjoint(x: Monitor, clock: int, from: int, to: int)
    requires Sound(x, clock)
    ensures Proper(x.periods) && Disjoint(x.periods, from, to)
  {
    forall i, j, t | 0 <= i < j < |x.periods| ensures !(Expected(x.periods[i], from, to, t) && Expected(x.periods[j], from, to, t)) {
      NoSlotTwice(x, clock, i, j, from, to, t);
    }
    assert forall i :: 0 <= i < |x.periods| ==> PeriodOk(x.periods[i], clock);
  }

  /** The report query of a sound monitor: expected counts the slots of its schedule in the
      window, observed those with a result and successful those with a successful one, each once. */
  lemma {:induction false} ReportCounts(x: Monitor, clock: int, results: map<Key, bool>, m: int, from: int, to: int)
    requires Sound(x, clock)
    ensures Proper(x.periods)
    ensures var c, slots := Report(x.periods, results, m, from, to), SlotSet(x.periods, from, to);
            && c.expected == |slots|
            && c.observed == |set t | t in slots && Key(m, t) in results|
            && c.successful == |set t | t in slots && Key(m, t) in results && results[Key(m, t)]|
  {
    SoundDisjoint(x, clock, from, to);
    PeriodsCounted(x.periods, results, m, from, to);
  }

  // -------------------------------------------------------------------- frame

  lemma {:induction false} TallyFrame(results: map<Key, bool>, results': map<Key, bool>, m: int, s: seq<int>)
    requires forall t :: t in s ==> One(results, Key(m, t)) == One(results', Key(m, t))
    ensures TallySlots(results, m, s) == TallySlots(results', m, s)
  {
    if s != [] {
      assert s[0] in s && forall t :: t in s[1..] ==> t in s;
      TallyFrame(results, results', m, s[1..]);
    }
  }

  /** A result elsewhere does not change a report. */
  lemma {:induction false} ReportFrame(periods: seq<Period>, results: map<Key, bool>, k: Key, ok: bool, m: int, from: int, to: int)
    requires Proper(periods) && (k.monitor != m || k.at < from || k.at >= to)
    ensures Report(periods, results[k := ok], m, from, to) == Report(periods, results, m, from, to)
  {
    var ts, ts' := Tallies(periods, results, m, from, to), Tallies(periods, results[k := ok], m, from, to);
    forall i | 0 <= i < |periods| ensures ts[i] == ts'[i] {
      var p := periods[i];
      forall t | t in SlotsIn(p, from, to) ensures Key(m, t) != k { SlotsExact(p, from, to, t); }
      TallyFrame(results, results[k := ok], m, SlotsIn(p, from, to));
    }
    assert ts == ts';
  }

  /** Ending a period at or after the window's end changes nothing in it. */
  lemma {:induction false} CloseKeepsSlots(p: Period, from: int, to: int, now: int)
    requires p.interval > 0 && p.ends.None? && to <= now
    ensures SlotsIn(p.(ends := Some(now)), from, to) == SlotsIn(p, from, to)
  {
    var p' := p.(ends := Some(now));
    forall t ensures t in SlotsIn(p, from, to) <==> t in SlotsIn(p', from, to) {
      SlotsExact(p, from, to, t);
      SlotsExact(p', from, to, t);
      assert forall k :: GridPoint(p, k) == GridPoint(p', k);
    }
    SlotsExact(p, from, to, 0);
    SlotsExact(p', from, to, 0);
    IncreasingUnique(SlotsIn(p, from, to), SlotsIn(p', from, to));
  }

  lemma {:induction false} CloseKeepsReport(periods: seq<Period>, results: map<Key, bool>, m: int, from: int, to: int, now: int)
    requires Proper(periods) && to <= now
    ensures Report(Close(periods, now), results, m, from, to) == Report(periods, results, m, from, to)
  {
    var ts, ts' := Tallies(periods, results, m, from, to), Tallies(Close(periods, now), results, m, from, to);
    forall i | 0 <= i < |periods| ensures ts[i] == ts'[i] {
      if periods[i].ends.None? { CloseKeepsSlots(periods[i], from, to, now); }
    }
    assert ts == ts';
  }

  /** So does starting one then. */
  lemma {:induction false} OpenKeepsReport(periods: seq<Period>, p: Period, results: map<Key, bool>, m: int, from: int, to: int)
    requires Proper(periods) && p.interval > 0 && to <= p.starts
    ensures Proper(periods + [p])
    ensures Report(periods + [p], results, m, from, to) == Report(periods, results, m, from, to)
  {
    var ts, ts' := Tallies(periods, results, m, from, to), Tallies(periods + [p], results, m, from, to);
    assert SlotsIn(p, from, to) == [];
    assert ts'[|periods|] == ZERO;
    assert ts'[..|periods|] == ts;
    AddLaws(Sum(ts), ZERO, ZERO);
  }

  /** Changing a monitor now leaves every window that has already ended alone. */
  lemma {:induction false} StepKeepsReport(x: Monitor, e: Event, now: int, results: map<Key, bool>, m: int, from: int, to: int)
    requires Proper(x.periods) && x.interval > 0 && Allowed(x, e) && to <= now
    ensures Proper(Step(x, e, now).periods)
    ensures Report(Step(x, e, now).periods, results, m, from, to) == Report(x.periods, results, m, from, to)
  {
    var closed := Close(x.periods, now);
    CloseKeepsReport(x.periods, results, m, from, to, now);
    if !x.deleted && ((e.Update? && !x.paused) || e.Resume?) {
      OpenKeepsReport(closed, Step(x, e, now).periods[|closed|], results, m, from, to);
    }
  }
}
