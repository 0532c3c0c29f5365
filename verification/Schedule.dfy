/** Schedule periods and next_check_at of a monitor (internal/monitor/lifecycle.go,
    internal/fifo/scheduler.go). Times are microseconds. */
module Schedule {
  import opened Positions

  const SECOND := 1_000_000
  const START_WINDOW := 120 * SECOND

  /** One row of monitor_schedule_periods: slots first, first + interval, ... before ends. */
  datatype Period = Period(starts: int, first: int, interval: int, ends: Option<int>)

  datatype Monitor = Monitor(paused: bool, deleted: bool, interval: int, next: int, periods: seq<Period>)

  function GridPoint(p: Period, k: int): int {
    p.first + k * p.interval
  }

  ghost predicate OnGrid(p: Period, t: int) {
    exists k :: k >= 0 && GridPoint(p, k) == t
  }

  // ------------------------------------------------------------- nextSchedule

  /** Go's integer division truncates toward zero. */
  function Quotient(a: int, b: int): int
    requires b > 0
  {
    if a >= 0 then a / b else -((-a) / b)
  }

  function NextSchedule(scheduled: int, now: int, interval: int): Option<int> {
    if interval <= 0 then None else
      var q := Quotient(now - scheduled, interval) + 1;
      var periods := if q < 1 then 1 else q;
      var next := scheduled + periods * interval;
      Some(if next <= now then next + interval else next)
  }

  lemma MulMonotone(j: int, k: int, step: int)
    requires j <= k && step > 0
    ensures j * step <= k * step
  {
  }

  lemma NextSchedulePeriods(scheduled: int, now: int, interval: int) returns (k: int)
    requires interval > 0
    ensures k >= 1 && NextSchedule(scheduled, now, interval) == Some(scheduled + k * interval)
    ensures scheduled + k * interval > now
    ensures k == 1 || scheduled + (k - 1) * interval <= now
  {
    var d := now - scheduled;
    k := if d >= 0 then d / interval + 1 else 1;
    if d >= 0 {
      assert d == (k - 1) * interval + d % interval;
      assert k * interval == (k - 1) * interval + interval;
    } else {
      assert (-d) / interval >= 0;
      assert 1 * interval == interval;
    }
  }

  /** The result is the first slot after `scheduled` that lies in the future. */
  lemma NextScheduleIsLeast(scheduled: int, now: int, interval: int, j: int)
    requires interval > 0
    ensures NextSchedule(scheduled, now, interval).Some?
    ensures var next := NextSchedule(scheduled, now, interval).value;
            && next > now
            && (exists k :: k >= 1 && next == scheduled + k * interval)
            && (j >= 1 && scheduled + j * interval > now ==> next <= scheduled + j * interval)
  {
    var k := NextSchedulePeriods(scheduled, now, interval);
    if j < k {
      MulMonotone(j, k - 1, interval);
    } else {
      MulMonotone(k, j, interval);
    }
  }

  // ---------------------------------------------------------------- lifecycle

  function Close(periods: seq<Period>, now: int): seq<Period> {
    seq(|periods|, i requires 0 <= i < |periods| =>
      if periods[i].ends.None? then periods[i].(ends := Some(now)) else periods[i])
  }

  function Reopen(m: Monitor, now: int): Monitor {
    m.(periods := Close(m.periods, now) + [Period(now, m.next, m.interval, None)])
  }

  /** offset is the stable per-monitor spread, taken modulo the interval. */
  datatype Event =
    | Update(interval: int, offset: int)
    | Pause
    | Resume(offset: int)
    | Delete
    | Advance

  function Created(interval: int, offset: int, now: int): Monitor {
    Monitor(false, false, interval, now + offset, [Period(now, now + offset, interval, None)])
  }

  predicate Active(m: Monitor) {
    !m.paused && !m.deleted
  }

  predicate Due(m: Monitor, now: int) {
    Active(m) && m.next <= now
  }

  function Step(m: Monitor, e: Event, now: int): Monitor {
    if m.deleted then m else
    match e
    case Update(interval, offset) =>
      if m.paused then m.(interval := interval, periods := Close(m.periods, now))
      else Reopen(m.(interval := interval, next := now + offset), now)
    case Pause => m.(paused := true, periods := Close(m.periods, now))
    case Resume(offset) => Reopen(m.(paused := false, next := now + offset), now)
    case Delete => m.(deleted := true, periods := Close(m.periods, now))
    case Advance =>
      var next := NextSchedule(m.next, now, m.interval);
      if Due(m, now) && next.Some? then m.(next := next.value) else m
  }

  /** What the input checks and the modulo guarantee. */
  predicate Allowed(m: Monitor, e: Event) {
    match e
    case Update(interval, offset) => 0 <= offset < interval
    case Resume(offset) => 0 <= offset < m.interval
    case Pause => true
    case Delete => true
    case Advance => true
  }

  /** The monitor row and its periods, as the service updates them. */
  class MonitorRow {
    var paused: bool
    var deleted: bool
    var interval: int
    var next: int
    var periods: seq<Period>

    constructor (interval: int, offset: int, now: int)
      ensures Now() == Created(interval, offset, now)
    {
      paused, deleted, this.interval, next := false, false, interval, now + offset;
      periods := [Period(now, now + offset, interval, None)];
    }

    function Now(): Monitor
      reads this
    {
      Monitor(paused, deleted, interval, next, periods)
    }

    method ClosePeriods(now: int)
      modifies this`periods
      ensures periods == Close(old(periods), now)
    {
      var i := 0;
      while i < |periods|
        invariant 0 <= i <= |periods| == |old(periods)|
        invariant forall k :: 0 <= k < i ==> periods[k] == Close(old(periods), now)[k]
        invariant forall k :: i <= k < |periods| ==> periods[k] == old(periods)[k]
      {
        if periods[i].ends.None? {
          periods := periods[i := periods[i].(ends := Some(now))];
        }
        i := i + 1;
      }
    }

    method Apply(e: Event, now: int)
      modifies this
      ensures Now() == Step(old(Now()), e, now)
    {
      if deleted { return; }
      match e
      case Update(newInterval, offset) =>
        interval := newInterval;
        if !paused { next := now + offset; }
        ClosePeriods(now);
        if !paused { periods := periods + [Period(now, next, interval, None)]; }
      case Pause =>
        paused := true;
        ClosePeriods(now);
      case Resume(offset) =>
        paused, next := false, now + offset;
        ClosePeriods(now);
        periods := periods + [Period(now, next, interval, None)];
      case Delete =>
        deleted := true;
        ClosePeriods(now);
      case Advance =>
        var later := NextSchedule(next, now, interval);
        if !paused && next <= now && later.Some? { next := later.value; }
    }
  }

  // ---------------------------------------------------------------- invariant

  ghost predicate PeriodOk(p: Period, clock: int) {
    p.interval > 0 && p.starts <= p.first && p.starts <= clock &&
    (p.ends.Some? ==> p.starts <= p.ends.value <= clock)
  }

  /** Exactly one open period, the newest, when active, with next_check_at on its
      grid; none otherwise; and periods never overlap. */
  ghost predicate Sound(m: Monitor, clock: int) {
    && m.interval > 0
    && (forall i :: 0 <= i < |m.periods| ==> PeriodOk(m.periods[i], clock))
    && (forall i, j :: 0 <= i < j < |m.periods| ==>
          m.periods[i].ends.Some? && m.periods[i].ends.value <= m.periods[j].starts)
    && (Active(m) ==> m.periods != [] && OpenSound(m.periods[|m.periods| - 1], m))
    && (!Active(m) ==> forall i :: 0 <= i < |m.periods| ==> m.periods[i].ends.Some?)
  }

  ghost predicate OpenSound(p: Period, m: Monitor) {
    p.ends.None? && p.interval == m.interval && OnGrid(p, m.next)
  }

  function OpenPeriod(m: Monitor): Period
    requires m.periods != []
  {
    m.periods[|m.periods| - 1]
  }

  lemma CreatedSound(interval: int, offset: int, now: int)
    requires 0 <= offset < interval
    ensures Sound(Created(interval, offset, now), now)
  {
    var m := Created(interval, offset, now);
    assert GridPoint(OpenPeriod(m), 0) == m.next;
  }

  lemma AdvanceOnGrid(p: Period, t: int, now: int)
    requires p.interval > 0 && OnGrid(p, t)
    ensures NextSchedule(t, now, p.interval).Some? && OnGrid(p, NextSchedule(t, now, p.interval).value)
  {
    var j :| j >= 0 && GridPoint(p, j) == t;
    var k := NextSchedulePeriods(t, now, p.interval);
    assert (j + k) * p.interval == j * p.interval + k * p.interval;
    assert GridPoint(p, j + k) == t + k * p.interval;
  }

  lemma SoundLater(m: Monitor, clock: int, now: int)
    requires Sound(m, clock) && clock <= now
    ensures Sound(m, now)
  {
  }

  /** Closing every period now leaves closed, disjoint periods. */
  lemma CloseSound(m: Monitor, clock: int, now: int)
    requires Sound(m, clock) && clock <= now
    ensures var ps := Close(m.periods, now);
            && (forall i :: 0 <= i < |ps| ==> PeriodOk(ps[i], now) && ps[i].ends.Some?)
            && (forall i, j :: 0 <= i < j < |ps| ==> ps[i].ends.value <= ps[j].starts)
  {
  }

  lemma ReopenSound(m: Monitor, clock: int, interval: int, next: int, now: int)
    requires Sound(m, clock) && clock <= now <= next && interval > 0
    ensures Sound(Reopen(m.(paused := false, deleted := false, interval := interval, next := next), now), now)
  {
    CloseSound(m, clock, now);
    var m' := Reopen(m.(paused := false, deleted := false, interval := interval, next := next), now);
    assert GridPoint(OpenPeriod(m'), 0) == m'.next;
  }

  lemma StepSound(m: Monitor, e: Event, clock: int, now: int)
    requires Sound(m, clock) && clock <= now && Allowed(m, e)
    ensures Sound(Step(m, e, now), now)
  {
    SoundLater(m, clock, now);
    if !m.deleted {
      match e
      case Update(interval, offset) =>
        if m.paused { CloseSound(m, clock, now); } else { ReopenSound(m, clock, interval, now + offset, now); }
      case Resume(offset) => ReopenSound(m, clock, m.interval, now + offset, now);
      case Pause => CloseSound(m, clock, now);
      case Delete => CloseSound(m, clock, now);
      case Advance => if Due(m, now) { AdvanceOnGrid(OpenPeriod(m), m.next, now); }
    }
  }

  // --------------------------------------------------------------------- runs

  datatype Timed = Timed(e: Event, now: int)

  function Run(m: Monitor, es: seq<Timed>): Monitor {
    if es == [] then m else Step(Run(m, es[..|es| - 1]), es[|es| - 1].e, es[|es| - 1].now)
  }

  function Clock(start: int, es: seq<Timed>): int {
    if es == [] then start else es[|es| - 1].now
  }

  /** Time does not run backwards and every input passed its checks. */
  predicate Legal(m: Monitor, start: int, es: seq<Timed>) {
    es == [] || (
      var front, last := es[..|es| - 1], es[|es| - 1];
      Legal(m, start, front) && Clock(start, front) <= last.now && Allowed(Run(m, front), last.e))
  }

  lemma {:induction false} EveryRunSound(m: Monitor, start: int, es: seq<Timed>)
    requires Sound(m, start) && Legal(m, start, es)
    ensures Sound(Run(m, es), Clock(start, es))
  {
    if es != [] {
      var front, last := es[..|es| - 1], es[|es| - 1];
      EveryRunSound(m, start, front);
      StepSound(Run(m, front), last.e, Clock(start, front), last.now);
    }
  }

  // --------------------------------------------- what the row and periods record

  /** Some pause has not been followed by a resume. */
  ghost predicate LeftPaused(es: seq<Timed>) {
    exists i :: 0 <= i < |es| && PausedFrom(es, i)
  }

  ghost predicate PausedFrom(es: seq<Timed>, i: nat)
    requires i < |es|
  {
    es[i].e.Pause? && forall k :: i < k < |es| ==> !es[k].e.Resume?
  }

  ghost predicate EverDeleted(es: seq<Timed>) {
    exists i :: 0 <= i < |es| && es[i].e.Delete?
  }

  lemma {:induction false} LeftPausedSnoc(es: seq<Timed>, e: Timed)
    ensures LeftPaused(es + [e]) <==> e.e.Pause? || (LeftPaused(es) && !e.e.Resume?)
    ensures EverDeleted(es + [e]) <==> EverDeleted(es) || e.e.Delete?
  {
    var all, n := es + [e], |es|;
    assert all[n] == e && forall i :: 0 <= i < n ==> all[i] == es[i];
    if e.e.Pause? { assert PausedFrom(all, n); }
    if LeftPaused(es) && !e.e.Resume? {
      var i :| 0 <= i < n && PausedFrom(es, i);
      assert PausedFrom(all, i);
    }
    if LeftPaused(all) && !e.e.Pause? {
      var i :| 0 <= i < n + 1 && PausedFrom(all, i);
      assert PausedFrom(es, i);
    }
  }

  /** The interval of the last update. */
  function LastInterval(interval: int, es: seq<Timed>): int {
    if es == [] then interval
    else if es[|es| - 1].e.Update? then es[|es| - 1].e.interval
    else LastInterval(interval, es[..|es| - 1])
  }

  /** In every run a monitor is active exactly when it was never deleted and every pause
      was followed by a resume; until it is deleted its interval is the last update's. */
  lemma {:induction false} ActiveIff(interval: int, offset: int, start: int, es: seq<Timed>)
    ensures var m := Run(Created(interval, offset, start), es);
            && (m.deleted <==> EverDeleted(es))
            && (!m.deleted ==> (m.paused <==> LeftPaused(es)) && m.interval == LastInterval(interval, es))
    ensures Active(Run(Created(interval, offset, start), es)) <==> !EverDeleted(es) && !LeftPaused(es)
  {
    if es != [] {
      var front, last := es[..|es| - 1], es[|es| - 1];
      ActiveIff(interval, offset, start, front);
      assert es == front + [last];
      LeftPausedSnoc(front, last);
    }
  }

  /** p was in force at t. */
  predicate InForce(p: Period, t: int) {
    p.starts <= t && (p.ends.Some? ==> t < p.ends.value)
  }

  /** The periods in force at t say what m is like. */
  ghost predicate Recorded(periods: seq<Period>, t: int, m: Monitor) {
    && (Active(m) <==> exists i :: 0 <= i < |periods| && InForce(periods[i], t))
    && forall i :: 0 <= i < |periods| && InForce(periods[i], t) ==> periods[i].interval == m.interval
  }

  lemma {:induction false} LaterKeepsForce(m: Monitor, e: Event, now: int, t: int, x: Monitor)
    requires t < now && Recorded(m.periods, t, x)
    ensures Recorded(Step(m, e, now).periods, t, x)
  {
    var a, b := m.periods, Step(m, e, now).periods;
    assert |a| <= |b| && forall i :: 0 <= i < |a| ==> (InForce(a[i], t) <==> InForce(b[i], t)) && b[i].interval == a[i].interval;
    assert forall i :: |a| <= i < |b| ==> !InForce(b[i], t);
    if Active(x) {
      var i :| 0 <= i < |a| && InForce(a[i], t);
      assert InForce(b[i], t);
    }
  }

  /** The periods are the monitor's history: at any time t of a run, after its first n
      events and before the next, some period in force at t says that the monitor was
      active then, and with which interval, whatever happened since. */
  lemma {:induction false} PeriodsAreHistory(interval: int, offset: int, start: int, es: seq<Timed>, n: nat, t: int)
    requires 0 <= offset < interval && Legal(Created(interval, offset, start), start, es)
    requires n <= |es| && Clock(start, es[..n]) <= t && (n < |es| ==> t < es[n].now)
    ensures Recorded(Run(Created(interval, offset, start), es).periods, t, Run(Created(interval, offset, start), es[..n]))
  {
    var m := Created(interval, offset, start);
    if n == |es| {
      assert es[..n] == es;
      CreatedSound(interval, offset, start);
      EveryRunSound(m, start, es);
      NowInForce(Run(m, es), Clock(start, es), t);
    } else {
      var last := |es| - 1;
      assert es[..last][..n] == es[..n];
      ClockMonotone(m, start, es, n, last);
      PeriodsAreHistory(interval, offset, start, es[..last], n, t);
      LaterKeepsForce(Run(m, es[..last]), es[last].e, es[last].now, t, Run(m, es[..n]));
    }
  }

  lemma {:induction false} NowInForce(m: Monitor, clock: int, t: int)
    requires Sound(m, clock) && clock <= t
    ensures Recorded(m.periods, t, m)
  {
    if Active(m) { assert InForce(OpenPeriod(m), t); }
  }

  lemma {:induction false} ClockMonotone(m: Monitor, start: int, es: seq<Timed>, n: nat, k: nat)
    requires Legal(m, start, es) && n <= k < |es|
    ensures es[n].now <= es[k].now
    decreases |es|
  {
    var last := |es| - 1;
    if n < last {
      ClockMonotone(m, start, es[..last], n, if k < last then k else last - 1);
    }
  }

  /** p is the first period, or was opened by an update or a resumption, which dates it and its first slot. */
  ghost predicate OpenedFor(p: Period, interval: int, offset: int, start: int, es: seq<Timed>) {
    || (p.starts == start && p.first == start + offset && p.interval == interval)
    || (exists k :: 0 <= k < |es| && OpenedAt(p, es[k]))
  }

  predicate OpenedAt(p: Period, e: Timed) {
    match e.e
    case Update(interval, offset) => p.starts == e.now && p.first == e.now + offset && p.interval == interval
    case Resume(offset) => p.starts == e.now && p.first == e.now + offset
    case _ => false
  }

  /** Every period of a run has such an origin. */
  lemma {:induction false} PeriodOrigins(interval: int, offset: int, start: int, es: seq<Timed>, i: nat)
    requires i < |Run(Created(interval, offset, start), es).periods|
    ensures OpenedFor(Run(Created(interval, offset, start), es).periods[i], interval, offset, start, es)
  {
    if es != [] {
      var n := |es| - 1;
      var m := Run(Created(interval, offset, start), es[..n]);
      var p := Step(m, es[n].e, es[n].now).periods[i];
      if i < |m.periods| {
        PeriodOrigins(interval, offset, start, es[..n], i);
        if k :| 0 <= k < n && OpenedAt(m.periods[i], es[..n][k]) { assert OpenedAt(p, es[k]); }
      } else {
        assert OpenedAt(p, es[n]);
      }
    }
  }

  // --------------------------------------------------- what the scheduler uses

  /** The slot of the job created for a due monitor; a monitor overdue by more than the start window
      gets a catch-up job at the current time. */
  function JobSlot(m: Monitor, now: int): int {
    if m.next + START_WINDOW < now then now else m.next
  }

  /** In every run, from creation on: a job created inside its start window sits on
      a slot of the one open period; a catch-up job does exactly when now happens to. */
  lemma {:induction false} JobsOnGrid(interval: int, offset: int, start: int, es: seq<Timed>, now: int)
    requires 0 <= offset < interval
    requires Legal(Created(interval, offset, start), start, es) && Clock(start, es) <= now
    ensures var m := Run(Created(interval, offset, start), es);
            Active(m) ==>
              && m.periods != [] && OpenPeriod(m).ends.None?
              && (forall i :: 0 <= i < |m.periods| - 1 ==> m.periods[i].ends.Some?)
    ensures var m := Run(Created(interval, offset, start), es);
            !Active(m) ==> forall i :: 0 <= i < |m.periods| ==> m.periods[i].ends.Some?
    ensures var m := Run(Created(interval, offset, start), es);
            Due(m, now) ==>
              (OnGrid(OpenPeriod(m), JobSlot(m, now)) <==>
               m.next + 120_000_000 >= now || OnGrid(OpenPeriod(m), now))
  {
    CreatedSound(interval, offset, start);
    EveryRunSound(Created(interval, offset, start), start, es);
  }

  /** A catch-up job really can miss the grid. */
  lemma CatchUpMissesGrid(now: int)
    requires 60 * SECOND + START_WINDOW < now < 300 * SECOND && now % (60 * SECOND) != 0
    ensures var m := Created(60 * SECOND, 0, 0);
            Due(m, now) && !OnGrid(OpenPeriod(m), JobSlot(m, now))
  {
    var m := Created(60 * SECOND, 0, 0);
    forall k | k >= 0 ensures GridPoint(OpenPeriod(m), k) != now {
      assert (k * (60 * SECOND)) % (60 * SECOND) == 0;
    }
  }

  // ------------------------------------------------------------- without a clock

  /** The part of Sound that needs no clock. */
  ghost predicate OpenOnGrid(m: Monitor) {
    m.interval > 0 && (Active(m) ==> m.periods != [] && OpenSound(m.periods[|m.periods| - 1], m))
  }

  lemma StepOpenOnGrid(m: Monitor, e: Event, now: int)
    requires OpenOnGrid(m) && Allowed(m, e)
    ensures OpenOnGrid(Step(m, e, now))
  {
    var m' := Step(m, e, now);
    if !m.deleted {
      match e
      case Update(_, _) => if !m.paused { assert GridPoint(OpenPeriod(m'), 0) == m'.next; }
      case Resume(_) => assert GridPoint(OpenPeriod(m'), 0) == m'.next;
      case Pause =>
      case Delete =>
      case Advance => if Due(m, now) { AdvanceOnGrid(OpenPeriod(m), m.next, now); }
    }
  }

  ghost predicate OnSomeGrid(periods: seq<Period>, t: int) {
    exists i :: 0 <= i < |periods| && OnGrid(periods[i], t)
  }

  /** Grids are never taken back. */
  lemma {:induction false} StepKeepsGrids(m: Monitor, e: Event, now: int, t: int)
    requires OnSomeGrid(m.periods, t)
    ensures OnSomeGrid(Step(m, e, now).periods, t)
  {
    var i :| 0 <= i < |m.periods| && OnGrid(m.periods[i], t);
    var k :| k >= 0 && GridPoint(m.periods[i], k) == t;
    var p := Step(m, e, now).periods[i];
    assert GridPoint(p, k) == t;
    assert OnGrid(p, t);
  }
}
