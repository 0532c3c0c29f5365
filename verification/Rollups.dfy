/** Hourly and daily rollups as caches of the report query, with invalidation
    (internal/reliability/rollups.go and maintenance.go). Buckets are numbered:
    hour h is [At(h), At(h + 1)) in UTC, day d is hours 24 d to 24 d + 23. */
module Rollups {
  import opened Positions
  import opened Slots
  import Schedule

  type Monitor = Schedule.Monitor

  /** When hour h starts, and the hour and day of a time, in microseconds. */
  function At(h: int): int { h * 3_600_000_000 }
  function HourOf(t: int): int { t / 3_600_000_000 }
  function DayOf(t: int): int { t / 86_400_000_000 }

  /** A bucket of one monitor; bucket is an hour or a day number. */
  datatype Bucket = Bucket(monitor: int, bucket: int)

  type Table = map<int, map<int, Tally>>

  /** Where a call of AdvanceRollups stands between its transactions. */
  datatype Task = HourRead(next: int) | HourRolled(next: int) | DayRead(next: int) | DayRolled(next: int)

  /** The tables, rollup rows by bucket and then monitor. closedHours and closedDays
      record which buckets were rolled after they had ended (for a day: after all its
      hours were so rolled), rolledAt when each hour was last rolled. */
  datatype Store = Store(
    now: int,
    monitors: map<int, Monitor>,
    results: map<Key, bool>,
    hourly: Table,
    daily: Table,
    hourStale: set<Bucket>,
    dayStale: set<Bucket>,
    hourlyThrough: int,
    dailyThrough: int,
    tasks: map<int, Task>,
    closedHours: set<int>,
    closedDays: set<int>,
    rolledAt: map<int, int>)

  function PeriodsOf(s: Store, m: int): (ps: seq<Schedule.Period>)
    ensures Proper(ps)
  {
    if m in s.monitors && Proper(s.monitors[m].periods) then s.monitors[m].periods else []
  }

  /** The report query over [from, to). */
  function Window(s: Store, m: int, from: int, to: int): Tally {
    Report(PeriodsOf(s, m), s.results, m, from, to)
  }

  function Full(s: Store, m: int, h: int): Tally {
    Window(s, m, At(h), At(h + 1))
  }

  /** The rollup statement stops at the current time. */
  function Count(s: Store, m: int, h: int): Tally {
    Window(s, m, At(h), Min(At(h + 1), s.now))
  }

  predicate HasRow(t: Table, m: int, b: int) {
    b in t && m in t[b]
  }

  function Row(t: Table, m: int, b: int): Tally {
    if HasRow(t, m, b) then t[b][m] else ZERO
  }

  /** INSERT ... ON CONFLICT DO UPDATE of one bucket's rows. */
  function Upsert(t: Table, b: int, rows: map<int, Tally>): Table {
    t[b := (if b in t then t[b] else map[]) + rows]
  }

  /** The sum of the hourly rows of hours h, ..., h + n - 1. */
  function HourSum(t: Table, m: int, h: int, n: nat): Tally {
    if n == 0 then ZERO else Add(HourSum(t, m, h, n - 1), Row(t, m, h + n - 1))
  }

  predicate Ended(s: Store, h: int) {
    At(h + 1) <= s.now
  }

  predicate InDay(h: int, d: int) {
    24 * d <= h < 24 * d + 24
  }

  // ------------------------------------------------------------- transactions

  function RollHour(s: Store, h: int): Store {
    s.(hourly := Upsert(s.hourly, h, map m | m in s.monitors && Count(s, m, h).expected > 0 :: Count(s, m, h)),
       hourStale := (set k | k in s.hourStale && k.bucket != h),
       closedHours := if Ended(s, h) then s.closedHours + {h} else s.closedHours,
       rolledAt := s.rolledAt[h := s.now])
  }

  predicate HourlyPending(s: Store, d: int) {
    exists k :: k in s.hourStale && InDay(k.bucket, d)
  }

  predicate HasHourRow(t: Table, m: int, d: int) {
    exists h :: 24 * d <= h < 24 * d + 24 && HasRow(t, m, h)
  }

  predicate HoursClosed(s: Store, d: int) {
    forall h :: 24 * d <= h < 24 * d + 24 ==> h in s.closedHours
  }

  /** RollupDay fails with errHourlyRollupsPending while an hour of the day is stale. */
  function RollDay(s: Store, d: int): Store {
    if HourlyPending(s, d) then s else
      s.(daily := Upsert(s.daily, d, map m | m in s.monitors && HasHourRow(s.hourly, m, d) :: HourSum(s.hourly, m, 24 * d, 24)),
         dayStale := (set k | k in s.dayStale && k.bucket != d),
         closedDays := if HoursClosed(s, d) then s.closedDays + {d} else s.closedDays)
  }

  /** The part of the result transaction that concerns rollups. */
  function Accept(s: Store, k: Key, ok: bool): Store {
    if k in s.results || k.monitor !in s.monitors then s else
      s.(results := s.results[k := ok],
         hourStale := s.hourStale + {Bucket(k.monitor, HourOf(k.at))},
         dayStale := s.dayStale + {Bucket(k.monitor, DayOf(k.at))})
  }

  function Create(s: Store, m: int, interval: int, offset: int): Store {
    if m in s.monitors then s else s.(monitors := s.monitors[m := Schedule.Created(interval, offset, s.now)])
  }

  function Change(s: Store, m: int, e: Schedule.Event): Store {
    if m !in s.monitors then s else s.(monitors := s.monitors[m := Schedule.Step(s.monitors[m], e, s.now)])
  }

  /** What the next transaction of the AdvanceRollups call t rolls. */
  function Rolled(s: Store, t: int): Store {
    if t in s.tasks && s.tasks[t].HourRead? then RollHour(s, s.tasks[t].next)
    else if t in s.tasks && s.tasks[t].DayRead? then RollDay(s, s.tasks[t].next)
    else s
  }

  /** How far the call is then; a day with a stale hour ends it. */
  function Progress(s: Store, t: int): map<int, Task>
    requires t in s.tasks
  {
    match s.tasks[t]
    case HourRead(h) => s.tasks[t := HourRolled(h)]
    case DayRead(d) => if HourlyPending(s, d) then s.tasks - {t} else s.tasks[t := DayRolled(d)]
    case _ => s.tasks - {t}
  }

  /** The next transaction of the AdvanceRollups call t: it rolls, or moves a checkpoint. */
  function Proceed(s: Store, t: int): Store {
    if t !in s.tasks then s else
      Rolled(s, t).(
        hourlyThrough := if s.tasks[t].HourRolled? then Max(s.hourlyThrough, s.tasks[t].next) else s.hourlyThrough,
        dailyThrough := if s.tasks[t].DayRolled? then Max(s.dailyThrough, s.tasks[t].next) else s.dailyThrough,
        tasks := Progress(s, t))
  }

  datatype Event =
    | Created(monitor: int, interval: int, offset: int)
    | Changed(monitor: int, e: Schedule.Event)
    | Result(k: Key, ok: bool)
    | Hour(h: int)
    | Day(d: int)
    | ReadHour(task: int, clock: int)
    | ReadDay(task: int, clock: int)
    | Proceeds(task: int)

  /** One transaction at time s.now, the database's clock. ReadHour and ReadDay compare the
      checkpoint with the clock AdvanceRollups was called with. */
  function Do(s: Store, e: Event): Store {
    match e
    case Created(m, interval, offset) => Create(s, m, interval, offset)
    case Changed(m, change) => Change(s, m, change)
    case Result(k, ok) => Accept(s, k, ok)
    case Hour(h) => RollHour(s, h)
    case Day(d) => RollDay(s, d)
    case ReadHour(t, clock) =>
      if s.hourlyThrough + 1 < HourOf(clock) then s.(tasks := s.tasks[t := HourRead(s.hourlyThrough + 1)]) else s
    case ReadDay(t, clock) =>
      if s.dailyThrough + 1 < DayOf(clock) then s.(tasks := s.tasks[t := DayRead(s.dailyThrough + 1)]) else s
    case Proceeds(t) => Proceed(s, t)
  }

  function Step(s: Store, e: Event, now: int): Store {
    Do(s.(now := now), e)
  }

  /** Inputs passed their checks. */
  predicate Checked(s: Store, e: Event) {
    && (e.Created? ==> 0 <= e.offset < e.interval)
    && (e.Changed? && e.monitor in s.monitors ==> Schedule.Allowed(s.monitors[e.monitor], e.e))
  }

  /** An hour that is read to be rolled has ended by the database's clock. */
  predicate ReadsEnded(s: Store, e: Event, now: int) {
    e.ReadHour? && s.hourlyThrough + 1 < HourOf(e.clock) ==> s.hourlyThrough + 1 < HourOf(now)
  }

  predicate Allowed(s: Store, e: Event, now: int) {
    Checked(s, e) && ReadsEnded(s, e, now)
  }

  // ---------------------------------------------------------------- invariant

  ghost predicate MonitorsSound(s: Store) {
    forall m :: m in s.monitors ==> Schedule.Sound(s.monitors[m], s.now)
  }

  ghost predicate ClosedEnded(s: Store) {
    forall h :: h in s.closedHours ==> Ended(s, h)
  }

  ghost predicate RowUnder(s: Store, m: int, h: int) {
    Row(s.hourly, m, h) == ZERO || 0 < Row(s.hourly, m, h).expected <= Count(s, m, h).expected
  }

  /** Rows never count slots that are not there. */
  ghost predicate Under(s: Store) {
    forall m, h :: RowUnder(s, m, h)
  }

  ghost predicate HourAgrees(s: Store, m: int, h: int) {
    Bucket(m, h) in s.hourStale || Row(s.hourly, m, h) == Full(s, m, h)
  }

  /** Every hour rolled since it ended is stale or exact. */
  ghost predicate HoursAgree(s: Store) {
    forall m, h :: h in s.closedHours ==> HourAgrees(s, m, h)
  }

  ghost predicate HoursExact(s: Store, m: int, d: int) {
    forall h :: InDay(h, d) ==> Row(s.hourly, m, h) == Full(s, m, h)
  }

  ghost predicate DayAgrees(s: Store, m: int, d: int) {
    Bucket(m, d) in s.dayStale ||
    (Row(s.daily, m, d) == HourSum(s.hourly, m, 24 * d, 24) && HoursExact(s, m, d))
  }

  /** Every day rolled since its hours were is stale or exact. */
  ghost predicate DaysAgree(s: Store) {
    && (forall d :: d in s.closedDays ==> HoursClosed(s, d))
    && (forall m, d :: d in s.closedDays ==> DayAgrees(s, m, d))
  }

  /** A daily row comes from hourly rows, an hourly row from a monitor. */
  ghost predicate Backed(s: Store) {
    && (forall m, d :: HasRow(s.daily, m, d) ==> HasHourRow(s.hourly, m, d))
    && (forall m, h :: HasRow(s.hourly, m, h) ==> m in s.monitors)
  }

  ghost predicate TaskSafe(s: Store, t: Task) {
    match t
    case HourRead(h) => h <= s.hourlyThrough + 1 && Ended(s, h)
    case HourRolled(h) => h <= s.hourlyThrough + 1 && h in s.closedHours
    case DayRead(_) => true
    case DayRolled(_) => true
  }

  /** The hourly checkpoint only passes hours rolled since they ended. */
  ghost predicate CheckpointSafe(s: Store, base: int) {
    && base <= s.hourlyThrough
    && (forall h :: base < h <= s.hourlyThrough ==> h in s.closedHours)
    && (forall t :: t in s.tasks ==> TaskSafe(s, s.tasks[t]))
  }

  ghost predicate Tables(s: Store) {
    ClosedEnded(s) && Under(s) && HoursAgree(s) && DaysAgree(s) && Backed(s)
  }

  ghost predicate Inv(s: Store, base: int) {
    MonitorsSound(s) && Tables(s) && CheckpointSafe(s, base)
  }

  // ------------------------------------------------------------------ lemmas

  lemma ProperPeriods(s: Store, m: int)
    requires m in s.monitors && Schedule.Sound(s.monitors[m], s.now)
    ensures PeriodsOf(s, m) == s.monitors[m].periods
  {
  }

  lemma {:induction false} ExpectedFrame(periods: seq<Schedule.Period>, r: map<Key, bool>, r': map<Key, bool>, m: int, from: int, to: int)
    requires Proper(periods)
    ensures Report(periods, r, m, from, to).expected == Report(periods, r', m, from, to).expected
  {
    SumExpected(Tallies(periods, r, m, from, to), Tallies(periods, r', m, from, to)) by {
      forall i | 0 <= i < |periods|
        ensures PeriodTally(periods[i], r, m, from, to).expected == PeriodTally(periods[i], r', m, from, to).expected
      {
        TallyBounds(r, m, SlotsIn(periods[i], from, to));
        TallyBounds(r', m, SlotsIn(periods[i], from, to));
      }
    }
  }

  lemma {:induction false} SumExpected(a: seq<Tally>, b: seq<Tally>)
    requires |a| == |b| && forall i :: 0 <= i < |a| ==> a[i].expected == b[i].expected
    ensures Sum(a).expected == Sum(b).expected
  {
    if a == [] {
      assert b == [];
    } else {
      SumExpected(a[..|a| - 1], b[..|b| - 1]);
    }
  }

  /** A longer window expects no less. */
  lemma {:induction false} WindowGrows(s: Store, m: int, from: int, mid: int, to: int)
    requires from <= mid <= to
    ensures Window(s, m, from, mid).expected <= Window(s, m, from, to).expected
  {
    ReportAdds(PeriodsOf(s, m), s.results, m, from, mid, to);
    ReportBounds(PeriodsOf(s, m), s.results, m, mid, to);
  }

  /** An empty window counts nothing. */
  lemma {:induction false} WindowEmpty(s: Store, m: int, from: int, to: int)
    requires to <= from
    ensures Window(s, m, from, to) == ZERO
  {
    var ps := PeriodsOf(s, m);
    var ts := Tallies(ps, s.results, m, from, to);
    forall i | 0 <= i < |ts| ensures ts[i] == ZERO {
      NoSlots(ps[i], from, to);
    }
    SumZero(ts);
  }

  lemma {:induction false} NoSlots(p: Schedule.Period, from: int, to: int)
    requires p.interval > 0 && (to <= from || to <= p.starts)
    ensures SlotsIn(p, from, to) == []
  {
    var s := SlotsIn(p, from, to);
    if s != [] {
      SlotsExact(p, from, to, s[0]);
      assert false;
    }
  }

  lemma {:induction false} SumZero(ts: seq<Tally>)
    requires forall i :: 0 <= i < |ts| ==> ts[i] == ZERO
    ensures Sum(ts) == ZERO
  {
    if ts != [] {
      SumZero(ts[..|ts| - 1]);
      assert ts[|ts| - 1] == ZERO;
    }
  }

  // ------------------------------------------------- what each step preserves

  /** s' has the same tables; its counts have not shrunk and its ended hours are the same. */
  ghost predicate SameTables(s: Store, s': Store) {
    && s'.hourly == s.hourly && s'.daily == s.daily
    && s'.hourStale == s.hourStale && s'.dayStale == s.dayStale
    && s'.closedHours == s.closedHours && s'.closedDays == s.closedDays
    && s'.now >= s.now && s.monitors.Keys <= s'.monitors.Keys
  }

  ghost predicate SameCounts(s: Store, s': Store) {
    && (forall m, h :: Count(s', m, h).expected >= Count(s, m, h).expected)
    && (forall m, h :: Ended(s, h) ==> Full(s', m, h) == Full(s, m, h))
  }

  lemma {:induction false} FrameUnder(s: Store, s': Store)
    requires SameTables(s, s') && SameCounts(s, s') && Under(s)
    ensures Under(s')
  {
    forall m, h ensures RowUnder(s', m, h) { assert RowUnder(s, m, h); }
  }

  lemma {:induction false} FrameHours(s: Store, s': Store)
    requires SameTables(s, s') && SameCounts(s, s') && ClosedEnded(s) && HoursAgree(s)
    ensures HoursAgree(s')
  {
    forall m, h | h in s'.closedHours ensures HourAgrees(s', m, h) { assert HourAgrees(s, m, h); }
  }

  lemma {:induction false} FrameDays(s: Store, s': Store)
    requires SameTables(s, s') && SameCounts(s, s') && ClosedEnded(s) && DaysAgree(s)
    ensures DaysAgree(s')
  {
    forall d | d in s'.closedDays ensures HoursClosed(s', d) { assert HoursClosed(s, d); }
    forall m, d | d in s'.closedDays ensures DayAgrees(s', m, d) {
      assert DayAgrees(s, m, d) && HoursClosed(s, d);
    }
  }

  lemma {:induction false} FrameTables(s: Store, s': Store)
    requires SameTables(s, s') && SameCounts(s, s') && Tables(s)
    ensures Tables(s')
  {
    FrameUnder(s, s');
    FrameHours(s, s');
    FrameDays(s, s');
  }

  lemma {:induction false} TickTables(s: Store, now: int)
    requires s.now <= now && Tables(s)
    ensures Tables(s.(now := now))
  {
    var s' := s.(now := now);
    forall m, h ensures Count(s', m, h).expected >= Count(s, m, h).expected {
      TickCount(s, now, m, h);
    }
    forall m, h | Ended(s, h) ensures Full(s', m, h) == Full(s, m, h) {
      assert PeriodsOf(s', m) == PeriodsOf(s, m);
    }
    FrameTables(s, s');
  }

  lemma {:induction false} TickCount(s: Store, now: int, m: int, h: int)
    requires s.now <= now
    ensures Count(s.(now := now), m, h).expected >= Count(s, m, h).expected
  {
    var from, mid, to := At(h), Min(At(h + 1), s.now), Min(At(h + 1), now);
    assert Count(s.(now := now), m, h) == Window(s, m, from, to);
    if from <= mid {
      WindowGrows(s, m, from, mid, to);
    } else {
      WindowEmpty(s, m, from, mid);
      ReportBounds(PeriodsOf(s, m), s.results, m, from, to);
    }
  }

  /** Windows that have ended do not see a change made now. */
  lemma {:induction false} CreateWindow(s: Store, n: int, interval: int, offset: int, m: int, from: int, to: int)
    requires 0 <= offset < interval && to <= s.now
    ensures Window(Create(s, n, interval, offset), m, from, to) == Window(s, m, from, to)
  {
    var s' := Create(s, n, interval, offset);
    if m == n && n !in s.monitors {
      var p := Schedule.Period(s.now, s.now + offset, interval, None);
      assert PeriodsOf(s', m) == [] + [p];
      OpenKeepsReport([], p, s.results, m, from, to);
    } else {
      assert PeriodsOf(s', m) == PeriodsOf(s, m);
    }
  }

  lemma {:induction false} ChangeWindow(s: Store, n: int, e: Schedule.Event, m: int, from: int, to: int)
    requires MonitorsSound(s) && (n in s.monitors ==> Schedule.Allowed(s.monitors[n], e)) && to <= s.now
    ensures Window(Change(s, n, e), m, from, to) == Window(s, m, from, to)
  {
    var s' := Change(s, n, e);
    if m == n && n in s.monitors {
      ProperPeriods(s, m);
      StepKeepsReport(s.monitors[m], e, s.now, s.results, m, from, to);
      assert PeriodsOf(s', m) == Schedule.Step(s.monitors[m], e, s.now).periods;
    } else {
      assert PeriodsOf(s', m) == PeriodsOf(s, m);
    }
  }

  lemma {:induction false} CreateTables(s: Store, n: int, interval: int, offset: int)
    requires 0 <= offset < interval && Tables(s)
    ensures Tables(Create(s, n, interval, offset))
  {
    var s' := Create(s, n, interval, offset);
    forall m, h ensures Count(s', m, h) == Count(s, m, h) {
      CreateWindow(s, n, interval, offset, m, At(h), Min(At(h + 1), s.now));
    }
    forall m, h | Ended(s, h) ensures Full(s', m, h) == Full(s, m, h) {
      CreateWindow(s, n, interval, offset, m, At(h), At(h + 1));
    }
    FrameTables(s, s');
  }

  lemma {:induction false} ChangeTables(s: Store, n: int, e: Schedule.Event)
    requires MonitorsSound(s) && (n in s.monitors ==> Schedule.Allowed(s.monitors[n], e)) && Tables(s)
    ensures Tables(Change(s, n, e))
  {
    var s' := Change(s, n, e);
    forall m, h ensures Count(s', m, h) == Count(s, m, h) {
      ChangeWindow(s, n, e, m, At(h), Min(At(h + 1), s.now));
    }
    forall m, h | Ended(s, h) ensures Full(s', m, h) == Full(s, m, h) {
      ChangeWindow(s, n, e, m, At(h), At(h + 1));
    }
    FrameTables(s, s');
  }

  // ------------------------------------------------------------ rolling an hour

  lemma CountOfEnded(s: Store, m: int, h: int)
    requires Ended(s, h)
    ensures Count(s, m, h) == Full(s, m, h)
  {
  }

  lemma {:induction false} CountZero(s: Store, m: int, h: int)
    requires m !in s.monitors || Count(s, m, h).expected <= 0
    ensures Count(s, m, h) == ZERO
  {
    if m in s.monitors {
      ReportBounds(PeriodsOf(s, m), s.results, m, At(h), Min(At(h + 1), s.now));
    } else {
      assert Tallies(PeriodsOf(s, m), s.results, m, At(h), Min(At(h + 1), s.now)) == [];
    }
  }

  /** After RollHour the hour's row is the count, for every monitor; other hours keep theirs. */
  lemma {:induction false} RollHourRow(s: Store, h: int, m: int, g: int)
    requires RowUnder(s, m, g)
    ensures Row(RollHour(s, h).hourly, m, g) == if g == h then Count(s, m, h) else Row(s.hourly, m, g)
  {
    if g == h && !(m in s.monitors && Count(s, m, h).expected > 0) {
      CountZero(s, m, h);
    }
  }

  lemma RollHourCounts(s: Store, h: int, m: int, g: int)
    ensures Count(RollHour(s, h), m, g) == Count(s, m, g)
    ensures Full(RollHour(s, h), m, g) == Full(s, m, g)
  {
    assert PeriodsOf(RollHour(s, h), m) == PeriodsOf(s, m);
  }

  lemma {:induction false} RollHourUnder(s: Store, h: int)
    requires Under(s)
    ensures Under(RollHour(s, h))
  {
    var s' := RollHour(s, h);
    forall m, g ensures RowUnder(s', m, g) {
      assert RowUnder(s, m, g);
      RollHourRow(s, h, m, g);
      RollHourCounts(s, h, m, g);
      if Count(s, m, h).expected <= 0 { CountZero(s, m, h); }
    }
  }

  lemma {:induction false} RollHourHours(s: Store, h: int)
    requires ClosedEnded(s) && Under(s) && HoursAgree(s)
    ensures HoursAgree(RollHour(s, h))
  {
    var s' := RollHour(s, h);
    forall m, g | g in s'.closedHours ensures HourAgrees(s', m, g) {
      assert RowUnder(s, m, g);
      RollHourRow(s, h, m, g);
      RollHourCounts(s, h, m, g);
      assert Ended(s, g);
      if g == h { CountOfEnded(s, m, h); } else { assert HourAgrees(s, m, g); }
    }
  }

  /** Re-rolling an hour of an exact day changes nothing in it. */
  lemma {:induction false} RollHourDay(s: Store, h: int, m: int, d: int)
    requires ClosedEnded(s) && Under(s) && HoursClosed(s, d) && DayAgrees(s, m, d)
    ensures DayAgrees(RollHour(s, h), m, d)
  {
    var s' := RollHour(s, h);
    if Bucket(m, d) !in s.dayStale {
      forall g | InDay(g, d) ensures Row(s'.hourly, m, g) == Row(s.hourly, m, g) == Full(s', m, g) {
        assert RowUnder(s, m, g);
        RollHourRow(s, h, m, g);
        RollHourCounts(s, h, m, g);
        assert Ended(s, g);
        CountOfEnded(s, m, g);
      }
      HourSumFrame(s.hourly, s'.hourly, m, 24 * d, 24);
    }
  }

  lemma {:induction false} HourSumFrame(t: Table, t': Table, m: int, h: int, n: nat)
    requires forall g :: h <= g < h + n ==> Row(t', m, g) == Row(t, m, g)
    ensures HourSum(t', m, h, n) == HourSum(t, m, h, n)
  {
    if n > 0 { HourSumFrame(t, t', m, h, n - 1); }
  }

  lemma {:induction false} HourSumZero(t: Table, m: int, h: int, n: nat)
    requires forall g :: h <= g < h + n ==> Row(t, m, g) == ZERO
    ensures HourSum(t, m, h, n) == ZERO
  {
    if n > 0 { HourSumZero(t, m, h, n - 1); }
  }

  lemma {:induction false} RollHourDays(s: Store, h: int)
    requires ClosedEnded(s) && Under(s) && DaysAgree(s)
    ensures DaysAgree(RollHour(s, h))
  {
    var s' := RollHour(s, h);
    forall d | d in s'.closedDays ensures HoursClosed(s', d) { assert HoursClosed(s, d); }
    forall m, d | d in s'.closedDays ensures DayAgrees(s', m, d) {
      assert HoursClosed(s, d) && DayAgrees(s, m, d);
      RollHourDay(s, h, m, d);
    }
  }

  lemma {:induction false} RollHourBacked(s: Store, h: int)
    requires Backed(s)
    ensures Backed(RollHour(s, h))
  {
    var s' := RollHour(s, h);
    forall m, d | HasRow(s'.daily, m, d) ensures HasHourRow(s'.hourly, m, d) {
      assert HasRow(s.daily, m, d);
      var g :| 24 * d <= g < 24 * d + 24 && HasRow(s.hourly, m, g);
      assert HasRow(s'.hourly, m, g);
    }
    forall m, g | HasRow(s'.hourly, m, g) ensures m in s'.monitors {
      assert m in s.monitors || HasRow(s.hourly, m, g);
    }
  }

  lemma {:induction false} RollHourTables(s: Store, h: int)
    requires Tables(s)
    ensures Tables(RollHour(s, h))
  {
    RollHourUnder(s, h);
    RollHourHours(s, h);
    RollHourDays(s, h);
    RollHourBacked(s, h);
  }

  // ------------------------------------------------------------- rolling a day

  lemma {:induction false} NoRows(t: Table, m: int, d: int)
    requires !HasHourRow(t, m, d)
    ensures HourSum(t, m, 24 * d, 24) == ZERO
  {
    forall g | 24 * d <= g < 24 * d + 24 ensures Row(t, m, g) == ZERO {
      assert !HasRow(t, m, g);
    }
    HourSumZero(t, m, 24 * d, 24);
  }

  /** After RollDay the day's row is the sum of its hourly rows. */
  lemma {:induction false} RollDayRow(s: Store, d: int, m: int, e: int)
    requires Backed(s) && !HourlyPending(s, d)
    ensures Row(RollDay(s, d).daily, m, e) == if e == d then HourSum(s.hourly, m, 24 * d, 24) else Row(s.daily, m, e)
  {
    var rows := map n | n in s.monitors && HasHourRow(s.hourly, n, d) :: HourSum(s.hourly, n, 24 * d, 24);
    assert RollDay(s, d).daily == Upsert(s.daily, d, rows);
    if e == d {
      if HasHourRow(s.hourly, m, d) {
        HourRowHasMonitor(s, m, d);
        assert m in rows;
      } else {
        NoRows(s.hourly, m, d);
        assert !HasRow(s.daily, m, d) && m !in rows;
      }
    }
  }

  lemma HourRowHasMonitor(s: Store, m: int, d: int)
    requires Backed(s) && HasHourRow(s.hourly, m, d)
    ensures m in s.monitors
  {
  }

  lemma {:induction false} RollDayDay(s: Store, d: int, m: int, e: int)
    requires Tables(s) && e in RollDay(s, d).closedDays
    ensures DayAgrees(RollDay(s, d), m, e)
  {
    var s' := RollDay(s, d);
    assert PeriodsOf(s', m) == PeriodsOf(s, m);
    assert forall h :: Full(s', m, h) == Full(s, m, h);
    if HourlyPending(s, d) {
      assert DayAgrees(s, m, e);
    } else {
      RollDayRow(s, d, m, e);
      if e == d {
        assert HoursClosed(s, d);
        forall h | InDay(h, d) ensures Row(s.hourly, m, h) == Full(s, m, h) {
          assert HourAgrees(s, m, h);
          assert Bucket(m, h) !in s.hourStale by { assert InDay(Bucket(m, h).bucket, d); }
        }
      } else {
        assert DayAgrees(s, m, e);
      }
    }
  }

  lemma {:induction false} RollDayBacked(s: Store, d: int)
    requires Backed(s)
    ensures Backed(RollDay(s, d))
  {
    var s' := RollDay(s, d);
    forall m, e | HasRow(s'.daily, m, e) ensures HasHourRow(s'.hourly, m, e) {
      assert HasRow(s.daily, m, e) ==> HasHourRow(s.hourly, m, e);
    }
  }

  lemma {:induction false} RollDayUnder(s: Store, d: int)
    requires ClosedEnded(s) && Under(s) && HoursAgree(s)
    ensures var s' := RollDay(s, d); ClosedEnded(s') && Under(s') && HoursAgree(s')
  {
    var s' := RollDay(s, d);
    forall m, h
      ensures RowUnder(s', m, h)
      ensures h in s'.closedHours ==> HourAgrees(s', m, h)
    {
      assert PeriodsOf(s', m) == PeriodsOf(s, m);
      assert RowUnder(s, m, h);
      assert h in s.closedHours ==> HourAgrees(s, m, h);
    }
  }

  lemma {:induction false} RollDayTables(s: Store, d: int)
    requires Tables(s)
    ensures Tables(RollDay(s, d))
  {
    var s' := RollDay(s, d);
    RollDayUnder(s, d);
    RollDayBacked(s, d);
    forall e | e in s'.closedDays ensures HoursClosed(s', e) {
      assert HoursClosed(s, e);
    }
    forall m, e | e in s'.closedDays ensures DayAgrees(s', m, e) {
      RollDayDay(s, d, m, e);
    }
  }

  // --------------------------------------------------------- accepting a result

  lemma AcceptBuckets(k: Key, h: int, d: int)
    ensures HourOf(k.at) == h <==> At(h) <= k.at < At(h + 1)
    ensures DayOf(k.at) == d <==> InDay(HourOf(k.at), d)
  {
  }

  lemma {:induction false} AcceptFull(s: Store, k: Key, ok: bool, m: int, h: int)
    requires m != k.monitor || h != HourOf(k.at)
    ensures Full(Accept(s, k, ok), m, h) == Full(s, m, h)
  {
    AcceptBuckets(k, h, 0);
    assert PeriodsOf(Accept(s, k, ok), m) == PeriodsOf(s, m);
    ReportFrame(PeriodsOf(s, m), s.results, k, ok, m, At(h), At(h + 1));
  }

  lemma {:induction false} AcceptUnder(s: Store, k: Key, ok: bool)
    requires Under(s)
    ensures Under(Accept(s, k, ok))
  {
    var s' := Accept(s, k, ok);
    forall m, h ensures RowUnder(s', m, h) {
      assert RowUnder(s, m, h);
      assert PeriodsOf(s', m) == PeriodsOf(s, m);
      ExpectedFrame(PeriodsOf(s, m), s.results, s'.results, m, At(h), Min(At(h + 1), s.now));
    }
  }

  lemma {:induction false} AcceptHours(s: Store, k: Key, ok: bool)
    requires HoursAgree(s)
    ensures HoursAgree(Accept(s, k, ok))
  {
    var s' := Accept(s, k, ok);
    forall m, h | h in s'.closedHours ensures HourAgrees(s', m, h) {
      assert HourAgrees(s, m, h);
      if m != k.monitor || h != HourOf(k.at) { AcceptFull(s, k, ok, m, h); }
    }
  }

  lemma {:induction false} AcceptDay(s: Store, k: Key, ok: bool, m: int, d: int)
    requires DayAgrees(s, m, d)
    ensures DayAgrees(Accept(s, k, ok), m, d)
  {
    var s' := Accept(s, k, ok);
    AcceptBuckets(k, 0, d);
    if k in s.results || k.monitor !in s.monitors {
    } else if m != k.monitor || d != DayOf(k.at) {
      assert Bucket(m, d) in s'.dayStale <==> Bucket(m, d) in s.dayStale;
      forall h | InDay(h, d) ensures Full(s', m, h) == Full(s, m, h) {
        AcceptFull(s, k, ok, m, h);
      }
    }
  }

  lemma {:induction false} AcceptTables(s: Store, k: Key, ok: bool)
    requires Tables(s)
    ensures Tables(Accept(s, k, ok))
  {
    var s' := Accept(s, k, ok);
    AcceptUnder(s, k, ok);
    AcceptHours(s, k, ok);
    forall d | d in s'.closedDays ensures HoursClosed(s', d) { assert HoursClosed(s, d); }
    forall m, d | d in s'.closedDays ensures DayAgrees(s', m, d) {
      assert DayAgrees(s, m, d);
      AcceptDay(s, k, ok, m, d);
    }
  }

  // ------------------------------------------------------------------ every run

  /** Changing only checkpoints and calls in progress keeps the tables. */
  lemma {:induction false} TasksTables(s: Store, s': Store)
    requires Tables(s) && s' == s.(hourlyThrough := s'.hourlyThrough, dailyThrough := s'.dailyThrough, tasks := s'.tasks)
    ensures Tables(s')
  {
    forall m, h
      ensures Count(s', m, h) == Count(s, m, h)
      ensures Full(s', m, h) == Full(s, m, h)
    {
      assert PeriodsOf(s', m) == PeriodsOf(s, m);
    }
    FrameTables(s, s');
  }

  lemma {:induction false} ProceedTables(s: Store, t: int)
    requires Tables(s)
    ensures Tables(Proceed(s, t))
  {
    var s' := Proceed(s, t);
    ProceedIs(s, t);
    if t in s.tasks && s.tasks[t].HourRead? {
      RollHourTables(s, s.tasks[t].next);
      TasksTables(RollHour(s, s.tasks[t].next), s');
    } else if t in s.tasks && s.tasks[t].DayRead? {
      RollDayTables(s, s.tasks[t].next);
      TasksTables(RollDay(s, s.tasks[t].next), s');
    } else {
      TasksTables(s, s');
    }
  }

  /** Beside what it rolls, a step of AdvanceRollups only moves checkpoints and its own progress. */
  lemma {:induction false} ProceedIs(s: Store, t: int)
    ensures var s' := Proceed(s, t);
            s' == Rolled(s, t).(hourlyThrough := s'.hourlyThrough, dailyThrough := s'.dailyThrough, tasks := s'.tasks)
  {
  }

  lemma RolledInputs(s: Store, t: int)
    ensures Rolled(s, t).monitors == s.monitors && Rolled(s, t).results == s.results && Rolled(s, t).now == s.now
  {
  }

  lemma {:induction false} DoTables(s: Store, e: Event)
    requires MonitorsSound(s) && Tables(s) && Checked(s, e)
    ensures Tables(Do(s, e))
  {
    match e
    case Created(m, interval, offset) => CreateTables(s, m, interval, offset);
    case Changed(m, change) => ChangeTables(s, m, change);
    case Result(k, ok) => AcceptTables(s, k, ok);
    case Hour(h) => RollHourTables(s, h);
    case Day(d) => RollDayTables(s, d);
    case ReadHour(t, _) => TasksTables(s, Do(s, e));
    case ReadDay(t, _) => TasksTables(s, Do(s, e));
    case Proceeds(t) => ProceedTables(s, t);
  }

  lemma {:induction false} TickMonitors(s: Store, now: int)
    requires MonitorsSound(s) && s.now <= now
    ensures MonitorsSound(s.(now := now))
  {
    forall m | m in s.monitors ensures Schedule.Sound(s.monitors[m], now) {
      Schedule.SoundLater(s.monitors[m], s.now, now);
    }
  }

  lemma {:induction false} CreateMonitors(s: Store, m: int, interval: int, offset: int)
    requires MonitorsSound(s) && 0 <= offset < interval
    ensures MonitorsSound(Create(s, m, interval, offset))
  {
    Schedule.CreatedSound(interval, offset, s.now);
  }

  lemma {:induction false} ChangeMonitors(s: Store, m: int, e: Schedule.Event)
    requires MonitorsSound(s) && (m in s.monitors ==> Schedule.Allowed(s.monitors[m], e))
    ensures MonitorsSound(Change(s, m, e))
  {
    if m in s.monitors { Schedule.StepSound(s.monitors[m], e, s.now, s.now); }
  }

  lemma DoMonitors(s: Store, e: Event)
    requires MonitorsSound(s) && Checked(s, e)
    ensures MonitorsSound(Do(s, e))
  {
    match e
    case Created(m, interval, offset) => CreateMonitors(s, m, interval, offset);
    case Changed(m, change) => ChangeMonitors(s, m, change);
    case Result(_, _) =>
    case _ => MaintenanceInputs(s, e);
  }

  /** Rolling and moving checkpoints changes neither schedules nor results. */
  lemma {:induction false} MaintenanceInputs(s: Store, e: Event)
    requires !e.Created? && !e.Changed? && !e.Result?
    ensures Do(s, e).monitors == s.monitors && Do(s, e).results == s.results && Do(s, e).now == s.now
  {
    match e
    case Proceeds(t) => ProceedIs(s, t); RolledInputs(s, t);
    case Hour(h) =>
    case Day(d) =>
    case ReadHour(_, _) =>
    case ReadDay(_, _) =>
  }

  lemma {:induction false} CheckpointLater(s: Store, s': Store, base: int)
    requires CheckpointSafe(s, base)
    requires s'.tasks == s.tasks && s'.hourlyThrough == s.hourlyThrough && s.closedHours <= s'.closedHours && s.now <= s'.now
    ensures CheckpointSafe(s', base)
  {
    forall t | t in s'.tasks ensures TaskSafe(s', s'.tasks[t]) { assert TaskSafe(s, s.tasks[t]); }
  }

  lemma {:induction false} PassCheckpoint(s: Store, t: int, h: int, base: int)
    requires CheckpointSafe(s, base) && TaskSafe(s, HourRolled(h))
    ensures CheckpointSafe(s.(hourlyThrough := Max(s.hourlyThrough, h), tasks := s.tasks - {t}), base)
  {
    var s' := s.(hourlyThrough := Max(s.hourlyThrough, h), tasks := s.tasks - {t});
    forall u | u in s'.tasks ensures TaskSafe(s', s'.tasks[u]) { assert TaskSafe(s, s.tasks[u]); }
  }

  lemma {:induction false} SetTask(s: Store, t: int, task: Task, base: int)
    requires CheckpointSafe(s, base) && TaskSafe(s, task)
    ensures CheckpointSafe(s.(tasks := s.tasks[t := task]), base)
  {
    var s' := s.(tasks := s.tasks[t := task]);
    forall u | u in s'.tasks ensures TaskSafe(s', s'.tasks[u]) {
      if u != t { assert TaskSafe(s, s.tasks[u]); }
    }
  }

  lemma {:induction false} DropTask(s: Store, t: int, base: int)
    requires CheckpointSafe(s, base)
    ensures CheckpointSafe(s.(tasks := s.tasks - {t}), base)
  {
    var s' := s.(tasks := s.tasks - {t});
    forall u | u in s'.tasks ensures TaskSafe(s', s'.tasks[u]) { assert TaskSafe(s, s.tasks[u]); }
  }

  /** The daily checkpoint plays no part. */
  lemma {:induction false} DailyCheckpoint(s: Store, through: int, base: int)
    requires CheckpointSafe(s, base)
    ensures CheckpointSafe(s.(dailyThrough := through), base)
  {
    CheckpointLater(s, s.(dailyThrough := through), base);
  }

  lemma {:induction false} ProceedCheckpoint(s: Store, t: int, base: int)
    requires CheckpointSafe(s, base)
    ensures CheckpointSafe(Proceed(s, t), base)
  {
    if t in s.tasks {
      assert TaskSafe(s, s.tasks[t]);
      match s.tasks[t]
      case HourRead(h) =>
        CheckpointLater(s, RollHour(s, h), base);
        SetTask(RollHour(s, h), t, HourRolled(h), base);
      case HourRolled(h) => PassCheckpoint(s, t, h, base);
      case DayRead(d) =>
        CheckpointLater(s, RollDay(s, d), base);
        if HourlyPending(s, d) { DropTask(s, t, base); } else { SetTask(RollDay(s, d), t, DayRolled(d), base); }
      case DayRolled(d) =>
        DropTask(s, t, base);
        DailyCheckpoint(s.(tasks := s.tasks - {t}), Max(s.dailyThrough, d), base);
    }
  }

  /** The steps that touch neither tasks nor checkpoints. */
  lemma {:induction false} QuietCheckpoint(s: Store, e: Event)
    requires !e.ReadHour? && !e.ReadDay? && !e.Proceeds?
    ensures var s' := Do(s, e);
            s'.tasks == s.tasks && s'.hourlyThrough == s.hourlyThrough && s.closedHours <= s'.closedHours && s'.now == s.now
  {
  }

  lemma {:induction false} DoCheckpoint(s: Store, e: Event, base: int)
    requires CheckpointSafe(s, base) && ReadsEnded(s, e, s.now)
    ensures CheckpointSafe(Do(s, e), base)
  {
    match e
    case ReadHour(t, clock) => if s.hourlyThrough + 1 < HourOf(clock) { SetTask(s, t, HourRead(s.hourlyThrough + 1), base); }
    case ReadDay(t, clock) => if s.dailyThrough + 1 < DayOf(clock) { SetTask(s, t, DayRead(s.dailyThrough + 1), base); }
    case Proceeds(t) => ProceedCheckpoint(s, t, base);
    case _ =>
      QuietCheckpoint(s, e);
      CheckpointLater(s, Do(s, e), base);
  }

  lemma {:induction false} StepTables(s: Store, e: Event, now: int)
    requires MonitorsSound(s) && Tables(s) && s.now <= now && Checked(s, e)
    ensures MonitorsSound(Step(s, e, now)) && Tables(Step(s, e, now))
  {
    var t := s.(now := now);
    TickMonitors(s, now);
    TickTables(s, now);
    DoMonitors(t, e);
    DoTables(t, e);
  }

  lemma {:induction false} StepCheckpoint(s: Store, e: Event, now: int, base: int)
    requires CheckpointSafe(s, base) && s.now <= now && ReadsEnded(s, e, now)
    ensures CheckpointSafe(Step(s, e, now), base)
  {
    CheckpointLater(s, s.(now := now), base);
    DoCheckpoint(s.(now := now), e, base);
  }

  datatype Timed = Timed(e: Event, now: int)

  function Run(s: Store, es: seq<Timed>): Store {
    if es == [] then s else Step(Run(s, es[..|es| - 1]), es[|es| - 1].e, es[|es| - 1].now)
  }

  /** Time does not run backwards and every input passed its checks; clocks may be anything. */
  predicate Orderly(s: Store, es: seq<Timed>) {
    es == [] || (
      var front, last := es[..|es| - 1], es[|es| - 1];
      Orderly(s, front) && Run(s, front).now <= last.now && Checked(Run(s, front), last.e))
  }

  /** And AdvanceRollups only starts on hours that have ended. */
  predicate Legal(s: Store, es: seq<Timed>) {
    es == [] || (
      var front, last := es[..|es| - 1], es[|es| - 1];
      Legal(s, front) && Run(s, front).now <= last.now && Allowed(Run(s, front), last.e, last.now))
  }

  lemma {:induction false} LegalIsOrderly(s: Store, es: seq<Timed>)
    requires Legal(s, es)
    ensures Orderly(s, es)
  {
    if es != [] { LegalIsOrderly(s, es[..|es| - 1]); }
  }

  /** Empty tables and the checkpoints the migration writes. */
  function Fresh(now: int, hour: int, day: int): Store {
    Store(now, map[], map[], map[], map[], {}, {}, hour, day, map[], {}, {}, map[])
  }

  /** Whatever the clocks, the tables agree in every run. */
  lemma {:induction false} EveryRunTables(now: int, hour: int, day: int, es: seq<Timed>)
    requires Orderly(Fresh(now, hour, day), es)
    ensures MonitorsSound(Run(Fresh(now, hour, day), es)) && Tables(Run(Fresh(now, hour, day), es))
  {
    var s := Fresh(now, hour, day);
    if es == [] {
      assert forall m, h :: RowUnder(s, m, h);
    } else {
      var front, last := es[..|es| - 1], es[|es| - 1];
      EveryRunTables(now, hour, day, front);
      StepTables(Run(s, front), last.e, last.now);
    }
  }

  lemma {:induction false} EveryRunCheckpoint(now: int, hour: int, day: int, es: seq<Timed>)
    requires Legal(Fresh(now, hour, day), es)
    ensures CheckpointSafe(Run(Fresh(now, hour, day), es), hour)
  {
    if es != [] {
      var front, last := es[..|es| - 1], es[|es| - 1];
      EveryRunCheckpoint(now, hour, day, front);
      StepCheckpoint(Run(Fresh(now, hour, day), front), last.e, last.now, hour);
    }
  }

  lemma {:induction false} EveryRunInv(now: int, hour: int, day: int, es: seq<Timed>)
    requires Legal(Fresh(now, hour, day), es)
    ensures Inv(Run(Fresh(now, hour, day), es), hour)
  {
    LegalIsOrderly(Fresh(now, hour, day), es);
    EveryRunTables(now, hour, day, es);
    EveryRunCheckpoint(now, hour, day, es);
  }

  lemma {:induction false} WindowExtends(s: Store, m: int, from: int, h: int)
    requires from <= At(h)
    ensures Window(s, m, from, At(h + 1)) == Add(Window(s, m, from, At(h)), Full(s, m, h))
  {
    ReportAdds(PeriodsOf(s, m), s.results, m, from, At(h), At(h + 1));
  }

  /** upTo grows by hour g's row. */
  ghost predicate Grows(t: Table, m: int, upTo: int -> Tally, g: int) {
    upTo(g + 1) == Add(upTo(g), Row(t, m, g))
  }

  lemma {:induction false} HourSumTelescopes(t: Table, m: int, h: int, n: nat, upTo: int -> Tally)
    requires upTo(h) == ZERO
    requires forall g :: h <= g < h + n ==> Grows(t, m, upTo, g)
    ensures HourSum(t, m, h, n) == upTo(h + n)
  {
    if n > 0 {
      HourSumTelescopes(t, m, h, n - 1, upTo);
      assert Grows(t, m, upTo, h + n - 1);
    }
  }

  /** The report query from hour h on, as a function of where it stops. */
  function UpTo(s: Store, m: int, h: int): int -> Tally {
    (g: int) => Window(s, m, At(h), At(g))
  }

  lemma {:induction false} UpToGrows(s: Store, m: int, h: int, g: int)
    requires h <= g && Row(s.hourly, m, g) == Full(s, m, g)
    ensures Grows(s.hourly, m, UpTo(s, m, h), g)
  {
    WindowExtends(s, m, At(h), g);
  }

  lemma {:induction false} DayGrows(s: Store, m: int, d: int, g: int)
    requires HoursExact(s, m, d) && InDay(g, d)
    ensures Grows(s.hourly, m, UpTo(s, m, 24 * d), g)
  {
    UpToGrows(s, m, 24 * d, g);
  }

  lemma {:induction false} FirstHoursWindow(s: Store, m: int, d: int, n: nat)
    requires HoursExact(s, m, d) && n <= 24
    ensures HourSum(s.hourly, m, 24 * d, n) == UpTo(s, m, 24 * d)(24 * d + n)
  {
    var h := 24 * d;
    forall g | h <= g < h + n ensures Grows(s.hourly, m, UpTo(s, m, h), g) {
      DayGrows(s, m, d, g);
    }
    WindowEmpty(s, m, At(h), At(h));
    HourSumTelescopes(s.hourly, m, h, n, UpTo(s, m, h));
  }

  /** HourSum of exact rows is the report query over those hours. */
  lemma {:induction false} HourSumWindow(s: Store, m: int, d: int)
    requires HoursExact(s, m, d)
    ensures HourSum(s.hourly, m, 24 * d, 24) == UpTo(s, m, 24 * d)(24 * d + 24)
  {
    FirstHoursWindow(s, m, d, 24);
  }

  lemma {:induction false} DayExact(s: Store, m: int, d: int)
    requires Tables(s) && d in s.closedDays && Bucket(m, d) !in s.dayStale
    ensures Row(s.daily, m, d) == HourSum(s.hourly, m, 24 * d, 24) == Window(s, m, At(24 * d), At(24 * d + 24))
  {
    assert DayAgrees(s, m, d);
    HourSumWindow(s, m, d);
  }

  lemma {:induction false} HourExact(s: Store, base: int, m: int, h: int)
    requires Inv(s, base) && base < h <= s.hourlyThrough && Bucket(m, h) !in s.hourStale
    ensures Row(s.hourly, m, h) == Full(s, m, h)
  {
    assert HourAgrees(s, m, h);
  }

  /** In every run: a day rolled since its hours were has a pending invalidation for the
      monitor or is both the sum of its hourly rows and the report query over the day; and
      when AdvanceRollups only started on ended hours, an hour the checkpoint has passed
      has one or its row is the recount from raw results. */
  lemma {:induction false} RollupsAgree(now: int, hour: int, day: int, es: seq<Timed>, m: int, h: int, d: int)
    requires Orderly(Fresh(now, hour, day), es)
    ensures var s := Run(Fresh(now, hour, day), es);
            Legal(Fresh(now, hour, day), es) && hour < h <= s.hourlyThrough && Bucket(m, h) !in s.hourStale ==>
              Row(s.hourly, m, h) == Full(s, m, h)
    ensures var s := Run(Fresh(now, hour, day), es);
            d in s.closedDays && Bucket(m, d) !in s.dayStale ==>
              Row(s.daily, m, d) == HourSum(s.hourly, m, 24 * d, 24) == Window(s, m, At(24 * d), At(24 * d + 24))
  {
    EveryRunTables(now, hour, day, es);
    var s := Run(Fresh(now, hour, day), es);
    if Legal(Fresh(now, hour, day), es) && hour < h <= s.hourlyThrough && Bucket(m, h) !in s.hourStale {
      EveryRunInv(now, hour, day, es);
      HourExact(s, hour, m, h);
    }
    if d in s.closedDays && Bucket(m, d) !in s.dayStale { DayExact(s, m, d); }
  }

  // ---------------------------------------------------------------- the service

  lemma {:induction false} LeastBucket(s: set<Bucket>) returns (k: Bucket)
    requires s != {}
    ensures k in s && forall j :: j in s ==> k.bucket <= j.bucket
  {
    k :| k in s;
    if s - {k} != {} {
      var r := LeastBucket(s - {k});
      if r.bucket < k.bucket { k := r; }
    }
  }

  lemma FewerBuckets(a: set<Bucket>, b: set<Bucket>, k: Bucket)
    requires b <= a && k in a && k !in b
    ensures |b| < |a|
  {
    assert a == b + (a - b) && k in a - b;
  }

  /** The hourly loop stops after maxHours, or at the last hour that has ended. */
  function HoursThrough(through: int, maxHours: int, clock: int): int {
    Max(through, Min(through + maxHours, HourOf(clock) - 1))
  }

  /** Every hour the call passes has ended by the database's clock. */
  predicate RollsEnded(s: Store, maxHours: int, clock: int) {
    var through := HoursThrough(s.hourlyThrough, maxHours, clock);
    s.hourlyThrough < through ==> through < HourOf(s.now)
  }

  /** Every day in (from, to] whose hours the hourly checkpoint covers is closed. */
  ghost predicate DaysClosed(s: Store, base: int, from: int, to: int) {
    forall d :: from < d <= to && base < 24 * d && 24 * d + 23 <= s.hourlyThrough ==> d in s.closedDays
  }

  ghost predicate HourCurrent(s: Store, m: int, h: int) {
    Row(s.hourly, m, h) == Count(s, m, h) && Bucket(m, h) !in s.hourStale
  }

  /** Every hour in (from, to] was recounted at this time and has no invalidation. */
  ghost predicate HoursCurrent(s: Store, from: int, to: int) {
    forall m, h :: from < h <= to ==> HourCurrent(s, m, h)
  }

  lemma {:induction false} RollsNextHour(s: Store, from: int, h: int)
    requires Under(s) && HoursCurrent(s, from, h - 1)
    ensures HoursCurrent(RollHour(s, h).(hourlyThrough := h), from, h)
  {
    var s' := RollHour(s, h).(hourlyThrough := h);
    forall m, g | from < g <= h ensures HourCurrent(s', m, g) {
      assert RowUnder(s, m, g);
      RollHourRow(s, h, m, g);
      assert PeriodsOf(s', m) == PeriodsOf(s, m);
      assert g < h ==> HourCurrent(s, m, g);
    }
  }

  /** Only the daily tables and checkpoint differ. */
  predicate DaysDiffer(s: Store, s': Store) {
    s' == s.(daily := s'.daily, dayStale := s'.dayStale, closedDays := s'.closedDays, dailyThrough := s'.dailyThrough)
  }

  lemma {:induction false} SameHoursCurrent(s: Store, s': Store, from: int, to: int)
    requires DaysDiffer(s, s') && HoursCurrent(s, from, to)
    ensures HoursCurrent(s', from, to)
  {
    forall m, h | from < h <= to ensures HourCurrent(s', m, h) {
      assert HourCurrent(s, m, h) && PeriodsOf(s', m) == PeriodsOf(s, m);
    }
  }

  lemma HoursCovered(s: Store, base: int, d: int)
    requires CheckpointSafe(s, base) && base < 24 * d && 24 * d + 23 <= s.hourlyThrough
    ensures HoursClosed(s, d)
  {
  }

  class RollupService {
    var store: Store

    method RollupHour(h: int)
      modifies this
      ensures store == RollHour(old(store), h)
    {
      var rows := map m | m in store.monitors && Count(store, m, h).expected > 0 :: Count(store, m, h);
      store := store.(hourly := Upsert(store.hourly, h, rows));
      store := store.(hourStale := set k | k in store.hourStale && k.bucket != h);
      if Ended(store, h) { store := store.(closedHours := store.closedHours + {h}); }
      store := store.(rolledAt := store.rolledAt[h := store.now]);
    }

    method RollupDay(d: int) returns (ok: bool)
      modifies this
      ensures ok == !HourlyPending(old(store), d)
      ensures store == RollDay(old(store), d)
    {
      ok := !HourlyPending(store, d);
      if ok {
        var rows := map m | m in store.monitors && HasHourRow(store.hourly, m, d) :: HourSum(store.hourly, m, 24 * d, 24);
        store := store.(daily := Upsert(store.daily, d, rows));
        store := store.(dayStale := set k | k in store.dayStale && k.bucket != d);
        if HoursClosed(store, d) { store := store.(closedDays := store.closedDays + {d}); }
      }
    }

    method AdvanceHours(clock: int, maxHours: nat, ghost base: int)
      requires MonitorsSound(store) && Tables(store)
      modifies this
      ensures MonitorsSound(store) && Tables(store) && store.now == old(store.now)
      ensures store.hourlyThrough == HoursThrough(old(store.hourlyThrough), maxHours, clock)
      ensures store.dailyThrough == old(store.dailyThrough)
      ensures HoursCurrent(store, old(store.hourlyThrough), store.hourlyThrough)
      ensures old(CheckpointSafe(store, base) && RollsEnded(store, maxHours, clock)) ==> CheckpointSafe(store, base)
    {
      var i := 0;
      ghost var safe := CheckpointSafe(store, base) && RollsEnded(store, maxHours, clock);
      while i < maxHours && store.hourlyThrough + 1 < HourOf(clock)
        invariant 0 <= i <= maxHours && MonitorsSound(store) && Tables(store) && store.now == old(store.now)
        invariant store.dailyThrough == old(store.dailyThrough)
        invariant store.hourlyThrough == old(store.hourlyThrough) + i
        invariant i == 0 || store.hourlyThrough < HourOf(clock)
        invariant HoursCurrent(store, old(store.hourlyThrough), store.hourlyThrough)
        invariant safe ==> CheckpointSafe(store, base)
      {
        var next := store.hourlyThrough + 1;
        ghost var before := store;
        RollupHour(next);
        RollHourTables(before, next);
        RollsNextHour(before, old(store.hourlyThrough), next);
        ghost var rolled := store;
        store := store.(hourlyThrough := Max(store.hourlyThrough, next));
        TasksTables(rolled, store);
        if safe {
          CheckpointLater(before, rolled, base);
          CheckpointPassed(rolled, next, base);
        }
        i := i + 1;
      }
    }

    /** Stops early at a day with a stale hour. */
    method AdvanceDays(clock: int, maxDays: nat, ghost base: int)
      requires MonitorsSound(store) && Tables(store)
      modifies this
      ensures MonitorsSound(store) && Tables(store)
      ensures DaysDiffer(old(store), store)
      ensures old(store.dailyThrough) <= store.dailyThrough
      ensures old(CheckpointSafe(store, base)) ==>
                CheckpointSafe(store, base) && DaysClosed(store, base, old(store.dailyThrough), store.dailyThrough)
      ensures old(store.hourStale) == {} ==>
                store.dailyThrough == Max(old(store.dailyThrough), Min(old(store.dailyThrough) + maxDays, DayOf(clock) - 1))
    {
      var i := 0;
      ghost var safe := CheckpointSafe(store, base);
      while i < maxDays && store.dailyThrough + 1 < DayOf(clock)
        invariant 0 <= i <= maxDays && MonitorsSound(store) && Tables(store)
        invariant DaysDiffer(old(store), store)
        invariant store.dailyThrough == old(store.dailyThrough) + i
        invariant i == 0 || store.dailyThrough < DayOf(clock)
        invariant safe ==> CheckpointSafe(store, base) && DaysClosed(store, base, old(store.dailyThrough), store.dailyThrough)
      {
        var next := store.dailyThrough + 1;
        ghost var before := store;
        var ok := RollupDay(next);
        if !ok { return; }
        RollDayTables(before, next);
        ghost var rolled := store;
        store := store.(dailyThrough := Max(store.dailyThrough, next));
        TasksTables(rolled, store);
        if safe {
          CheckpointLater(before, rolled, base);
          CheckpointLater(rolled, store, base);
          if base < 24 * next && 24 * next + 23 <= before.hourlyThrough { HoursCovered(before, base, next); }
        }
        i := i + 1;
      }
    }

    /** clock is the time the call is made with, store.now the database's. */
    method AdvanceRollups(clock: int, maxHours: int, maxDays: int, ghost base: int) returns (ok: bool)
      requires MonitorsSound(store) && Tables(store)
      modifies this
      ensures ok <==> 0 <= maxHours <= 168 && 0 <= maxDays <= 90
      ensures !ok ==> store == old(store)
      ensures MonitorsSound(store) && Tables(store)
      ensures ok ==> store.hourlyThrough == HoursThrough(old(store.hourlyThrough), maxHours, clock)
      ensures ok ==> HoursCurrent(store, old(store.hourlyThrough), store.hourlyThrough)
      ensures ok && old(CheckpointSafe(store, base) && RollsEnded(store, maxHours, clock)) ==>
                CheckpointSafe(store, base) && DaysClosed(store, base, old(store.dailyThrough), store.dailyThrough)
    {
      ok := 0 <= maxHours <= 168 && 0 <= maxDays <= 90;
      if ok {
        AdvanceHours(clock, maxHours, base);
        ghost var hours := store;
        AdvanceDays(clock, maxDays, base);
        SameHoursCurrent(hours, store, old(store.hourlyThrough), store.hourlyThrough);
      }
    }

    /** Repairs the oldest stale hour, then the oldest stale day, until none is left or the limit is reached. */
    method RepairInvalidated(limit: int, ghost base: int) returns (ok: bool, repaired: nat)
      requires MonitorsSound(store) && Tables(store)
      modifies this
      ensures ok <==> 1 <= limit <= 1000
      ensures !ok ==> store == old(store)
      ensures MonitorsSound(store) && Tables(store) && (old(CheckpointSafe(store, base)) ==> CheckpointSafe(store, base))
      ensures ok && repaired < limit ==> store.hourStale == {} && store.dayStale == {}
      ensures store.hourStale <= old(store.hourStale) && store.dayStale <= old(store.dayStale)
      ensures |store.hourStale| + |store.dayStale| + repaired <= |old(store.hourStale)| + |old(store.dayStale)|
    {
      repaired := 0;
      ok := 1 <= limit <= 1000;
      if !ok { return; }
      while repaired < limit && (store.hourStale != {} || store.dayStale != {})
        invariant 0 <= repaired <= limit && MonitorsSound(store) && Tables(store)
        invariant old(CheckpointSafe(store, base)) ==> CheckpointSafe(store, base)
        invariant store.hourStale <= old(store.hourStale) && store.dayStale <= old(store.dayStale)
        invariant |store.hourStale| + |store.dayStale| + repaired <= |old(store.hourStale)| + |old(store.dayStale)|
      {
        ghost var before := store;
        if store.hourStale != {} {
          ghost var least := LeastBucket(store.hourStale);
          var k :| k in store.hourStale && forall j :: j in store.hourStale ==> k.bucket <= j.bucket;
          RollupHour(k.bucket);
          RollHourTables(before, k.bucket);
          FewerBuckets(before.hourStale, store.hourStale, k);
        } else {
          ghost var least := LeastBucket(store.dayStale);
          var k :| k in store.dayStale && forall j :: j in store.dayStale ==> k.bucket <= j.bucket;
          var done := RollupDay(k.bucket);
          RollDayTables(before, k.bucket);
          FewerBuckets(before.dayStale, store.dayStale, k);
        }
        if CheckpointSafe(before, base) { CheckpointLater(before, store, base); }
        repaired := repaired + 1;
      }
    }
  }

  lemma {:induction false} CheckpointPassed(s: Store, h: int, base: int)
    requires CheckpointSafe(s, base) && h <= s.hourlyThrough + 1 && h in s.closedHours
    ensures CheckpointSafe(s.(hourlyThrough := Max(s.hourlyThrough, h)), base)
  {
    var s' := s.(hourlyThrough := Max(s.hourlyThrough, h));
    forall t | t in s'.tasks ensures TaskSafe(s', s'.tasks[t]) { assert TaskSafe(s, s.tasks[t]); }
  }
}
