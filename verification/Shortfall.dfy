/** What happens when a day is rolled before its hours: AdvanceRollups does not hold the
    daily checkpoint back for the hourly one (internal/reliability/maintenance.go). */
module Shortfall {
  import opened Positions
  import opened Slots
  import opened Rollups
  import Schedule

  // ------------------------------------------------------ what a row has counted

  /** Up to when hour h has been counted: its last roll, within the hour. */
  function CountedTo(s: Store, h: int): int {
    if h in s.rolledAt then Max(At(h), Min(At(h + 1), s.rolledAt[h])) else At(h)
  }

  function Counted(s: Store, m: int, h: int): Tally {
    Window(s, m, At(h), CountedTo(s, h))
  }

  /** The row expects the slots before the hour's last roll, and without a pending
      invalidation its other counts are those of the same slots. */
  ghost predicate RowPrecise(s: Store, m: int, h: int) {
    && Row(s.hourly, m, h).expected == Counted(s, m, h).expected
    && (Bucket(m, h) !in s.hourStale ==> Row(s.hourly, m, h) == Counted(s, m, h))
  }

  ghost predicate Precise(s: Store) {
    && (forall h :: h in s.rolledAt ==> s.rolledAt[h] <= s.now)
    && (forall m, h :: RowPrecise(s, m, h))
  }

  /** Same rows, same rolls, same counts of what was rolled. */
  lemma {:induction false} FramePrecise(s: Store, s': Store)
    requires Precise(s) && s'.hourly == s.hourly && s'.hourStale == s.hourStale && s'.rolledAt == s.rolledAt && s.now <= s'.now
    requires forall m, h :: Counted(s', m, h) == Counted(s, m, h)
    ensures Precise(s')
  {
    forall m, h ensures RowPrecise(s', m, h) { assert RowPrecise(s, m, h); }
  }

  lemma SamePeriodsSameCounted(s: Store, s': Store, m: int, h: int)
    requires PeriodsOf(s', m) == PeriodsOf(s, m) && s'.results == s.results && s'.rolledAt == s.rolledAt
    ensures Counted(s', m, h) == Counted(s, m, h)
  {
  }

  /** Only the rows of hours, the rolls, the schedules and the results matter. */
  lemma {:induction false} UnrelatedPrecise(s: Store, s': Store)
    requires Precise(s) && s'.hourly == s.hourly && s'.hourStale == s.hourStale && s'.rolledAt == s.rolledAt && s.now <= s'.now
    requires s'.monitors == s.monitors && s'.results == s.results
    ensures Precise(s')
  {
    forall m, h ensures Counted(s', m, h) == Counted(s, m, h) {
      assert PeriodsOf(s', m) == PeriodsOf(s, m);
      SamePeriodsSameCounted(s, s', m, h);
    }
    FramePrecise(s, s');
  }

  lemma {:induction false} CreatePrecise(s: Store, n: int, interval: int, offset: int)
    requires Precise(s) && 0 <= offset < interval
    ensures Precise(Create(s, n, interval, offset))
  {
    var s' := Create(s, n, interval, offset);
    forall m, h ensures Counted(s', m, h) == Counted(s, m, h) {
      if CountedTo(s, h) <= s.now {
        CreateWindow(s, n, interval, offset, m, At(h), CountedTo(s, h));
      } else {
        WindowEmpty(s, m, At(h), CountedTo(s, h));
        WindowEmpty(s', m, At(h), CountedTo(s, h));
      }
    }
    FramePrecise(s, s');
  }

  lemma {:induction false} ChangePrecise(s: Store, n: int, e: Schedule.Event)
    requires Precise(s) && MonitorsSound(s) && (n in s.monitors ==> Schedule.Allowed(s.monitors[n], e))
    ensures Precise(Change(s, n, e))
  {
    var s' := Change(s, n, e);
    forall m, h ensures Counted(s', m, h) == Counted(s, m, h) {
      if CountedTo(s, h) <= s.now {
        ChangeWindow(s, n, e, m, At(h), CountedTo(s, h));
      } else {
        WindowEmpty(s, m, At(h), CountedTo(s, h));
        WindowEmpty(s', m, At(h), CountedTo(s, h));
      }
    }
    FramePrecise(s, s');
  }

  lemma {:induction false} AcceptPrecise(s: Store, k: Key, ok: bool)
    requires Precise(s)
    ensures Precise(Accept(s, k, ok))
  {
    var s' := Accept(s, k, ok);
    if s' != s {
      forall m, h ensures RowPrecise(s', m, h) {
        assert RowPrecise(s, m, h);
        var ps, to := PeriodsOf(s, m), CountedTo(s, h);
        assert PeriodsOf(s', m) == ps && CountedTo(s', h) == to;
        ExpectedFrame(ps, s.results, s'.results, m, At(h), to);
        AcceptBuckets(k, h, 0);
        if m != k.monitor || h != HourOf(k.at) { ReportFrame(ps, s.results, k, ok, m, At(h), to); }
      }
    }
  }

  /** The recount up to now is what the hour has then counted. */
  lemma {:induction false} CountIsCounted(s: Store, m: int, h: int)
    ensures Count(s, m, h) == Counted(RollHour(s, h), m, h)
  {
    assert PeriodsOf(RollHour(s, h), m) == PeriodsOf(s, m);
    if s.now < At(h) {
      WindowEmpty(s, m, At(h), Min(At(h + 1), s.now));
      WindowEmpty(s, m, At(h), At(h));
    }
  }

  lemma {:induction false} RollHourRowPrecise(s: Store, h: int, m: int, g: int)
    requires RowUnder(s, m, g) && RowPrecise(s, m, g)
    ensures RowPrecise(RollHour(s, h), m, g)
  {
    RollHourRow(s, h, m, g);
    if g == h {
      CountIsCounted(s, m, h);
    } else {
      assert PeriodsOf(RollHour(s, h), m) == PeriodsOf(s, m);
    }
  }

  lemma {:induction false} RollHourPrecise(s: Store, h: int)
    requires Precise(s) && Under(s)
    ensures Precise(RollHour(s, h))
  {
    forall m, g ensures RowPrecise(RollHour(s, h), m, g) {
      assert RowUnder(s, m, g) && RowPrecise(s, m, g);
      RollHourRowPrecise(s, h, m, g);
    }
  }

  /** What a step of AdvanceRollups does to hourly rows and rolls. */
  lemma {:induction false} ProceedHourly(s: Store, t: int)
    ensures var s' := Proceed(s, t);
            var u := if t in s.tasks && s.tasks[t].HourRead? then RollHour(s, s.tasks[t].next) else s;
            && s'.hourly == u.hourly && s'.hourStale == u.hourStale && s'.rolledAt == u.rolledAt && s'.now == u.now
            && s'.monitors == u.monitors && s'.results == u.results
  {
    ProceedIs(s, t);
  }

  lemma {:induction false} ProceedPrecise(s: Store, t: int)
    requires Precise(s) && Under(s)
    ensures Precise(Proceed(s, t))
  {
    ProceedHourly(s, t);
    if t in s.tasks && s.tasks[t].HourRead? {
      RollHourPrecise(s, s.tasks[t].next);
      UnrelatedPrecise(RollHour(s, s.tasks[t].next), Proceed(s, t));
    } else {
      UnrelatedPrecise(s, Proceed(s, t));
    }
  }

  /** The steps that leave hourly rows, rolls and inputs alone. */
  lemma {:induction false} UnrelatedDo(s: Store, e: Event)
    requires e.Day? || e.ReadHour? || e.ReadDay?
    ensures var s' := Do(s, e);
            && s'.hourly == s.hourly && s'.hourStale == s.hourStale && s'.rolledAt == s.rolledAt && s'.now == s.now
            && s'.monitors == s.monitors && s'.results == s.results
  {
  }

  lemma {:induction false} DoPrecise(s: Store, e: Event)
    requires Precise(s) && MonitorsSound(s) && Under(s) && Checked(s, e)
    ensures Precise(Do(s, e))
  {
    match e
    case Created(m, interval, offset) => CreatePrecise(s, m, interval, offset);
    case Changed(m, change) => ChangePrecise(s, m, change);
    case Result(k, ok) => AcceptPrecise(s, k, ok);
    case Hour(h) => RollHourPrecise(s, h);
    case Proceeds(t) => ProceedPrecise(s, t);
    case _ => UnrelatedDo(s, e); UnrelatedPrecise(s, Do(s, e));
  }

  /** Whatever the clocks. */
  lemma {:induction false} EveryRunPrecise(now: int, hour: int, day: int, es: seq<Timed>)
    requires Orderly(Fresh(now, hour, day), es)
    ensures Precise(Run(Fresh(now, hour, day), es))
  {
    var s0 := Fresh(now, hour, day);
    if es == [] {
      forall m, h ensures RowPrecise(s0, m, h) { WindowEmpty(s0, m, At(h), At(h)); }
    } else {
      var front, last := es[..|es| - 1], es[|es| - 1];
      EveryRunPrecise(now, hour, day, front);
      EveryRunTables(now, hour, day, front);
      var s := Run(s0, front);
      var t := s.(now := last.now);
      UnrelatedPrecise(s, t);
      TickMonitors(s, last.now);
      TickTables(s, last.now);
      DoPrecise(t, last.e);
    }
  }

  // ------------------------------------------------------- when a row is complete

  /** Hour g's row expects no more than upTo grows by. */
  ghost predicate Fits(t: Table, m: int, upTo: int -> Tally, g: int) {
    Row(t, m, g).expected <= upTo(g + 1).expected - upTo(g).expected
  }

  ghost predicate Fills(t: Table, m: int, upTo: int -> Tally, g: int) {
    Row(t, m, g).expected == upTo(g + 1).expected - upTo(g).expected
  }

  lemma {:induction false} HourSumUnder(t: Table, m: int, h: int, n: nat, upTo: int -> Tally)
    requires upTo(h) == ZERO
    requires forall g :: h <= g < h + n ==> Fits(t, m, upTo, g)
    ensures HourSum(t, m, h, n).expected <= upTo(h + n).expected
    ensures HourSum(t, m, h, n).expected == upTo(h + n).expected <==>
            forall g :: h <= g < h + n ==> Fills(t, m, upTo, g)
  {
    if n > 0 {
      var last := h + n - 1;
      HourSumUnder(t, m, h, n - 1, upTo);
      assert Fits(t, m, upTo, last);
      assert HourSum(t, m, h, n).expected == HourSum(t, m, h, n - 1).expected + Row(t, m, last).expected;
      if Fills(t, m, upTo, last) {
        assert (forall g :: h <= g < h + n ==> Fills(t, m, upTo, g)) <==> (forall g :: h <= g < last ==> Fills(t, m, upTo, g));
      }
    }
  }

  lemma {:induction false} RowsFit(s: Store, m: int, h: int)
    requires RowUnder(s, m, h)
    ensures Row(s.hourly, m, h).expected <= Full(s, m, h).expected
  {
    var from, mid, to := At(h), Min(At(h + 1), s.now), At(h + 1);
    ReportBounds(PeriodsOf(s, m), s.results, m, from, to);
    if from <= mid { WindowGrows(s, m, from, mid, to); } else { WindowEmpty(s, m, from, mid); }
  }

  /** Hour h's row counts every slot of the hour. */
  ghost predicate Complete(s: Store, m: int, h: int) {
    Row(s.hourly, m, h).expected == Full(s, m, h).expected
  }

  lemma FitsWhenUnder(t: Table, m: int, upTo: int -> Tally, g: int, full: Tally)
    requires upTo(g + 1) == Add(upTo(g), full) && Row(t, m, g).expected <= full.expected
    ensures Fits(t, m, upTo, g)
    ensures Fills(t, m, upTo, g) <==> Row(t, m, g).expected == full.expected
  {
  }

  lemma {:induction false} UpToExtends(s: Store, m: int, first: int, h: int)
    requires first <= h
    ensures UpTo(s, m, first)(h + 1) == Add(UpTo(s, m, first)(h), Full(s, m, h))
  {
    WindowExtends(s, m, At(first), h);
  }

  lemma {:induction false} HourFits(s: Store, m: int, first: int, h: int)
    requires Under(s) && first <= h
    ensures Fits(s.hourly, m, UpTo(s, m, first), h)
    ensures Fills(s.hourly, m, UpTo(s, m, first), h) <==> Complete(s, m, h)
  {
    assert RowUnder(s, m, h);
    RowsFit(s, m, h);
    UpToExtends(s, m, first, h);
    FitsWhenUnder(s.hourly, m, UpTo(s, m, first), h, Full(s, m, h));
  }

  lemma {:induction false} HourSumComplete(s: Store, m: int, first: int, n: nat)
    requires Under(s)
    ensures HourSum(s.hourly, m, first, n).expected <= UpTo(s, m, first)(first + n).expected
    ensures HourSum(s.hourly, m, first, n).expected == UpTo(s, m, first)(first + n).expected <==>
            forall h :: first <= h < first + n ==> Complete(s, m, h)
  {
    var upTo := UpTo(s, m, first);
    forall h | first <= h < first + n
      ensures Fits(s.hourly, m, upTo, h)
      ensures Fills(s.hourly, m, upTo, h) <==> Complete(s, m, h)
    {
      HourFits(s, m, first, h);
    }
    WindowEmpty(s, m, At(first), At(first));
    HourSumUnder(s.hourly, m, first, n, upTo);
  }

  /** None of the periods has a slot in [from, to). */
  ghost predicate NoSlot(periods: seq<Schedule.Period>, from: int, to: int) {
    forall i, t :: 0 <= i < |periods| ==> !Expected(periods[i], from, to, t)
  }

  /** No slot of monitor m lies between the last roll of hour h and the end of the hour. */
  ghost predicate NoSlotLeft(s: Store, m: int, h: int) {
    NoSlot(PeriodsOf(s, m), CountedTo(s, h), At(h + 1))
  }

  lemma {:induction false} SumIsZeroIff(ts: seq<Tally>)
    requires forall i :: 0 <= i < |ts| ==> ts[i].expected >= 0
    ensures Sum(ts).expected >= 0 && (Sum(ts).expected == 0 <==> forall i :: 0 <= i < |ts| ==> ts[i].expected == 0)
  {
    if ts != [] {
      var n := |ts| - 1;
      SumIsZeroIff(ts[..n]);
      assert ts[..n] + [ts[n]] == ts;
      assert (forall i :: 0 <= i < |ts| ==> ts[i].expected == 0) <==> (forall i :: 0 <= i < n ==> ts[..n][i].expected == 0) && ts[n].expected == 0;
    }
  }

  lemma {:induction false} NoneExpected(p: Schedule.Period, from: int, to: int)
    requires p.interval > 0
    ensures SlotsIn(p, from, to) == [] <==> forall t :: !Expected(p, from, to, t)
  {
    var slots := SlotsIn(p, from, to);
    if slots == [] {
      forall t ensures !Expected(p, from, to, t) { SlotsExact(p, from, to, t); }
    } else {
      SlotsExact(p, from, to, slots[0]);
      assert Expected(p, from, to, slots[0]);
    }
  }

  /** A period expects nothing in a window exactly when no slot of it lies there. */
  lemma {:induction false} PeriodZeroIff(p: Schedule.Period, results: map<Key, bool>, m: int, from: int, to: int)
    requires p.interval > 0
    ensures PeriodTally(p, results, m, from, to).expected >= 0
    ensures PeriodTally(p, results, m, from, to).expected == 0 <==> forall t :: !Expected(p, from, to, t)
  {
    NoneExpected(p, from, to);
    TallyBounds(results, m, SlotsIn(p, from, to));
  }

  lemma {:induction false} NoSlotIff(s: Store, m: int, h: int)
    ensures NoSlotLeft(s, m, h) <==> Window(s, m, CountedTo(s, h), At(h + 1)).expected == 0
  {
    var ps, from, to := PeriodsOf(s, m), CountedTo(s, h), At(h + 1);
    var ts := Tallies(ps, s.results, m, from, to);
    forall i | 0 <= i < |ps|
      ensures ts[i].expected >= 0
      ensures ts[i].expected == 0 <==> forall t :: !Expected(ps[i], from, to, t)
    {
      PeriodZeroIff(ps[i], s.results, m, from, to);
    }
    SumIsZeroIff(ts);
  }

  /** What an hour has counted and what it has not make up the hour. */
  lemma {:induction false} HourSplits(s: Store, m: int, h: int)
    ensures Full(s, m, h) == Add(Counted(s, m, h), Window(s, m, CountedTo(s, h), At(h + 1)))
    ensures Bounded(Window(s, m, CountedTo(s, h), At(h + 1)))
  {
    ReportAdds(PeriodsOf(s, m), s.results, m, At(h), CountedTo(s, h), At(h + 1));
    ReportBounds(PeriodsOf(s, m), s.results, m, CountedTo(s, h), At(h + 1));
  }

  lemma {:induction false} HourCompleteIff(s: Store, m: int, h: int)
    requires RowPrecise(s, m, h)
    ensures Complete(s, m, h) <==> NoSlotLeft(s, m, h)
    ensures Bucket(m, h) !in s.hourStale ==> (Row(s.hourly, m, h) == Full(s, m, h) <==> NoSlotLeft(s, m, h))
  {
    HourSplits(s, m, h);
    NoSlotIff(s, m, h);
  }

  lemma {:induction false} AllCompleteIsExact(s: Store, m: int, d: int)
    requires Precise(s) && !HourlyPending(s, d)
    requires forall h :: 24 * d <= h < 24 * d + 24 ==> NoSlotLeft(s, m, h)
    ensures HoursExact(s, m, d)
  {
    forall h | InDay(h, d) ensures Row(s.hourly, m, h) == Full(s, m, h) {
      assert RowPrecise(s, m, h) && NoSlotLeft(s, m, h);
      assert Bucket(m, h) !in s.hourStale by { assert InDay(Bucket(m, h).bucket, d); }
      HourCompleteIff(s, m, h);
    }
  }

  lemma {:induction false} ShortHourShortDay(s: Store, m: int, d: int)
    requires Precise(s) && Under(s) && HourSum(s.hourly, m, 24 * d, 24).expected == UpTo(s, m, 24 * d)(24 * d + 24).expected
    ensures forall h :: 24 * d <= h < 24 * d + 24 ==> NoSlotLeft(s, m, h)
  {
    HourSumComplete(s, m, 24 * d, 24);
    forall h | 24 * d <= h < 24 * d + 24 ensures NoSlotLeft(s, m, h) {
      assert Complete(s, m, h) && RowPrecise(s, m, h);
      HourCompleteIff(s, m, h);
    }
  }

  /** The day's row is the report query over the day. */
  ghost predicate DayRight(s: Store, m: int, d: int) {
    Row(s.daily, m, d) == Window(s, m, At(24 * d), At(24 * d + 24))
  }

  /** No slot lies between the last roll of an hour of the day and the end of that hour. */
  ghost predicate AllCounted(s: Store, m: int, d: int) {
    forall h :: 24 * d <= h < 24 * d + 24 ==> NoSlotLeft(s, m, h)
  }

  /** In every run, whatever the clocks, the row of an hour without a pending invalidation is
      the recount over the whole hour if and only if no slot lies between the hour's last
      roll and its end. */
  lemma {:induction false} HourRightIff(now: int, hour: int, day: int, es: seq<Timed>, s: Store, m: int, h: int)
    requires Orderly(Fresh(now, hour, day), es) && s == Run(Fresh(now, hour, day), es) && Bucket(m, h) !in s.hourStale
    ensures Row(s.hourly, m, h) == Full(s, m, h) <==> NoSlotLeft(s, m, h)
  {
    EveryRunPrecise(now, hour, day, es);
    assert RowPrecise(s, m, h);
    HourCompleteIff(s, m, h);
  }

  /** In every run, whenever RollupDay rolls a day, the row is right in all counts if and only
      if all the day's slots were counted by the last rolls of its hours. */
  lemma {:induction false} DayCompleteIff(now: int, hour: int, day: int, es: seq<Timed>, s: Store, m: int, d: int)
    requires Orderly(Fresh(now, hour, day), es) && s == Run(Fresh(now, hour, day), es) && !HourlyPending(s, d)
    ensures DayRight(RollDay(s, d), m, d) <==> AllCounted(s, m, d)
  {
    EveryRunTables(now, hour, day, es);
    EveryRunPrecise(now, hour, day, es);
    RolledDayIff(s, m, d);
    RollDayInputs(s, d);
    SameWindow(s, RollDay(s, d), m, At(24 * d), At(24 * d + 24));
  }

  lemma {:induction false} RolledDayIff(s: Store, m: int, d: int)
    requires Tables(s) && Precise(s) && !HourlyPending(s, d)
    ensures Row(RollDay(s, d).daily, m, d) == UpTo(s, m, 24 * d)(24 * d + 24) <==> AllCounted(s, m, d)
  {
    RollDayRow(s, d, m, d);
    if Row(RollDay(s, d).daily, m, d) == UpTo(s, m, 24 * d)(24 * d + 24) { ShortHourShortDay(s, m, d); }
    if AllCounted(s, m, d) {
      AllCompleteIsExact(s, m, d);
      HourSumWindow(s, m, d);
    }
  }

  // ------------------------------------------------------- a short day stays short

  /** The event rolls day d. */
  predicate RollsDay(s: Store, e: Event, d: int) {
    e == Day(d) || (e.Proceeds? && e.task in s.tasks && s.tasks[e.task] == DayRead(d))
  }

  /** The event neither rolls day d nor brings a result of monitor m in it. */
  predicate Leaves(s: Store, e: Event, m: int, d: int) {
    !RollsDay(s, e, d) && !(e.Result? && e.k.monitor == m && DayOf(e.k.at) == d)
  }

  predicate AllLeave(s: Store, es: seq<Timed>, m: int, d: int) {
    es == [] || (AllLeave(s, es[..|es| - 1], m, d) && Leaves(Run(s, es[..|es| - 1]), es[|es| - 1].e, m, d))
  }

  /** Same daily row, same invalidation, same report query over the day. */
  ghost predicate SameDay(s: Store, s': Store, m: int, d: int) {
    && Row(s'.daily, m, d) == Row(s.daily, m, d)
    && (Bucket(m, d) in s'.dayStale <==> Bucket(m, d) in s.dayStale)
    && Window(s', m, At(24 * d), At(24 * d + 24)) == Window(s, m, At(24 * d), At(24 * d + 24))
  }

  lemma {:induction false} ResultLeavesDay(s: Store, k: Key, ok: bool, m: int, d: int)
    requires k.monitor != m || DayOf(k.at) != d
    ensures SameDay(s, Accept(s, k, ok), m, d)
  {
    AcceptBuckets(k, 0, d);
    assert PeriodsOf(Accept(s, k, ok), m) == PeriodsOf(s, m);
    ReportFrame(PeriodsOf(s, m), s.results, k, ok, m, At(24 * d), At(24 * d + 24));
  }

  /** Steps that change neither schedules nor results leave every window alone. */
  lemma SameWindow(s: Store, s': Store, m: int, from: int, to: int)
    requires s'.monitors == s.monitors && s'.results == s.results
    ensures Window(s', m, from, to) == Window(s, m, from, to)
  {
    assert PeriodsOf(s', m) == PeriodsOf(s, m);
  }

  lemma {:induction false} RollDayLeavesOthers(s: Store, e: int, m: int, d: int)
    requires e != d
    ensures Row(RollDay(s, e).daily, m, d) == Row(s.daily, m, d)
    ensures Bucket(m, d) in RollDay(s, e).dayStale <==> Bucket(m, d) in s.dayStale
  {
  }

  /** No step of AdvanceRollups changes schedules or results, and only rolling day d touches its row. */
  lemma {:induction false} ProceedDaily(s: Store, t: int, m: int, d: int)
    requires !RollsDay(s, Proceeds(t), d)
    ensures var s' := Proceed(s, t);
            && s'.monitors == s.monitors && s'.results == s.results
            && Row(s'.daily, m, d) == Row(s.daily, m, d)
            && (Bucket(m, d) in s'.dayStale <==> Bucket(m, d) in s.dayStale)
  {
    ProceedIs(s, t);
    RolledInputs(s, t);
    if t in s.tasks && s.tasks[t].DayRead? { RollDayLeavesOthers(s, s.tasks[t].next, m, d); }
  }

  lemma {:induction false} ProceedLeavesDay(s: Store, t: int, m: int, d: int)
    requires !RollsDay(s, Proceeds(t), d)
    ensures SameDay(s, Proceed(s, t), m, d)
  {
    ProceedDaily(s, t, m, d);
    SameWindow(s, Proceed(s, t), m, At(24 * d), At(24 * d + 24));
  }

  /** The steps that write no daily row and no input. */
  lemma {:induction false} QuietDo(s: Store, e: Event)
    requires e.Hour? || e.ReadHour? || e.ReadDay?
    ensures var s' := Do(s, e);
            s'.monitors == s.monitors && s'.results == s.results && s'.daily == s.daily && s'.dayStale == s.dayStale
  {
  }

  lemma RollDayInputs(s: Store, d: int)
    ensures RollDay(s, d).monitors == s.monitors && RollDay(s, d).results == s.results
  {
  }

  lemma {:induction false} DoLeavesDay(s: Store, e: Event, m: int, d: int)
    requires MonitorsSound(s) && Checked(s, e) && Leaves(s, e, m, d) && At(24 * d + 24) <= s.now
    ensures SameDay(s, Do(s, e), m, d)
  {
    var from, to := At(24 * d), At(24 * d + 24);
    match e
    case Created(n, interval, offset) => CreateWindow(s, n, interval, offset, m, from, to);
    case Changed(n, change) => ChangeWindow(s, n, change, m, from, to);
    case Result(k, ok) => ResultLeavesDay(s, k, ok, m, d);
    case Day(x) => RollDayInputs(s, x); SameWindow(s, RollDay(s, x), m, from, to); RollDayLeavesOthers(s, x, m, d);
    case Proceeds(t) => ProceedLeavesDay(s, t, m, d);
    case _ => QuietDo(s, e); SameWindow(s, Do(s, e), m, from, to);
  }

  lemma {:induction false} StepLeavesDay(s: Store, e: Event, now: int, m: int, d: int)
    requires MonitorsSound(s) && s.now <= now && Checked(s, e) && Leaves(s, e, m, d) && At(24 * d + 24) <= s.now
    ensures SameDay(s, Step(s, e, now), m, d) && MonitorsSound(Step(s, e, now))
  {
    var t := s.(now := now);
    TickMonitors(s, now);
    SameWindow(s, t, m, At(24 * d), At(24 * d + 24));
    DoLeavesDay(t, e, m, d);
    DoMonitors(t, e);
  }

  lemma StepTime(s: Store, e: Event, now: int)
    ensures Step(s, e, now).now == now
  {
    if !e.Created? && !e.Changed? && !e.Result? { MaintenanceInputs(s.(now := now), e); }
  }

  /** However a run goes on, as long as the day is not rolled again and no result of it
      arrives, its row, its invalidation and the right answer all stay what they are: a
      short row without an invalidation stays short, also once all its hours are rolled. */
  lemma {:induction false} DayStays(s: Store, more: seq<Timed>, m: int, d: int)
    requires MonitorsSound(s) && Orderly(s, more) && AllLeave(s, more, m, d) && At(24 * d + 24) <= s.now
    ensures MonitorsSound(Run(s, more)) && s.now <= Run(s, more).now
    ensures SameDay(s, Run(s, more), m, d)
  {
    if more != [] {
      var front, last := more[..|more| - 1], more[|more| - 1];
      DayStays(s, front, m, d);
      StepTime(Run(s, front), last.e, last.now);
      StepLeavesDay(Run(s, front), last.e, last.now, m, d);
    }
  }

  // ----------------------------------------------------------- the run of Maintain

  lemma {:induction false} RunConcat(s: Store, es: seq<Timed>, more: seq<Timed>)
    ensures Run(s, es + more) == Run(Run(s, es), more)
    ensures Legal(s, es + more) <==> Legal(s, es) && Legal(Run(s, es), more)
  {
    if more == [] {
      assert es + more == es;
    } else {
      var n := |more| - 1;
      RunConcat(s, es, more[..n]);
      assert (es + more)[..|es + more| - 1] == es + more[..n];
    }
  }

  lemma {:induction false} RunSnoc(s: Store, es: seq<Timed>, t: Timed)
    ensures Run(s, es + [t]) == Step(Run(s, es), t.e, t.now)
    ensures Legal(s, es + [t]) <==> Legal(s, es) && Run(s, es).now <= t.now && Allowed(Run(s, es), t.e, t.now)
  {
    assert (es + [t])[..|es|] == es;
  }

  /** One round of AdvanceRollups' loop: read the checkpoint, roll, move the checkpoint. */
  function Round(read: Event, now: int): seq<Timed> {
    [] + [Timed(read, now)] + [Timed(Proceeds(0), now)] + [Timed(Proceeds(0), now)]
  }

  lemma {:induction false} RunRound(s: Store, read: Event, now: int)
    ensures Run(s, Round(read, now)) == Step(Step(Step(s, read, now), Proceeds(0), now), Proceeds(0), now)
    ensures s.now <= now && Allowed(s, read, now) ==> Legal(s, Round(read, now))
  {
    var a, p := Timed(read, now), Timed(Proceeds(0), now);
    RunSnoc(s, [], a);
    RunSnoc(s, [] + [a], p);
    RunSnoc(s, [] + [a] + [p], p);
    StepTime(s, read, now);
    StepTime(Step(s, read, now), Proceeds(0), now);
  }

  /** Nothing is in progress or stale, and rows exist up to the hourly checkpoint. */
  ghost predicate Idle(s: Store) {
    s.tasks == map[] && s.hourStale == {} && s.dayStale == {} && forall h :: h in s.hourly ==> h <= s.hourlyThrough
  }

  /** n more hours are passed, and only hourly rows were written. */
  ghost predicate Advanced(s: Store, s': Store, n: nat) {
    && Idle(s') && s'.hourlyThrough == s.hourlyThrough + n && s'.dailyThrough == s.dailyThrough
    && s'.monitors == s.monitors && s'.daily == s.daily
  }

  lemma ReadsHour(s: Store, now: int)
    requires s.hourlyThrough + 1 < HourOf(now)
    ensures Step(s, ReadHour(0, now), now) == s.(now := now, tasks := s.tasks[0 := HourRead(s.hourlyThrough + 1)])
  {
  }

  lemma RollsHour(s: Store, h: int, now: int)
    requires 0 in s.tasks && s.tasks[0] == HourRead(h) && s.now == now
    ensures Step(s, Proceeds(0), now) == RollHour(s, h).(tasks := s.tasks[0 := HourRolled(h)])
  {
  }

  lemma MovesHour(s: Store, h: int, now: int)
    requires 0 in s.tasks && s.tasks[0] == HourRolled(h) && s.now == now
    ensures Step(s, Proceeds(0), now) == s.(hourlyThrough := Max(s.hourlyThrough, h), tasks := s.tasks - {0})
  {
  }

  lemma {:induction false} RolledHourIdle(s: Store, h: int)
    requires Idle(s.(tasks := map[])) && h == s.hourlyThrough + 1
    ensures Idle(RollHour(s, h).(hourlyThrough := h, tasks := map[]))
  {
    assert RollHour(s, h).hourly.Keys == s.hourly.Keys + {h};
  }

  lemma {:induction false} HourRound(s: Store, now: int)
    requires Idle(s) && s.now <= now && s.hourlyThrough + 1 < HourOf(now)
    ensures var s' := Run(s, Round(ReadHour(0, now), now)); Advanced(s, s', 1) && s'.now == now
    ensures Legal(s, Round(ReadHour(0, now), now))
  {
    RunRound(s, ReadHour(0, now), now);
    var h := s.hourlyThrough + 1;
    ReadsHour(s, now);
    var a := s.(now := now, tasks := s.tasks[0 := HourRead(h)]);
    RollsHour(a, h, now);
    var b := RollHour(a, h).(tasks := a.tasks[0 := HourRolled(h)]);
    MovesHour(b, h, now);
    assert b.tasks - {0} == map[];
    RolledHourIdle(a, h);
  }

  lemma ReadsDay(s: Store, now: int)
    requires s.dailyThrough + 1 < DayOf(now) && s.now == now
    ensures Step(s, ReadDay(0, now), now) == s.(tasks := s.tasks[0 := DayRead(s.dailyThrough + 1)])
  {
  }

  lemma RollsDayThen(s: Store, d: int, now: int)
    requires 0 in s.tasks && s.tasks[0] == DayRead(d) && s.now == now && !HourlyPending(s, d)
    ensures Step(s, Proceeds(0), now) == RollDay(s, d).(tasks := s.tasks[0 := DayRolled(d)])
  {
  }

  lemma MovesDay(s: Store, d: int, now: int)
    requires 0 in s.tasks && s.tasks[0] == DayRolled(d) && s.now == now
    ensures Step(s, Proceeds(0), now) == s.(dailyThrough := Max(s.dailyThrough, d), tasks := s.tasks - {0})
  {
  }

  lemma {:induction false} DayRoundIs(s: Store, now: int)
    requires Idle(s) && s.now == now && s.dailyThrough + 1 < DayOf(now)
    ensures var d := s.dailyThrough + 1;
            Run(s, Round(ReadDay(0, now), now)) == RollDay(s.(tasks := map[0 := DayRead(d)]), d).(tasks := map[], dailyThrough := d)
    ensures Legal(s, Round(ReadDay(0, now), now))
  {
    RunRound(s, ReadDay(0, now), now);
    var d := s.dailyThrough + 1;
    ReadsDay(s, now);
    var a := s.(tasks := map[0 := DayRead(d)]);
    assert !HourlyPending(a, d);
    RollsDayThen(a, d, now);
    var b := RollDay(a, d).(tasks := a.tasks[0 := DayRolled(d)]);
    MovesDay(b, d, now);
    assert b.tasks - {0} == map[];
  }

  lemma {:induction false} RolledRows(s: Store, d: int)
    requires s.hourStale == {}
    ensures var s' := RollDay(s, d);
            && s.closedDays <= s'.closedDays && (HoursClosed(s, d) ==> d in s'.closedDays)
            && (s.dayStale == {} ==> s'.dayStale == {})
            && (forall m, x :: HasRow(s'.daily, m, x) ==> HasRow(s.daily, m, x) || (x == d && HasHourRow(s.hourly, m, d)))
  {
    assert !HourlyPending(s, d);
  }

  lemma {:induction false} DayRound(s: Store, now: int)
    requires Idle(s) && s.now == now && s.dailyThrough + 1 < DayOf(now)
    ensures var s', d := Run(s, Round(ReadDay(0, now), now)), s.dailyThrough + 1;
            && Idle(s') && s'.now == now && s'.hourlyThrough == s.hourlyThrough && s'.dailyThrough == d
            && s'.monitors == s.monitors && s'.hourly == s.hourly
            && s.closedDays <= s'.closedDays && (HoursClosed(s, d) ==> d in s'.closedDays)
            && (forall m, x :: HasRow(s'.daily, m, x) ==> HasRow(s.daily, m, x) || (x == d && HasHourRow(s.hourly, m, d)))
    ensures Legal(s, Round(ReadDay(0, now), now))
  {
    var d := s.dailyThrough + 1;
    var a := s.(tasks := map[0 := DayRead(d)]);
    DayRoundIs(s, now);
    RolledRows(a, d);
    assert HoursClosed(a, d) == HoursClosed(s, d);
  }

  function Rounds(read: Event, now: int, n: nat): seq<Timed> {
    if n == 0 then [] else Rounds(read, now, n - 1) + Round(read, now)
  }

  lemma {:induction false} OneMoreRound(s: Store, es: seq<Timed>, now: int, n: nat)
    requires RoundsAdvance(s, es, now, n) && s.now <= now && s.hourlyThrough + n + 1 < HourOf(now)
    ensures RoundsAdvance(s, es + Round(ReadHour(0, now), now), now, n + 1)
  {
    RunConcat(s, es, Round(ReadHour(0, now), now));
    HourRound(Run(s, es), now);
  }

  lemma {:induction false} HourRounds(s: Store, now: int, n: nat)
    requires Idle(s) && s.now <= now && s.hourlyThrough + n < HourOf(now)
    ensures RoundsAdvance(s, Rounds(ReadHour(0, now), now, n), now, n)
  {
    if n == 0 {
      assert Run(s, []) == s;
    } else {
      HourRounds(s, now, n - 1);
      OneMoreRound(s, Rounds(ReadHour(0, now), now, n - 1), now, n - 1);
    }
  }

  /** es is legal from s, passes n hours and ends no later than now. */
  ghost predicate RoundsAdvance(s: Store, es: seq<Timed>, now: int, n: nat) {
    Legal(s, es) && Advanced(s, Run(s, es), n) && (if n == 0 then Run(s, es).now == s.now else Run(s, es).now == now)
  }

  /** A monitor is created, and two days later Maintain calls AdvanceRollups(now, 24, 7) with
      checkpoints that still stand before the first hour. */
  function HoursPassed(m: int, interval: int): seq<Timed> {
    [] + [Timed(Created(m, interval, 0), 0)] + Rounds(ReadHour(0, At(48)), At(48), 24)
  }

  function MaintainRun(m: int, interval: int): seq<Timed> {
    HoursPassed(m, interval) + Round(ReadDay(0, At(48)), At(48)) + Round(ReadDay(0, At(48)), At(48))
  }

  lemma {:induction false} AfterHours(m: int, interval: int)
    requires interval > 0
    ensures var s0, es := Fresh(0, -1, -1), HoursPassed(m, interval);
            var s := Run(s0, es);
            && Legal(s0, es) && Idle(s) && s.now == At(48) && s.hourlyThrough == 23 && s.dailyThrough == -1 && s.daily == map[]
            && s.monitors == map[m := Schedule.Created(interval, 0, 0)]
            && HoursClosed(s, 0)
  {
    var s0, first := Fresh(0, -1, -1), Timed(Created(m, interval, 0), 0);
    RunConcat(s0, [] + [first], Rounds(ReadHour(0, At(48)), At(48), 24));
    RunSnoc(s0, [], first);
    HourRounds(Step(s0, Created(m, interval, 0), 0), At(48), 24);
    EveryRunInv(0, -1, -1, HoursPassed(m, interval));
    HoursCovered(Run(s0, HoursPassed(m, interval)), -1, 0);
  }

  lemma Multiple(low: int, step: int) returns (k: int)
    requires low >= 0 && step > 0
    ensures k >= 0 && low <= k * step < low + step
  {
    k := (low + step - 1) / step;
    assert low + step - 1 == k * step + (low + step - 1) % step;
  }

  lemma {:induction false} OnePeriod(p: Schedule.Period, results: map<Key, bool>, m: int, from: int, to: int)
    requires p.interval > 0
    ensures Report([p], results, m, from, to) == PeriodTally(p, results, m, from, to)
  {
    SumOfOne(Tallies([p], results, m, from, to), PeriodTally(p, results, m, from, to));
  }

  lemma SumOfOne(ts: seq<Tally>, x: Tally)
    requires |ts| == 1 && ts[0] == x
    ensures Sum(ts) == x
  {
    assert ts[..0] == [];
  }

  lemma {:induction false} SlotOf(p: Schedule.Period, from: int, to: int) returns (t: int)
    requires p == Schedule.Period(0, 0, p.interval, None) && 0 <= from && 0 < p.interval <= to - from
    ensures Expected(p, from, to, t)
  {
    var k := Multiple(from, p.interval);
    t := k * p.interval;
    assert Schedule.GridPoint(p, k) == t;
  }

  /** A monitor created at 0 has a slot in every window of its interval's length. */
  lemma {:induction false} SlotWithin(s: Store, m: int, interval: int, from: int, to: int)
    requires m in s.monitors && s.monitors[m] == Schedule.Created(interval, 0, 0) && 0 <= from && 0 < interval <= to - from
    ensures Window(s, m, from, to).expected > 0
  {
    var p := Schedule.Period(0, 0, interval, None);
    assert PeriodsOf(s, m) == [p];
    OnePeriod(p, s.results, m, from, to);
    var t := SlotOf(p, from, to);
    PeriodZeroIff(p, s.results, m, from, to);
  }

  lemma {:induction false} AfterDays(m: int, interval: int)
    requires interval > 0
    ensures Legal(Fresh(0, -1, -1), MaintainRun(m, interval))
    ensures var s := Run(Fresh(0, -1, -1), MaintainRun(m, interval));
            && Idle(s) && s.now == At(48) && s.hourlyThrough == 23 && s.dailyThrough == 1 && 0 in s.closedDays
            && s.monitors == map[m := Schedule.Created(interval, 0, 0)] && !HasRow(s.daily, m, 1)
  {
    var s0, round := Fresh(0, -1, -1), Round(ReadDay(0, At(48)), At(48));
    AfterHours(m, interval);
    var s := Run(s0, HoursPassed(m, interval));
    RunConcat(s0, HoursPassed(m, interval), round);
    RunConcat(s0, HoursPassed(m, interval) + round, round);
    DayRound(s, At(48));
    var t := Run(s, round);
    DayRound(t, At(48));
    assert forall h :: HasRow(t.hourly, m, h) ==> h <= 23;
    assert !HasHourRow(t.hourly, m, 1);
  }

  /** What the run leaves: day 0 is right, and day 1 has no row and no invalidation although slots were due. */
  ghost predicate LeftShort(s: Store, m: int) {
    && s.now == At(48) && s.hourlyThrough == 23 && s.dailyThrough == 1 && s.hourStale == {} && s.dayStale == {}
    && DayRight(s, m, 0) && Row(s.daily, m, 0).expected > 0
    && Row(s.daily, m, 1) == ZERO && Window(s, m, At(24), At(48)).expected > 0
  }

  lemma {:induction false} ShortAfterDays(s: Store, m: int, interval: int)
    requires Tables(s) && Idle(s) && s.now == At(48) && s.hourlyThrough == 23 && s.dailyThrough == 1 && 0 in s.closedDays
    requires s.monitors == map[m := Schedule.Created(interval, 0, 0)] && !HasRow(s.daily, m, 1) && 0 < interval <= At(24)
    ensures LeftShort(s, m)
  {
    DayExact(s, m, 0);
    SlotWithin(s, m, interval, At(0), At(24));
    SlotWithin(s, m, interval, At(24), At(48));
  }

  /** Maintain, 48 hours behind, passes 24 hours and both days. */
  lemma {:induction false} DayPassedEarly(m: int, interval: int)
    requires 0 < interval <= At(24)
    ensures Legal(Fresh(0, -1, -1), MaintainRun(m, interval))
    ensures LeftShort(Run(Fresh(0, -1, -1), MaintainRun(m, interval)), m)
  {
    AfterDays(m, interval);
    EveryRunInv(0, -1, -1, MaintainRun(m, interval));
    ShortAfterDays(Run(Fresh(0, -1, -1), MaintainRun(m, interval)), m, interval);
  }

  /** And it stays like that whatever follows, until day 1 is rolled again or gets a result. */
  lemma {:induction false} DayStaysShort(m: int, interval: int, s: Store, more: seq<Timed>)
    requires 0 < interval <= At(24) && s == Run(Fresh(0, -1, -1), MaintainRun(m, interval))
    requires Orderly(s, more) && AllLeave(s, more, m, 1)
    ensures !DayRight(Run(s, more), m, 1) && Bucket(m, 1) !in Run(s, more).dayStale
  {
    DayPassedEarly(m, interval);
    EveryRunInv(0, -1, -1, MaintainRun(m, interval));
    DayStays(s, more, m, 1);
  }

  // ----------------------------------------- a clock in a later hour than the database

  lemma {:induction false} OpenHourPassed(s: Store, base: int, h: int, clock: int, now: int)
    requires CheckpointSafe(s, base) && ClosedEnded(s) && s.now <= now && h == s.hourlyThrough + 1 && HourOf(now) <= h < HourOf(clock)
    ensures !CheckpointSafe(Run(s, Round(ReadHour(0, clock), now)), base)
  {
    RunRound(s, ReadHour(0, clock), now);
    var a := Step(s, ReadHour(0, clock), now);
    assert a == s.(now := now, tasks := s.tasks[0 := HourRead(h)]);
    RollsHour(a, h, now);
    MovesHour(RollHour(a, h).(tasks := a.tasks[0 := HourRolled(h)]), h, now);
    assert h !in RollHour(a, h).closedHours;
  }

  /** AdvanceRollups starts on an hour that has not ended if and only if the checkpoint has
      reached the database's hour and the call's clock is in a later one; and passing one
      hour keeps the checkpoint behind the ended hours unless exactly that happens. */
  lemma {:induction false} RoundSafeIff(s: Store, base: int, clock: int, now: int)
    requires CheckpointSafe(s, base) && ClosedEnded(s) && s.now <= now && 0 !in s.tasks
    ensures var a := Step(s, ReadHour(0, clock), now);
            0 in a.tasks && !Ended(a, a.tasks[0].next) <==> HourOf(now) <= s.hourlyThrough + 1 < HourOf(clock)
    ensures CheckpointSafe(Run(s, Round(ReadHour(0, clock), now)), base) <==>
            !(HourOf(now) <= s.hourlyThrough + 1 < HourOf(clock))
  {
    var e := ReadHour(0, clock);
    var a := Step(s, e, now);
    if ReadsEnded(s, e, now) {
      RunRound(s, e, now);
      StepCheckpoint(s, e, now, base);
      StepCheckpoint(a, Proceeds(0), now, base);
      StepCheckpoint(Step(a, Proceeds(0), now), Proceeds(0), now, base);
    } else {
      OpenHourPassed(s, base, s.hourlyThrough + 1, clock, now);
    }
  }

  /** The state AdvanceRollups leaves after passing hour 0 at now with an application clock. */
  function PassedWith(m: int, interval: int, now: int, clock: int): Store {
    var s1 := Step(Fresh(0, -1, -1), Created(m, interval, 0), 0);
    var a := Step(s1, ReadHour(0, clock), now);
    Step(Step(a, Proceeds(0), now), Proceeds(0), now)
  }

  /** A clock in a later hour than the database's passes an hour that has not ended, here
      hour 0: its row misses the slots still to come, and no invalidation says so. */
  lemma {:induction false} ClockAheadPassesOpenHour(m: int, interval: int, now: int, clock: int)
    requires 0 < now < At(1) <= clock && 0 < interval <= At(1) - now
    ensures var s := PassedWith(m, interval, now, clock);
            && s.hourlyThrough == 0 && s.now < At(1) && s.hourStale == {}
            && Row(s.hourly, m, 0).expected < Full(s, m, 0).expected
  {
    var s1 := Step(Fresh(0, -1, -1), Created(m, interval, 0), 0);
    var a := Step(s1, ReadHour(0, clock), now);
    assert a == s1.(now := now, tasks := s1.tasks[0 := HourRead(0)]);
    RollsHour(a, 0, now);
    var b := RollHour(a, 0).(tasks := a.tasks[0 := HourRolled(0)]);
    MovesHour(b, 0, now);
    var s := PassedWith(m, interval, now, clock);
    assert Row(s.hourly, m, 0) == Window(s, m, At(0), now) by {
      RowsOfFresh(a, m);
      assert PeriodsOf(a, m) == PeriodsOf(s, m);
    }
    SlotWithin(s, m, interval, now, At(1));
    ReportAdds(PeriodsOf(s, m), s.results, m, At(0), now, At(1));
  }

  lemma {:induction false} RowsOfFresh(s: Store, m: int)
    requires s.hourly == map[] && m in s.monitors && 0 <= s.now < At(1)
    ensures Row(RollHour(s, 0).hourly, m, 0) == Window(s, m, At(0), s.now)
  {
    RollHourRow(s, 0, m, 0);
  }
}
