/** What invalidation rows and checkpoints say, told from the events of a run alone: which
    result made a bucket stale, and which roll and which clock let a checkpoint pass. */
module Checkpoints {
  import opened Positions
  import opened Slots
  import opened Rollups

  // ------------------------------------------------------------ invalidations

  /** Event e recounts hour h. */
  predicate RollsHour(s: Store, e: Event, h: int) {
    e == Hour(h) || (e.Proceeds? && e.task in s.tasks && s.tasks[e.task] == HourRead(h))
  }

  /** Event e recounts day d, which no stale hour of the day prevents. */
  ghost predicate RollsDay(s: Store, e: Event, d: int) {
    && (e == Day(d) || (e.Proceeds? && e.task in s.tasks && s.tasks[e.task] == DayRead(d)))
    && forall m, h :: 24 * d <= h < 24 * d + 24 ==> Bucket(m, h) !in s.hourStale
  }

  /** Event e brings the first result for a slot of monitor m in [from, to). */
  predicate Answers(s: Store, e: Event, m: int, from: int, to: int) {
    e.Result? && e.k.monitor == m && m in s.monitors && e.k !in s.results && from <= e.k.at < to
  }

  lemma {:induction false} StepHourStale(s: Store, e: Event, now: int, m: int, h: int)
    ensures Bucket(m, h) in Step(s, e, now).hourStale <==>
            || (Bucket(m, h) in s.hourStale && !RollsHour(s, e, h))
            || Answers(s, e, m, 3_600_000_000 * h, 3_600_000_000 * h + 3_600_000_000)
  {
  }

  lemma {:induction false} PendingIff(s: Store, d: int)
    ensures HourlyPending(s, d) <==> exists m, h :: 24 * d <= h < 24 * d + 24 && Bucket(m, h) in s.hourStale
  {
    if HourlyPending(s, d) {
      var k :| k in s.hourStale && InDay(k.bucket, d);
      assert Bucket(k.monitor, k.bucket) in s.hourStale;
    }
  }

  lemma {:induction false} RollDayStale(s: Store, m: int, d: int, b: int)
    ensures Bucket(m, b) in RollDay(s, d).dayStale <==> Bucket(m, b) in s.dayStale && (b != d || HourlyPending(s, d))
  {
  }

  lemma {:induction false} StepDayStale(s: Store, e: Event, now: int, m: int, d: int)
    ensures Bucket(m, d) in Step(s, e, now).dayStale <==>
            || (Bucket(m, d) in s.dayStale && !RollsDay(s, e, d))
            || Answers(s, e, m, 86_400_000_000 * d, 86_400_000_000 * d + 86_400_000_000)
  {
    var t := s.(now := now);
    PendingIff(t, d);
    if e.Day? {
      RollDayStale(t, m, e.d, d);
    } else if e.Proceeds? && e.task in s.tasks {
      RollDayStale(t, m, s.tasks[e.task].next, d);
    }
  }

  /** Event k of the run makes the hour stale, and no later one recounts it. */
  ghost predicate HourStaleSince(s: Store, es: seq<Timed>, k: nat, m: int, h: int)
    requires k < |es|
  {
    && Answers(Run(s, es[..k]), es[k].e, m, 3_600_000_000 * h, 3_600_000_000 * h + 3_600_000_000)
    && forall i :: k < i < |es| ==> !RollsHourAt(s, es, i, h)
  }

  predicate RollsHourAt(s: Store, es: seq<Timed>, i: nat, h: int)
    requires i < |es|
  {
    RollsHour(Run(s, es[..i]), es[i].e, h)
  }

  ghost predicate DayStaleSince(s: Store, es: seq<Timed>, k: nat, m: int, d: int)
    requires k < |es|
  {
    && Answers(Run(s, es[..k]), es[k].e, m, 86_400_000_000 * d, 86_400_000_000 * d + 86_400_000_000)
    && forall i :: k < i < |es| ==> !RollsDayAt(s, es, i, d)
  }

  ghost predicate RollsDayAt(s: Store, es: seq<Timed>, i: nat, d: int)
    requires i < |es|
  {
    RollsDay(Run(s, es[..i]), es[i].e, d)
  }

  lemma {:induction false} HourStaleSinceSnoc(s: Store, es: seq<Timed>, k: nat, m: int, h: int)
    requires k < |es| - 1
    ensures var n := |es| - 1; HourStaleSince(s, es, k, m, h) <==> HourStaleSince(s, es[..n], k, m, h) && !RollsHourAt(s, es, n, h)
  {
    var n := |es| - 1;
    assert es[..n][..k] == es[..k];
    forall i | k < i < n ensures RollsHourAt(s, es[..n], i, h) <==> RollsHourAt(s, es, i, h) { assert es[..n][..i] == es[..i]; }
  }

  lemma {:induction false} DayStaleSinceSnoc(s: Store, es: seq<Timed>, k: nat, m: int, d: int)
    requires k < |es| - 1
    ensures var n := |es| - 1; DayStaleSince(s, es, k, m, d) <==> DayStaleSince(s, es[..n], k, m, d) && !RollsDayAt(s, es, n, d)
  {
    var n := |es| - 1;
    assert es[..n][..k] == es[..k];
    forall i | k < i < n ensures RollsDayAt(s, es[..n], i, d) <==> RollsDayAt(s, es, i, d) { assert es[..n][..i] == es[..i]; }
  }

  ghost predicate HourStaleIn(s: Store, es: seq<Timed>, m: int, h: int) {
    exists k :: 0 <= k < |es| && HourStaleSince(s, es, k, m, h)
  }

  ghost predicate DayStaleIn(s: Store, es: seq<Timed>, m: int, d: int) {
    exists k :: 0 <= k < |es| && DayStaleSince(s, es, k, m, d)
  }

  lemma {:induction false} HourStaleInSnoc(s: Store, es: seq<Timed>, m: int, h: int, w: Store)
    requires es != [] && w == Run(s, es[..|es| - 1])
    ensures var n := |es| - 1;
            HourStaleIn(s, es, m, h) <==>
              || (HourStaleIn(s, es[..n], m, h) && !RollsHour(w, es[n].e, h))
              || Answers(w, es[n].e, m, 3_600_000_000 * h, 3_600_000_000 * h + 3_600_000_000)
  {
    var n := |es| - 1;
    forall k | 0 <= k < n
      ensures HourStaleSince(s, es, k, m, h) <==> HourStaleSince(s, es[..n], k, m, h) && !RollsHour(w, es[n].e, h)
    {
      HourStaleSinceSnoc(s, es, k, m, h);
    }
    assert HourStaleSince(s, es, n, m, h) <==> Answers(w, es[n].e, m, 3_600_000_000 * h, 3_600_000_000 * h + 3_600_000_000);
  }

  lemma {:induction false} DayStaleInSnoc(s: Store, es: seq<Timed>, m: int, d: int, w: Store)
    requires es != [] && w == Run(s, es[..|es| - 1])
    ensures var n := |es| - 1;
            DayStaleIn(s, es, m, d) <==>
              || (DayStaleIn(s, es[..n], m, d) && !RollsDay(w, es[n].e, d))
              || Answers(w, es[n].e, m, 86_400_000_000 * d, 86_400_000_000 * d + 86_400_000_000)
  {
    var n := |es| - 1;
    forall k | 0 <= k < n
      ensures DayStaleSince(s, es, k, m, d) <==> DayStaleSince(s, es[..n], k, m, d) && !RollsDay(w, es[n].e, d)
    {
      DayStaleSinceSnoc(s, es, k, m, d);
    }
    assert DayStaleSince(s, es, n, m, d) <==> Answers(w, es[n].e, m, 86_400_000_000 * d, 86_400_000_000 * d + 86_400_000_000);
  }

  /** In every run an hour has an invalidation for a monitor exactly when a result for one of
      the monitor's slots in the hour was accepted after the hour was last recounted. */
  lemma {:induction false} HourStaleIff(s: Store, es: seq<Timed>, m: int, h: int)
    requires s.hourStale == {}
    ensures Bucket(m, h) in Run(s, es).hourStale <==> HourStaleIn(s, es, m, h)
  {
    if es != [] {
      var n := |es| - 1;
      HourStaleIff(s, es[..n], m, h);
      StepHourStale(Run(s, es[..n]), es[n].e, es[n].now, m, h);
      HourStaleInSnoc(s, es, m, h, Run(s, es[..n]));
    }
  }

  /** And a day likewise, a recount of the day waiting for its stale hours. */
  lemma {:induction false} DayStaleIff(s: Store, es: seq<Timed>, m: int, d: int)
    requires s.dayStale == {}
    ensures Bucket(m, d) in Run(s, es).dayStale <==> DayStaleIn(s, es, m, d)
  {
    if es != [] {
      var n := |es| - 1;
      DayStaleIff(s, es[..n], m, d);
      StepDayStale(Run(s, es[..n]), es[n].e, es[n].now, m, d);
      DayStaleInSnoc(s, es, m, d, Run(s, es[..n]));
    }
  }

  // -------------------------------------------------------------- checkpoints

  /** A call read the checkpoint with a clock past the end of the hour, or day. */
  predicate HourOver(e: Event, h: int) {
    e.ReadHour? && 3_600_000_000 * h + 3_600_000_000 <= e.clock
  }

  predicate DayOver(e: Event, d: int) {
    e.ReadDay? && 86_400_000_000 * d + 86_400_000_000 <= e.clock
  }

  ghost predicate HourStarted(es: seq<Timed>, h: int) {
    exists i :: 0 <= i < |es| && HourOver(es[i].e, h)
  }

  ghost predicate DayStarted(es: seq<Timed>, d: int) {
    exists i :: 0 <= i < |es| && DayOver(es[i].e, d)
  }

  ghost predicate HourDone(s: Store, es: seq<Timed>, h: int) {
    HourStarted(es, h) && exists i :: 0 <= i < |es| && RollsHourAt(s, es, i, h)
  }

  ghost predicate DayDone(s: Store, es: seq<Timed>, d: int) {
    DayStarted(es, d) && exists i :: 0 <= i < |es| && RollsDayAt(s, es, i, d)
  }

  lemma {:induction false} DoneSnoc(s: Store, es: seq<Timed>, b: int)
    requires es != []
    ensures var n := |es| - 1;
            && (HourStarted(es[..n], b) || HourOver(es[n].e, b) ==> HourStarted(es, b))
            && (DayStarted(es[..n], b) || DayOver(es[n].e, b) ==> DayStarted(es, b))
            && (HourDone(s, es[..n], b) || (HourStarted(es[..n], b) && RollsHourAt(s, es, n, b)) ==> HourDone(s, es, b))
            && (DayDone(s, es[..n], b) || (DayStarted(es[..n], b) && RollsDayAt(s, es, n, b)) ==> DayDone(s, es, b))
  {
    var n := |es| - 1;
    if HourStarted(es[..n], b) {
      var i :| 0 <= i < n && HourOver(es[..n][i].e, b);
      assert HourOver(es[i].e, b);
    }
    if DayStarted(es[..n], b) {
      var i :| 0 <= i < n && DayOver(es[..n][i].e, b);
      assert DayOver(es[i].e, b);
    }
    if HourDone(s, es[..n], b) {
      var i :| 0 <= i < n && RollsHourAt(s, es[..n], i, b);
      assert es[..n][..i] == es[..i] && RollsHourAt(s, es, i, b);
    }
    if DayDone(s, es[..n], b) {
      var i :| 0 <= i < n && RollsDayAt(s, es[..n], i, b);
      assert es[..n][..i] == es[..i] && RollsDayAt(s, es, i, b);
    }
  }

  /** What a call has behind it when it stands at t. */
  ghost predicate TaskBacked(s: Store, es: seq<Timed>, now: Store, t: Task) {
    match t
    case HourRead(h) => HourStarted(es, h) && h <= now.hourlyThrough + 1
    case HourRolled(h) => HourDone(s, es, h) && h <= now.hourlyThrough + 1
    case DayRead(d) => DayStarted(es, d) && d <= now.dailyThrough + 1
    case DayRolled(d) => DayDone(s, es, d) && d <= now.dailyThrough + 1
  }

  ghost predicate AllBacked(s: Store, es: seq<Timed>, now: Store) {
    && s.hourlyThrough <= now.hourlyThrough && s.dailyThrough <= now.dailyThrough
    && (forall h :: s.hourlyThrough < h <= now.hourlyThrough ==> HourDone(s, es, h))
    && (forall d :: s.dailyThrough < d <= now.dailyThrough ==> DayDone(s, es, d))
    && (forall t :: t in now.tasks ==> TaskBacked(s, es, now, now.tasks[t]))
  }

  /** How one event moves the checkpoints and the calls. */
  lemma {:induction false} StepTasks(s: Store, e: Event, now: int, t: int)
    ensures var s' := Step(s, e, now);
            t in s'.tasks ==>
              || (t in s.tasks && s'.tasks[t] == s.tasks[t])
              || (s'.tasks[t] == HourRead(s.hourlyThrough + 1) && HourOver(e, s.hourlyThrough + 1))
              || (s'.tasks[t] == DayRead(s.dailyThrough + 1) && DayOver(e, s.dailyThrough + 1))
              || (t in s.tasks && s.tasks[t].HourRead? && s'.tasks[t] == HourRolled(s.tasks[t].next) && RollsHour(s, e, s.tasks[t].next))
              || (t in s.tasks && s.tasks[t].DayRead? && s'.tasks[t] == DayRolled(s.tasks[t].next) && RollsDay(s, e, s.tasks[t].next))
  {
    if t in s.tasks && s.tasks[t].DayRead? { PendingIff(s.(now := now), s.tasks[t].next); }
  }

  lemma {:induction false} StepThrough(s: Store, e: Event, now: int)
    ensures var s' := Step(s, e, now);
            && (s'.hourlyThrough == s.hourlyThrough ||
                exists t :: t in s.tasks && s.tasks[t] == HourRolled(s'.hourlyThrough) && s.hourlyThrough < s'.hourlyThrough)
            && (s'.dailyThrough == s.dailyThrough ||
                exists t :: t in s.tasks && s.tasks[t] == DayRolled(s'.dailyThrough) && s.dailyThrough < s'.dailyThrough)
  {
    if e.Proceeds? && e.task in s.tasks { assert s.tasks[e.task].HourRolled? ==> s.tasks[e.task] == HourRolled(s.tasks[e.task].next); }
  }

  lemma {:induction false} BackedTask(s: Store, es: seq<Timed>, w: Store, t: int)
    requires es != [] && w == Run(s, es[..|es| - 1]) && AllBacked(s, es[..|es| - 1], w) && t in Run(s, es).tasks
    requires w.hourlyThrough <= Run(s, es).hourlyThrough && w.dailyThrough <= Run(s, es).dailyThrough
    ensures TaskBacked(s, es, Run(s, es), Run(s, es).tasks[t])
  {
    var n := |es| - 1;
    StepTasks(w, es[n].e, es[n].now, t);
    DoneSnoc(s, es, Run(s, es).tasks[t].next);
    if t in w.tasks { assert TaskBacked(s, es[..n], w, w.tasks[t]); }
  }

  lemma {:induction false} ThroughGrows(s: Store, es: seq<Timed>, w: Store, w': Store)
    requires es != [] && w == Run(s, es[..|es| - 1]) && w' == Step(w, es[|es| - 1].e, es[|es| - 1].now)
    requires AllBacked(s, es[..|es| - 1], w)
    ensures w.hourlyThrough <= w'.hourlyThrough <= w.hourlyThrough + 1 && w.dailyThrough <= w'.dailyThrough <= w.dailyThrough + 1
    ensures w'.hourlyThrough != w.hourlyThrough ==> HourDone(s, es[..|es| - 1], w'.hourlyThrough)
    ensures w'.dailyThrough != w.dailyThrough ==> DayDone(s, es[..|es| - 1], w'.dailyThrough)
  {
    var n := |es| - 1;
    StepThrough(w, es[n].e, es[n].now);
    if w'.hourlyThrough != w.hourlyThrough {
      var t :| t in w.tasks && w.tasks[t] == HourRolled(w'.hourlyThrough) && w.hourlyThrough < w'.hourlyThrough;
      assert TaskBacked(s, es[..n], w, w.tasks[t]);
    }
    if w'.dailyThrough != w.dailyThrough {
      var t :| t in w.tasks && w.tasks[t] == DayRolled(w'.dailyThrough) && w.dailyThrough < w'.dailyThrough;
      assert TaskBacked(s, es[..n], w, w.tasks[t]);
    }
  }

  lemma {:induction false} PassedHourDone(s: Store, es: seq<Timed>, w: Store, through: int, h: int)
    requires es != [] && AllBacked(s, es[..|es| - 1], w) && through <= w.hourlyThrough + 1
    requires through != w.hourlyThrough ==> HourDone(s, es[..|es| - 1], through)
    requires s.hourlyThrough < h <= through
    ensures HourDone(s, es, h)
  {
    DoneSnoc(s, es, h);
  }

  lemma {:induction false} PassedDayDone(s: Store, es: seq<Timed>, w: Store, through: int, d: int)
    requires es != [] && AllBacked(s, es[..|es| - 1], w) && through <= w.dailyThrough + 1
    requires through != w.dailyThrough ==> DayDone(s, es[..|es| - 1], through)
    requires s.dailyThrough < d <= through
    ensures DayDone(s, es, d)
  {
    DoneSnoc(s, es, d);
  }

  lemma {:induction false} EveryRunBacked(s: Store, es: seq<Timed>)
    requires s.tasks == map[]
    ensures AllBacked(s, es, Run(s, es))
  {
    if es != [] {
      var n := |es| - 1;
      EveryRunBacked(s, es[..n]);
      var w, w' := Run(s, es[..n]), Run(s, es);
      ThroughGrows(s, es, w, w');
      forall h | s.hourlyThrough < h <= w'.hourlyThrough ensures HourDone(s, es, h) { PassedHourDone(s, es, w, w'.hourlyThrough, h); }
      forall d | s.dailyThrough < d <= w'.dailyThrough ensures DayDone(s, es, d) { PassedDayDone(s, es, w, w'.dailyThrough, d); }
      forall t | t in Run(s, es).tasks ensures TaskBacked(s, es, Run(s, es), Run(s, es).tasks[t]) {
        BackedTask(s, es, Run(s, es[..n]), t);
      }
    }
  }

  /** In every run, whatever the clocks and however calls of AdvanceRollups overlap, each hour
      and day a checkpoint has passed was read by a call whose clock was past its end, and
      recounted, a day at a moment when none of its hours was stale. */
  lemma {:induction false} PassedWasRolled(now: int, hour: int, day: int, es: seq<Timed>, b: int)
    ensures var s0 := Fresh(now, hour, day);
            hour < b <= Run(s0, es).hourlyThrough ==>
              && (exists i :: 0 <= i < |es| && HourOver(es[i].e, b))
              && (exists i :: 0 <= i < |es| && RollsHourAt(s0, es, i, b))
    ensures var s0 := Fresh(now, hour, day);
            day < b <= Run(s0, es).dailyThrough ==>
              && (exists i :: 0 <= i < |es| && DayOver(es[i].e, b))
              && (exists i :: 0 <= i < |es| && RollsDayAt(s0, es, i, b))
  {
    var s0 := Fresh(now, hour, day);
    EveryRunBacked(s0, es);
    if hour < b <= Run(s0, es).hourlyThrough { assert HourDone(s0, es, b); }
    if day < b <= Run(s0, es).dailyThrough { assert DayDone(s0, es, b); }
  }
}
