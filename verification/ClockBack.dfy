/** A consumer whose clock goes back: a run of the whole control plane from the empty system
    in which a result that was kept out of the state as late is folded in after all. */
module ClockBack {
  import opened Positions
  import Evaluation
  import Incidents
  import Jobs
  import opened Pipeline
  import Schedule

  /** The worker's answer to job k, with the job's number as the result's identifier. */
  function Answer(k: int, at: int, x: Sealed, ok: bool): Jobs.Result {
    Jobs.Result(true, k, 0, x.pool, x.hash, at, at, at, ok)
  }

  /** The monitor, and jobs 0 and 1 for its slots 0 and interval, each ending in the
      dead-letter queue before the next slot; */
  function Lost(m: int, k: int, at: int, x: Sealed): seq<Event> {
    [] + [Admits(m, k, x, at)] + [OnJob(k, Jobs.DeadLetter(x.pool))]
  }

  /** then job 2 for the slot 2 * interval. */
  function Prepared(m: int, interval: int, x: Sealed): seq<Event> {
    [Create(m, interval, 0, 0)] + Lost(m, 0, 0, x) + Lost(m, 1, interval, x) + [Admits(m, 2, x, 2 * interval)]
  }

  function Consumption(k: int, at: int, x: Sealed, ok: bool, now: int): Event {
    Consumes(k, Answer(k, at, x, ok), now, k)
  }

  /** A legal run, with every result in its window, ends in s. */
  ghost predicate Reached(es: seq<Event>, s: Sys, rules: int -> Incidents.Rule) {
    Legal(es, rules) && AllInWindow(es, rules) && s == Run(es, rules)
  }

  lemma {:induction false} ReachedSnoc(es: seq<Event>, s: Sys, e: Event, rules: int -> Incidents.Rule)
    requires Reached(es, s, rules) && Allowed(s, e)
    ensures Legal(es + [e], rules) && Run(es + [e], rules) == Step(s, e, rules)
    ensures InWindow(s, e) ==> Reached(es + [e], Step(s, e, rules), rules)
  {
    assert (es + [e])[..|es|] == es;
  }

  // ------------------------------------------------------------- preparation

  /** Job k waits for its result. */
  predicate Open(s: Sys, m: int, k: int, at: int, x: Sealed) {
    k in s.jobs && s.jobs[k].job == Jobs.Job(Jobs.Scheduled, m, at, x.pool, x.hash, at + Schedule.START_WINDOW) && s.jobs[k].accepted.None?
  }

  /** Monitor m is due at next, and nothing has been evaluated. */
  ghost predicate Idle(s: Sys, m: int, interval: int, next: int) {
    && s.schedule == map[m := Schedule.Created(interval, 0, 0).(next := next)]
    && s.reports == map[m := Incidents.NEW] && s.quarantine == {}
    && forall j :: j in s.jobs ==> s.jobs[j].job.at < next && s.jobs[j].accepted.None?
  }

  ghost predicate AllDead(s: Sys) {
    forall j :: j in s.jobs ==> s.jobs[j].state == Jobs.Dead
  }

  lemma {:induction false} NextSlot(interval: int, at: int)
    requires interval > 0
    ensures Schedule.NextSchedule(at, at, interval) == Some(at + interval)
  {
    assert 0 / interval == 0;
    assert 1 * interval == interval;
  }

  lemma {:induction false} Admission(s: Sys, m: int, interval: int, k: int, at: int, x: Sealed)
    requires Idle(s, m, interval, at) && AllDead(s) && interval > 0 && k !in s.jobs
    ensures var s' := Admit(s, m, k, x, at);
            && s' == s.(schedule := s'.schedule, jobs := s.jobs[k := NewJob(Jobs.Scheduled, m, at, k, x, at)])
            && Idle(s', m, interval, at + interval)
  {
    assert !HasActive(s, m) && !SlotTaken(s, m, at);
    forall j ensures j !in ActiveIds(s, Jobs.Scheduled) { assert j in s.jobs ==> s.jobs[j].state == Jobs.Dead; }
    assert ActiveIds(s, Jobs.Scheduled) == {};
    NextSlot(interval, at);
  }

  ghost function AfterLost(s: Sys, m: int, k: int, at: int, x: Sealed, rules: int -> Incidents.Rule): Sys {
    Step(Admit(s, m, k, x, at), OnJob(k, Jobs.DeadLetter(x.pool)), rules)
  }

  ghost predicate LostFrom(s: Sys, s': Sys, m: int, interval: int, k: int, at: int, x: Sealed) {
    && Idle(s', m, interval, at + interval) && AllDead(s') && Open(s', m, k, at, x)
    && s'.jobs.Keys == s.jobs.Keys + {k} && forall j :: j in s.jobs ==> s'.jobs[j] == s.jobs[j]
  }

  lemma {:induction false} LostSlot(s: Sys, m: int, interval: int, k: int, at: int, x: Sealed, rules: int -> Incidents.Rule)
    requires Idle(s, m, interval, at) && AllDead(s) && interval > 0 && k !in s.jobs
    ensures LostFrom(s, AfterLost(s, m, k, at, x, rules), m, interval, k, at, x)
  {
    Admission(s, m, interval, k, at, x);
  }

  lemma {:induction false} LostReached(es: seq<Event>, s: Sys, m: int, k: int, at: int, x: Sealed, rules: int -> Incidents.Rule)
    requires Reached(es, s, rules) && k !in s.jobs
    ensures Reached(es + Lost(m, k, at, x), AfterLost(s, m, k, at, x, rules), rules)
  {
    var a, d := Admits(m, k, x, at), OnJob(k, Jobs.DeadLetter(x.pool));
    ReachedSnoc(es, s, a, rules);
    ReachedSnoc(es + [a], Admit(s, m, k, x, at), d, rules);
    assert es + Lost(m, k, at, x) == es + [a] + [d];
  }

  /** Jobs 0, 1 and 2 wait for their results, and nothing has been evaluated. */
  ghost predicate Ready(s: Sys, m: int, interval: int, x: Sealed) {
    && Idle(s, m, interval, 3 * interval)
    && Open(s, m, 0, 0, x) && Open(s, m, 1, interval, x) && Open(s, m, 2, 2 * interval, x)
  }

  lemma {:induction false} ThirdAdmitted(s: Sys, s1: Sys, s2: Sys, m: int, interval: int, x: Sealed)
    requires s.jobs == map[] && interval > 0 && LostFrom(s, s1, m, interval, 0, 0, x) && LostFrom(s1, s2, m, interval, 1, interval, x)
    ensures Ready(Admit(s2, m, 2, x, 2 * interval), m, interval, x)
  {
    assert s2.jobs[0] == s1.jobs[0];
    Admission(s2, m, interval, 2, 2 * interval, x);
  }

  lemma {:induction false} Started(m: int, interval: int, rules: int -> Incidents.Rule) returns (s: Sys)
    requires interval > 0
    ensures Reached([Create(m, interval, 0, 0)], s, rules) && Idle(s, m, interval, 0) && s.jobs == map[]
  {
    var start := Create(m, interval, 0, 0);
    s := Step(NONE, start, rules);
    assert Reached([], NONE, rules);
    ReachedSnoc([], NONE, start, rules);
    assert [] + [start] == [start];
  }

  lemma {:induction false} Lose(es: seq<Event>, s: Sys, m: int, interval: int, k: int, at: int, x: Sealed, rules: int -> Incidents.Rule)
    returns (s': Sys)
    requires Reached(es, s, rules) && Idle(s, m, interval, at) && AllDead(s) && interval > 0 && k !in s.jobs
    ensures Reached(es + Lost(m, k, at, x), s', rules) && LostFrom(s, s', m, interval, k, at, x)
  {
    s' := AfterLost(s, m, k, at, x, rules);
    LostSlot(s, m, interval, k, at, x, rules);
    LostReached(es, s, m, k, at, x, rules);
  }

  lemma {:induction false} PreparedReady(m: int, interval: int, x: Sealed, rules: int -> Incidents.Rule) returns (s: Sys)
    requires interval > 0
    ensures Reached(Prepared(m, interval, x), s, rules) && Ready(s, m, interval, x)
  {
    var es := [Create(m, interval, 0, 0)];
    var s0 := Started(m, interval, rules);
    var s1 := Lose(es, s0, m, interval, 0, 0, x, rules);
    var s2 := Lose(es + Lost(m, 0, 0, x), s1, m, interval, 1, interval, x, rules);
    s := Admit(s2, m, 2, x, 2 * interval);
    ThirdAdmitted(s0, s1, s2, m, interval, x);
    ReachedSnoc(es + Lost(m, 0, 0, x) + Lost(m, 1, interval, x), s2, Admits(m, 2, x, 2 * interval), rules);
  }

  // -------------------------------------------------------------- consumption

  /** No other job has the result's identifier. */
  ghost predicate Unused(s: Sys, k: int) {
    forall j :: j in s.jobs && s.jobs[j].accepted.Some? ==> s.jobs[j].accepted.value.id != k
  }

  lemma {:induction false} Accepted(s: Sys, m: int, k: int, at: int, x: Sealed, ok: bool, now: int)
    requires Open(s, m, k, at, x) && Unused(s, k) && at <= now
    ensures VerdictOf(s, k, Answer(k, at, x, ok), now) == Jobs.Accepts
  {
  }

  /** Only job k changes, and at most incident k is opened. */
  lemma {:induction false} ConsumedFrame(s: Sys, m: int, k: int, at: int, x: Sealed, ok: bool, now: int, rules: int -> Incidents.Rule)
    requires Open(s, m, k, at, x) && Unused(s, k) && at <= now && s.reports.Keys == {m}
    ensures var s' := Consume(s, k, Answer(k, at, x, ok), now, k, rules);
            && s'.jobs.Keys == s.jobs.Keys && s'.reports.Keys == {m}
            && (forall j :: j in s.jobs && j != k ==> s'.jobs[j] == s.jobs[j])
            && s'.jobs[k].job == s.jobs[k].job && s'.jobs[k].accepted == Some(Answer(k, at, x, ok))
            && s'.reports[m].book.incidents.Keys <= s.reports[m].book.incidents.Keys + {k}
  {
    Accepted(s, m, k, at, x, ok, now);
  }

  /** After the newest job's result, before the others': the table holds a newer slot than
      job 1's, and jobs 0 and 1 can still be answered. */
  ghost predicate Ahead(s: Sys, m: int, interval: int, x: Sealed) {
    && s.reports.Keys == {m} && s.reports[m].book.incidents.Keys <= {2}
    && Open(s, m, 0, 0, x) && Unused(s, 0) && Open(s, m, 1, interval, x) && Unused(s, 1)
    && s.reports[m].view.last.Some? && After(s.reports[m].view.last.value, Pos(interval, 1))
  }

  lemma {:induction false} LastAfter(es: seq<Event>, s: Sys, m: int, p: Pos, q: Pos, ok: bool, rules: int -> Incidents.Rule)
    requires Reached(es, s, rules) && m in s.reports && Reported(s, m, p, ok) && After(p, q)
    ensures s.reports[m].view.last.Some? && After(s.reports[m].view.last.value, q)
  {
    EveryRunInv(es, rules);
    EveryRunEvaluated(es, rules);
    assert RawAgrees(s, m);
    var view := s.reports[m].view;
    assert Evaluation.Holds(view.raw, p, ok);
    assert p in view.evals.Keys;
    Evaluation.LastIsGreatest(view, Incidents.Thresholds(rules(m)));
  }

  lemma {:induction false} NewestFirst(es: seq<Event>, s: Sys, m: int, interval: int, x: Sealed, ok: bool, now: int, rules: int -> Incidents.Rule)
    returns (s': Sys)
    requires Reached(es, s, rules) && Ready(s, m, interval, x) && interval > 0
    requires 2 * interval <= now <= 2 * interval + Schedule.START_WINDOW + CORRECTION_WINDOW
    ensures Reached(es + [Consumption(2, 2 * interval, x, ok, now)], s', rules) && Ahead(s', m, interval, x)
  {
    var e := Consumption(2, 2 * interval, x, ok, now);
    Accepted(s, m, 2, 2 * interval, x, ok, now);
    ConsumedFrame(s, m, 2, 2 * interval, x, ok, now, rules);
    ReachedSnoc(es, s, e, rules);
    s' := Step(s, e, rules);
    LastAfter(es + [e], s', m, Pos(2 * interval, 2), Pos(interval, 1), ok, rules);
  }

  /** Job 1's result arrives beyond its window and is skipped; job 0 can still be answered. */
  ghost predicate SkippedOne(s: Sys, m: int, interval: int, x: Sealed, t: int) {
    && s.reports.Keys == {m} && 0 !in s.reports[m].book.incidents && Open(s, m, 0, 0, x) && Unused(s, 0)
    && LateAt(s, m, Pos(interval, 1), t) && Evaluation.Skipped(s.reports[m].view, Pos(interval, 1))
  }

  lemma {:induction false} LateSkipped(es: seq<Event>, s: Sys, m: int, interval: int, x: Sealed, ok: bool, now: int, rules: int -> Incidents.Rule)
    requires Reached(es, s, rules) && Ahead(s, m, interval, x)
    requires now > interval + Schedule.START_WINDOW + CORRECTION_WINDOW
    ensures var es' := es + [Consumption(1, interval, x, ok, now)];
            Legal(es', rules) && AcceptsLate(es', |es|, rules) && SkippedOne(Run(es', rules), m, interval, x, now)
  {
    var e := Consumption(1, interval, x, ok, now);
    var es' := es + [e];
    Accepted(s, m, 1, interval, x, ok, now);
    ConsumedFrame(s, m, 1, interval, x, ok, now, rules);
    ReachedSnoc(es, s, e, rules);
    assert es'[..|es|] == es && es'[..|es| + 1] == es';
    LateArrival(es', |es|, rules);
  }

  lemma {:induction false} FoldedAfterAll(es: seq<Event>, m: int, interval: int, x: Sealed, ok: bool, t: int, now: int, rules: int -> Incidents.Rule)
    requires Legal(es, rules) && SkippedOne(Run(es, rules), m, interval, x, t) && interval > 0
    requires 0 <= now <= Schedule.START_WINDOW + CORRECTION_WINDOW
    ensures var es' := es + [Consumption(0, 0, x, ok, now)];
            Legal(es', rules) && m in Run(es', rules).reports && Pos(interval, 1) in Run(es', rules).reports[m].view.evals
  {
    var s, e := Run(es, rules), Consumption(0, 0, x, ok, now);
    EveryRunInv(es, rules);
    Accepted(s, m, 0, 0, x, ok, now);
    ConsumedFrame(s, m, 0, 0, x, ok, now, rules);
    ClockBackFoldsSkipped(s, m, Pos(interval, 1), 0, e.r, t, now, 0, rules);
    assert (es + [e])[..|es|] == es;
  }

  // -------------------------------------------------------------- main theorem

  /** When the three results are consumed, and what they say. */
  datatype Times = Times(t0: int, ok0: bool, t1: int, ok1: bool, t2: int, ok2: bool)

  /** Job 2 is answered in its window, then job 1 beyond its own. */
  function Late(es: seq<Event>, interval: int, x: Sealed, c: Times): seq<Event> {
    es + [Consumption(2, 2 * interval, x, c.ok2, c.t2)] + [Consumption(1, interval, x, c.ok1, c.t1)]
  }

  predicate Apart(interval: int, c: Times) {
    && 2 * interval <= c.t2 <= 2 * interval + Schedule.START_WINDOW + CORRECTION_WINDOW
    && c.t1 > interval + Schedule.START_WINDOW + CORRECTION_WINDOW
    && 0 <= c.t0 <= Schedule.START_WINDOW + CORRECTION_WINDOW
  }

  /** Job 1's late result is kept out of the state, and the next event folds it in. */
  ghost predicate SkippedThenFolded(es: seq<Event>, e: Event, m: int, p: Pos, rules: int -> Incidents.Rule) {
    && es != [] && Legal(es, rules) && AcceptsLate(es, |es| - 1, rules)
    && m in Run(es, rules).reports && Evaluation.Skipped(Run(es, rules).reports[m].view, p)
    && Legal(es + [e], rules)
    && m in Run(es + [e], rules).reports && p in Run(es + [e], rules).reports[m].view.evals
  }

  lemma {:induction false} FoldedFrom(es: seq<Event>, s: Sys, m: int, interval: int, x: Sealed, c: Times, rules: int -> Incidents.Rule)
    requires Reached(es, s, rules) && Ready(s, m, interval, x) && interval > 0 && Apart(interval, c)
    ensures SkippedThenFolded(Late(es, interval, x, c), Consumption(0, 0, x, c.ok0, c.t0), m, Pos(interval, 1), rules)
  {
    var s' := NewestFirst(es, s, m, interval, x, c.ok2, c.t2, rules);
    LateSkipped(es + [Consumption(2, 2 * interval, x, c.ok2, c.t2)], s', m, interval, x, c.ok1, c.t1, rules);
    FoldedAfterAll(Late(es, interval, x, c), m, interval, x, c.ok0, c.t1, c.t0, rules);
  }

  /** For every interval there is such a run from the empty system on: job 2 is answered,
      job 1 too late, and then job 0 with an earlier consumption time than job 1's. */
  lemma {:induction false} LateResultFoldedByClockBack(m: int, interval: int, x: Sealed, c: Times, rules: int -> Incidents.Rule)
    requires interval > 0 && Apart(interval, c)
    ensures c.t0 < c.t1
    ensures SkippedThenFolded(Late(Prepared(m, interval, x), interval, x, c), Consumption(0, 0, x, c.ok0, c.t0), m, Pos(interval, 1), rules)
  {
    var s := PreparedReady(m, interval, x, rules);
    FoldedFrom(Prepared(m, interval, x), s, m, interval, x, c, rules);
  }
}
