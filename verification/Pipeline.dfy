/** The control plane over all monitors and jobs: admission (ScheduleDue, TestNow),
    the jobs' own steps, and result consumption with evaluation and incidents. Each
    event is one committed transaction, or one iteration of ScheduleDue's loop. */
module Pipeline {
  import opened Positions
  import opened Jobs
  import Evaluation
  import Incidents
  import Schedule

  const SCHEDULED_LIMIT := 1000
  const MANUAL_LIMIT := 10
  const CORRECTION_WINDOW := 10 * MINUTE

  datatype SlotReason = Missed | AdmissionLimit
  datatype SlotGap = SlotGap(monitor: int, at: int, reason: SlotReason)

  /** A sealed job: its pool, the hash of its snapshot and its bytes. */
  datatype Sealed = Sealed(pool: int, hash: int, body: int)

  /** reports: each monitor's ordered state and incidents. */
  datatype Sys = Sys(
    schedule: map<int, Schedule.Monitor>,
    reports: map<int, Incidents.Monitor>,
    jobs: map<int, Cell>,
    slotGaps: set<SlotGap>,
    quarantine: set<int>)

  const NONE := Sys(map[], map[], map[], {}, {})

  function ActiveIds(s: Sys, kind: Kind): set<int> {
    set j | j in s.jobs && s.jobs[j].job.kind == kind && Active(s.jobs[j].state)
  }

  predicate SlotTaken(s: Sys, m: int, at: int) {
    exists j :: j in s.jobs && s.jobs[j].job.monitor == m && s.jobs[j].job.at == at
  }

  predicate HasActive(s: Sys, m: int) {
    exists j :: j in s.jobs && IsActiveFor(s.jobs[j], m)
  }

  predicate IsActiveFor(c: Cell, m: int) {
    c.job.monitor == m && c.job.kind == Scheduled && Active(c.state)
  }

  // -------------------------------------------------------------- admission

  function NewJob(kind: Kind, m: int, at: int, id: int, x: Sealed, now: int): Cell {
    var expires := at + Schedule.START_WINDOW;
    New(Job(kind, m, at, x.pool, x.hash, expires), Message(x.body, id, id, x.hash, expires), now)
  }

  /** INSERT ... ON CONFLICT (monitor_id, scheduled_at) DO NOTHING, with the outbox row. */
  function Insert(s: Sys, id: int, c: Cell): Sys {
    if SlotTaken(s, c.job.monitor, c.job.at) then s else s.(jobs := s.jobs[id := c])
  }

  /** A monitor ListDueScheduledMonitors may return. */
  predicate Listed(s: Sys, m: int, now: int) {
    m in s.schedule && Schedule.Due(s.schedule[m], now) && !HasActive(s, m)
  }

  function AdvanceSchedule(s: Sys, m: int, now: int): Sys {
    if m in s.schedule then s.(schedule := s.schedule[m := Schedule.Step(s.schedule[m], Schedule.Advance, now)]) else s
  }

  /** One iteration of ScheduleDue's loop. */
  function Admit(s: Sys, m: int, id: int, x: Sealed, now: int): Sys {
    if !Listed(s, m, now) then s else
    var slot := s.schedule[m].next;
    if |ActiveIds(s, Scheduled)| >= SCHEDULED_LIMIT then
      AdvanceSchedule(s.(slotGaps := s.slotGaps + {SlotGap(m, slot, AdmissionLimit)}), m, now)
    else
      var at := Schedule.JobSlot(s.schedule[m], now);
      var s' := if at != slot then s.(slotGaps := s.slotGaps + {SlotGap(m, slot, Missed)}) else s;
      AdvanceSchedule(Insert(s', id, NewJob(Scheduled, m, at, id, x, now)), m, now)
  }

  predicate Pressure(s: Sys, now: int) {
    || (exists m :: m in s.schedule && Schedule.Active(s.schedule[m]) && s.schedule[m].next < now - 30 * SECOND)
    || |ActiveIds(s, Scheduled)| >= 900
  }

  function TestNow(s: Sys, m: int, id: int, x: Sealed, now: int): Sys {
    if m !in s.schedule || s.schedule[m].deleted || |ActiveIds(s, Manual)| >= MANUAL_LIMIT || Pressure(s, now) then s
    else Insert(s, id, NewJob(Manual, m, now, id, x, now))
  }

  // ------------------------------------------------------------ consumption

  predicate Reused(s: Sys, id: int, result: int) {
    exists j :: j in s.jobs && j != id && HasResult(s.jobs[j], result)
  }

  predicate HasResult(c: Cell, result: int) {
    c.accepted.Some? && c.accepted.value.id == result
  }

  function VerdictOf(s: Sys, id: int, r: Result, now: int): Verdict {
    if id in s.jobs then Judge(s.jobs[id], r, now, Reused(s, id, r.id), r.id in s.quarantine) else Rejected
  }

  /** ConsumeNext; incident is the id an incident opened by it would get. */
  ghost function Consume(s: Sys, id: int, r: Result, now: int, incident: int, rules: int -> Incidents.Rule): Sys {
    var v := VerdictOf(s, id, r, now);
    if v == Rejected then s else
    var c := s.jobs[id];
    var s' := s.(jobs := s.jobs[id := DoDeliver(c, r, now, Reused(s, id, r.id), r.id in s.quarantine)],
                 quarantine := if v == Conflict then s.quarantine + {r.id} else s.quarantine);
    var m := c.job.monitor;
    if v == Accepts && c.job.kind == Scheduled && m in s.reports then
      var e := Incidents.Result(Pos(c.job.at, id), r.ok, now <= c.job.expires + CORRECTION_WINDOW, incident, now);
      s'.(reports := s.reports[m := Incidents.Step(s.reports[m], e, rules(m))])
    else s'
  }

  /** The message is deleted exactly when the transaction commits. */
  predicate Acknowledged(s: Sys, id: int, r: Result, now: int) {
    VerdictOf(s, id, r, now) != Rejected
  }

  // ------------------------------------------------------------------ events

  datatype Event =
    | Create(m: int, interval: int, offset: int, now: int)
    | Change(m: int, change: Schedule.Event, now: int)
    | Admits(m: int, id: int, x: Sealed, now: int)
    | Tests(m: int, id: int, x: Sealed, now: int)
    | OnJob(id: int, je: Jobs.Event)
    | ReclaimAll(now: int)
    | SweepAll(now: int)
    | Consumes(id: int, r: Result, now: int, incident: int)
    | ResultDLQ(result: int)
    | OnReport(m: int, re: Incidents.Event)

  function EachJob(s: Sys, e: Jobs.Event): Sys {
    s.(jobs := map j | j in s.jobs :: Jobs.Step(s.jobs[j], e))
  }

  ghost function Step(s: Sys, e: Event, rules: int -> Incidents.Rule): Sys {
    match e
    case Create(m, interval, offset, now) =>
      if m in s.schedule then s else
        s.(schedule := s.schedule[m := Schedule.Created(interval, offset, now)], reports := s.reports[m := Incidents.NEW])
    case Change(m, change, now) =>
      if m !in s.schedule then s else s.(schedule := s.schedule[m := Schedule.Step(s.schedule[m], change, now)])
    case Admits(m, id, x, now) => Admit(s, m, id, x, now)
    case Tests(m, id, x, now) => TestNow(s, m, id, x, now)
    case OnJob(id, je) => if id in s.jobs then s.(jobs := s.jobs[id := Jobs.Step(s.jobs[id], je)]) else s
    case ReclaimAll(now) => EachJob(s, Reclaims(now))
    case SweepAll(now) => EachJob(s, Sweep(now))
    case Consumes(id, r, now, incident) => Consume(s, id, r, now, incident, rules)
    case ResultDLQ(result) => s.(quarantine := s.quarantine + {result})
    case OnReport(m, re) =>
      if m in s.reports then s.(reports := s.reports[m := Incidents.Step(s.reports[m], re, rules(m))]) else s
  }

  /** Job and incident ids are random UUIDs, and so new; a result reaches a job or a
      report only through Consumes; schedule inputs passed their checks. */
  predicate Allowed(s: Sys, e: Event) {
    match e
    case Create(m, interval, offset, now) => 0 <= offset < interval
    case Change(m, change, now) => m in s.schedule ==> Schedule.Allowed(s.schedule[m], change)
    case Admits(m, id, x, now) => id !in s.jobs
    case Tests(m, id, x, now) => id !in s.jobs
    case OnJob(id, je) => !je.Deliver? && (id in s.jobs ==> Jobs.Allowed(s.jobs[id], je))
    case Consumes(id, r, now, incident) => forall m :: m in s.reports ==> incident !in s.reports[m].book.incidents
    case OnReport(m, re) => !re.Result?
    case _ => true
  }

  // --------------------------------------------------------------- invariant

  ghost predicate JobOk(s: Sys, j: int)
    requires j in s.jobs
  {
    var c := s.jobs[j];
    && Safe(c)
    && c.job.monitor in s.reports
    && c.job.expires == c.job.at + Schedule.START_WINDOW
    && c.outbox.message.dedup == c.outbox.message.group == j
    && c.outbox.message.hash == c.job.hash && c.outbox.message.expires == c.job.expires
  }

  ghost predicate JobsOk(s: Sys) {
    && s.schedule.Keys == s.reports.Keys
    && forall j :: j in s.jobs ==> JobOk(s, j)
  }

  /** One job per slot. */
  ghost predicate SlotsUnique(s: Sys) {
    forall i, j :: i in s.jobs && j in s.jobs && i != j ==>
      s.jobs[i].job.monitor != s.jobs[j].job.monitor || s.jobs[i].job.at != s.jobs[j].job.at
  }

  ghost predicate ResultsUnique(s: Sys) {
    forall i, j, r :: i in s.jobs && j in s.jobs && HasResult(s.jobs[i], r) && HasResult(s.jobs[j], r) ==> i == j
  }

  /** At most one active scheduled job per monitor, 1000 in all, and 10 manual ones. */
  ghost predicate Bounded(s: Sys) {
    && (forall i, j, m :: i in s.jobs && j in s.jobs && IsActiveFor(s.jobs[i], m) && IsActiveFor(s.jobs[j], m) ==> i == j)
    && |ActiveIds(s, Scheduled)| <= SCHEDULED_LIMIT
    && |ActiveIds(s, Manual)| <= MANUAL_LIMIT
  }

  /** Job p.job is a scheduled job of monitor m at p.at whose accepted result is ok. */
  ghost predicate Reported(s: Sys, m: int, p: Pos, ok: bool) {
    && p.job in s.jobs
    && var c := s.jobs[p.job];
       c.job.kind == Scheduled && c.job.monitor == m && c.job.at == p.at && c.accepted.Some? && c.accepted.value.ok == ok
  }

  ghost predicate RawAgrees(s: Sys, m: int)
    requires m in s.reports
  {
    forall p, ok :: Evaluation.Holds(s.reports[m].view.raw, p, ok) <==> Reported(s, m, p, ok)
  }

  /** A monitor's raw results are the accepted scheduled results of its jobs, and its
      ordered state and incidents are consistent with them. */
  ghost predicate ReportsOk(s: Sys, rules: int -> Incidents.Rule) {
    forall m :: m in s.reports ==> RawAgrees(s, m) && Incidents.Good(s.reports[m], rules(m))
  }

  // ------------------------------------------------------ steps that keep jobs

  /** Jobs only moved by steps that are not deliveries, and nothing else changed but schedules and gaps. */
  ghost predicate Moved(s: Sys, s': Sys) {
    && s'.jobs.Keys == s.jobs.Keys && s'.reports == s.reports && s'.schedule == s.schedule
    && forall j :: j in s.jobs ==> MovedJob(s.jobs[j], s'.jobs[j])
  }

  ghost predicate MovedJob(c: Cell, c': Cell) {
    && c'.job == c.job && c'.outbox.message == c.outbox.message
    && (Safe(c) ==> Safe(c')) && (Active(c'.state) ==> Active(c.state)) && c'.accepted == c.accepted
  }

  lemma {:induction false} StepMoves(c: Cell, e: Jobs.Event)
    requires Safe(c) && !e.Deliver? && Jobs.Allowed(c, e)
    ensures MovedJob(c, Jobs.Step(c, e))
  {
    StepOutbox(c, e);
    StepSends(c, e);
    StepLedger(c, e);
  }

  lemma {:induction false} OnJobMoves(s: Sys, id: int, e: Jobs.Event)
    requires JobsOk(s) && id in s.jobs && !e.Deliver? && Jobs.Allowed(s.jobs[id], e)
    ensures Moved(s, s.(jobs := s.jobs[id := Jobs.Step(s.jobs[id], e)]))
  {
    assert JobOk(s, id);
    StepMoves(s.jobs[id], e);
  }

  lemma {:induction false} EachJobMoves(s: Sys, e: Jobs.Event)
    requires JobsOk(s) && (e.Reclaims? || e.Sweep?)
    ensures Moved(s, EachJob(s, e))
  {
    forall j | j in s.jobs ensures MovedJob(s.jobs[j], EachJob(s, e).jobs[j]) {
      assert JobOk(s, j);
      StepMoves(s.jobs[j], e);
    }
  }

  lemma {:induction false} MovedJobs(s: Sys, s': Sys)
    requires Moved(s, s') && JobsOk(s) && SlotsUnique(s) && ResultsUnique(s)
    ensures JobsOk(s') && SlotsUnique(s') && ResultsUnique(s')
  {
    forall j | j in s'.jobs ensures JobOk(s', j) { assert JobOk(s, j) && MovedJob(s.jobs[j], s'.jobs[j]); }
    forall i, j, r | i in s'.jobs && j in s'.jobs && HasResult(s'.jobs[i], r) && HasResult(s'.jobs[j], r) ensures i == j {
      assert MovedJob(s.jobs[i], s'.jobs[i]) && MovedJob(s.jobs[j], s'.jobs[j]);
      assert HasResult(s.jobs[i], r) && HasResult(s.jobs[j], r);
    }
  }

  lemma {:induction false} MovedActive(s: Sys, s': Sys, kind: Kind)
    requires s'.jobs.Keys == s.jobs.Keys
    requires forall j :: j in s.jobs ==> s'.jobs[j].job == s.jobs[j].job && (Active(s'.jobs[j].state) ==> Active(s.jobs[j].state))
    ensures |ActiveIds(s', kind)| <= |ActiveIds(s, kind)|
  {
    forall j | j in ActiveIds(s', kind) ensures j in ActiveIds(s, kind) {
      assert j in s.jobs;
    }
    SubsetSize(ActiveIds(s', kind), ActiveIds(s, kind));
  }

  lemma SubsetSize(a: set<int>, b: set<int>)
    requires a <= b
    ensures |a| <= |b|
  {
    assert b == a + (b - a);
  }

  lemma {:induction false} MovedBounded(s: Sys, s': Sys)
    requires Moved(s, s') && Bounded(s)
    ensures Bounded(s')
  {
    forall j | j in s.jobs
      ensures s'.jobs[j].job == s.jobs[j].job && (Active(s'.jobs[j].state) ==> Active(s.jobs[j].state))
    {
      assert MovedJob(s.jobs[j], s'.jobs[j]);
    }
    MovedActive(s, s', Scheduled);
    MovedActive(s, s', Manual);
    forall i, j, m | i in s'.jobs && j in s'.jobs && IsActiveFor(s'.jobs[i], m) && IsActiveFor(s'.jobs[j], m) ensures i == j {
      assert IsActiveFor(s.jobs[i], m) && IsActiveFor(s.jobs[j], m);
    }
  }

  lemma {:induction false} MovedReports(s: Sys, s': Sys, rules: int -> Incidents.Rule)
    requires Moved(s, s') && ReportsOk(s, rules)
    ensures ReportsOk(s', rules)
  {
    forall m | m in s'.reports ensures RawAgrees(s', m) {
      assert RawAgrees(s, m);
      forall p, ok ensures Evaluation.Holds(s'.reports[m].view.raw, p, ok) <==> Reported(s', m, p, ok) {
        assert p.job in s.jobs ==> MovedJob(s.jobs[p.job], s'.jobs[p.job]);
      }
    }
  }

  // ------------------------------------------------------------ steps that admit

  lemma {:induction false} FreshJobOk(kind: Kind, m: int, at: int, id: int, x: Sealed, now: int)
    ensures var c := NewJob(kind, m, at, id, x, now); Safe(c) && c.accepted.None? && Active(c.state)
  {
  }

  lemma {:induction false} InsertJobs(s: Sys, id: int, c: Cell)
    requires JobsOk(s) && SlotsUnique(s) && ResultsUnique(s) && id !in s.jobs
    requires c.accepted.None? && JobOk(s.(jobs := s.jobs[id := c]), id)
    ensures var s' := Insert(s, id, c); JobsOk(s') && SlotsUnique(s') && ResultsUnique(s')
  {
    var s' := Insert(s, id, c);
    forall j | j in s'.jobs ensures JobOk(s', j) {
      if j in s.jobs { assert JobOk(s, j); }
    }
    forall i, j, r | i in s'.jobs && j in s'.jobs && HasResult(s'.jobs[i], r) && HasResult(s'.jobs[j], r) ensures i == j {
      assert i in s.jobs && j in s.jobs && HasResult(s.jobs[i], r) && HasResult(s.jobs[j], r);
    }
  }

  lemma {:induction false} InsertReports(s: Sys, id: int, c: Cell, rules: int -> Incidents.Rule)
    requires ReportsOk(s, rules) && id !in s.jobs && c.accepted.None?
    ensures ReportsOk(Insert(s, id, c), rules)
  {
    var s' := Insert(s, id, c);
    forall m | m in s'.reports ensures RawAgrees(s', m) {
      assert RawAgrees(s, m);
      forall p, ok ensures Evaluation.Holds(s'.reports[m].view.raw, p, ok) <==> Reported(s', m, p, ok) {
        assert Reported(s, m, p, ok) <==> Reported(s', m, p, ok);
      }
    }
  }

  lemma {:induction false} InsertActive(s: Sys, id: int, c: Cell, kind: Kind)
    requires id !in s.jobs
    ensures |ActiveIds(Insert(s, id, c), kind)| <= |ActiveIds(s, kind)| + if c.job.kind == kind then 1 else 0
  {
    var a, a' := ActiveIds(s, kind), ActiveIds(Insert(s, id, c), kind);
    forall j | j in a' ensures j in a + {id} && (c.job.kind != kind ==> j in a) { }
    SubsetSize(a', a + {id});
    if c.job.kind != kind { SubsetSize(a', a); }
  }

  lemma {:induction false} InsertBounded(s: Sys, id: int, c: Cell)
    requires Bounded(s) && id !in s.jobs && |ActiveIds(s, c.job.kind)| < (if c.job.kind == Scheduled then SCHEDULED_LIMIT else MANUAL_LIMIT)
    requires c.job.kind == Scheduled ==> !HasActive(s, c.job.monitor)
    ensures Bounded(Insert(s, id, c))
  {
    var s' := Insert(s, id, c);
    InsertActive(s, id, c, Scheduled);
    InsertActive(s, id, c, Manual);
    forall i, j, m | i in s'.jobs && j in s'.jobs && IsActiveFor(s'.jobs[i], m) && IsActiveFor(s'.jobs[j], m) ensures i == j {
      assert i in s.jobs ==> IsActiveFor(s.jobs[i], m);
      assert j in s.jobs ==> IsActiveFor(s.jobs[j], m);
    }
  }

  // --------------------------------------------------------- steps that consume

  lemma {:induction false} DeliverSafe(c: Cell, e: Jobs.Event)
    requires Safe(c) && e.Deliver?
    ensures var c' := Jobs.Step(c, e);
            && Safe(c') && c'.job == c.job && c'.outbox.message == c.outbox.message
            && (Active(c'.state) ==> Active(c.state))
  {
    StepOutbox(c, e);
    StepSends(c, e);
    StepLedger(c, e);
  }

  lemma {:induction false} DeliverResult(c: Cell, r: Result, now: int, reused: bool, quarantined: bool)
    requires Safe(c)
    ensures var c' := DoDeliver(c, r, now, reused, quarantined);
            && Safe(c') && c'.job == c.job && c'.outbox.message == c.outbox.message
            && (Active(c'.state) ==> Active(c.state))
            && (c'.accepted == c.accepted || (c'.accepted == Some(r) && !reused))
  {
    DeliverSafe(c, Deliver(r, now, reused, quarantined));
  }

  /** What a committed delivery does to the jobs. */
  lemma {:induction false} ConsumeFrame(s: Sys, id: int, r: Result, now: int, incident: int, rules: int -> Incidents.Rule)
    requires JobsOk(s) && VerdictOf(s, id, r, now) != Rejected
    ensures var s' := Consume(s, id, r, now, incident, rules);
            && id in s.jobs && s'.jobs == s.jobs[id := s'.jobs[id]]
            && s'.reports.Keys == s.reports.Keys && s'.schedule == s.schedule
            && var c, c' := s.jobs[id], s'.jobs[id];
               && Safe(c') && c'.job == c.job && c'.outbox.message == c.outbox.message
               && (Active(c'.state) ==> Active(c.state))
               && (c'.accepted == c.accepted || (c'.accepted == Some(r) && !Reused(s, id, r.id)))
  {
    assert JobOk(s, id);
    var s' := Consume(s, id, r, now, incident, rules);
    assert s'.jobs[id] == DoDeliver(s.jobs[id], r, now, Reused(s, id, r.id), r.id in s.quarantine);
    DeliverResult(s.jobs[id], r, now, Reused(s, id, r.id), r.id in s.quarantine);
  }

  lemma {:induction false} ConsumeJobs(s: Sys, id: int, r: Result, now: int, incident: int, rules: int -> Incidents.Rule)
    requires JobsOk(s) && SlotsUnique(s)
    ensures var s' := Consume(s, id, r, now, incident, rules); JobsOk(s') && SlotsUnique(s')
  {
    var s' := Consume(s, id, r, now, incident, rules);
    if VerdictOf(s, id, r, now) != Rejected {
      ConsumeFrame(s, id, r, now, incident, rules);
      forall j | j in s'.jobs ensures JobOk(s', j) { assert JobOk(s, j); }
      assert forall j :: j in s'.jobs ==> s'.jobs[j].job == s.jobs[j].job;
    }
  }

  lemma {:induction false} ConsumeResults(s: Sys, id: int, r: Result, now: int, incident: int, rules: int -> Incidents.Rule)
    requires JobsOk(s) && ResultsUnique(s)
    ensures ResultsUnique(Consume(s, id, r, now, incident, rules))
  {
    var s' := Consume(s, id, r, now, incident, rules);
    if VerdictOf(s, id, r, now) != Rejected {
      ConsumeFrame(s, id, r, now, incident, rules);
      forall i, j, q | i in s'.jobs && j in s'.jobs && HasResult(s'.jobs[i], q) && HasResult(s'.jobs[j], q) ensures i == j {
        assert i != id ==> HasResult(s.jobs[i], q);
        assert j != id ==> HasResult(s.jobs[j], q);
      }
    }
  }

  lemma {:induction false} ConsumeBounded(s: Sys, id: int, r: Result, now: int, incident: int, rules: int -> Incidents.Rule)
    requires JobsOk(s) && Bounded(s)
    ensures Bounded(Consume(s, id, r, now, incident, rules))
  {
    var s' := Consume(s, id, r, now, incident, rules);
    if VerdictOf(s, id, r, now) != Rejected {
      ConsumeFrame(s, id, r, now, incident, rules);
      MovedActive(s, s', Scheduled);
      MovedActive(s, s', Manual);
      forall i, j, m | i in s'.jobs && j in s'.jobs && IsActiveFor(s'.jobs[i], m) && IsActiveFor(s'.jobs[j], m) ensures i == j {
        assert IsActiveFor(s.jobs[i], m) && IsActiveFor(s.jobs[j], m);
      }
    }
  }

  /** Accepting a result adds exactly it to what is reported. */
  lemma {:induction false} ConsumeReported(s: Sys, id: int, r: Result, now: int, incident: int, rules: int -> Incidents.Rule, m: int, p: Pos, ok: bool)
    requires JobsOk(s) && VerdictOf(s, id, r, now) == Accepts
    ensures var c := s.jobs[id].job;
            Reported(Consume(s, id, r, now, incident, rules), m, p, ok) <==>
              Reported(s, m, p, ok) || (p == Pos(c.at, id) && ok == r.ok && c.kind == Scheduled && c.monitor == m)
  {
    assert JobOk(s, id);
  }

  /** The report's own step for an accepted scheduled result. */
  lemma {:induction false} ReportStep(report: Incidents.Monitor, e: Incidents.Event, rule: Incidents.Rule)
    requires Incidents.Good(report, rule) && e.Result? && e.p !in report.view.raw && e.id !in report.book.incidents
    ensures var after := Incidents.Step(report, e, rule);
            Incidents.Good(after, rule) && after.view.raw == report.view.raw[e.p := e.ok]
  {
    Incidents.StepGood(report, e, rule);
    Evaluation.StepKeeps(report.view, Evaluation.Accepted(e.p, e.ok, e.inWindow), Incidents.Thresholds(rule));
  }

  lemma {:induction false} ConsumeRaw(s: Sys, id: int, r: Result, now: int, incident: int, rules: int -> Incidents.Rule, m: int)
    requires JobsOk(s) && ReportsOk(s, rules) && VerdictOf(s, id, r, now) == Accepts && m in s.reports
    requires incident !in s.reports[m].book.incidents
    ensures var s' := Consume(s, id, r, now, incident, rules); m in s'.reports && RawAgrees(s', m)
    ensures Incidents.Good(Consume(s, id, r, now, incident, rules).reports[m], rules(m))
  {
    var s' := Consume(s, id, r, now, incident, rules);
    var c, before := s.jobs[id], s.reports[m];
    assert JobOk(s, id) && RawAgrees(s, m);
    var at := Pos(c.job.at, id);
    if c.job.kind == Scheduled && c.job.monitor == m {
      var e := Incidents.Result(at, r.ok, now <= c.job.expires + CORRECTION_WINDOW, incident, now);
      assert at !in before.view.raw by {
        if at in before.view.raw { assert Evaluation.Holds(before.view.raw, at, before.view.raw[at]); }
      }
      ReportStep(before, e, rules(m));
    }
    forall p, ok ensures Evaluation.Holds(s'.reports[m].view.raw, p, ok) <==> Reported(s', m, p, ok) {
      ConsumeReported(s, id, r, now, incident, rules, m, p, ok);
      assert Evaluation.Holds(before.view.raw, p, ok) <==> Reported(s, m, p, ok);
    }
  }

  lemma {:induction false} ConsumeReports(s: Sys, id: int, r: Result, now: int, incident: int, rules: int -> Incidents.Rule)
    requires JobsOk(s) && ReportsOk(s, rules) && Allowed(s, Consumes(id, r, now, incident))
    ensures ReportsOk(Consume(s, id, r, now, incident, rules), rules)
  {
    var s' := Consume(s, id, r, now, incident, rules);
    if VerdictOf(s, id, r, now) == Accepts {
      forall m | m in s'.reports ensures RawAgrees(s', m) && Incidents.Good(s'.reports[m], rules(m)) {
        ConsumeRaw(s, id, r, now, incident, rules, m);
      }
    } else if VerdictOf(s, id, r, now) != Rejected {
      forall m | m in s'.reports ensures RawAgrees(s', m) {
        assert RawAgrees(s, m);
        assert forall p, ok :: Reported(s', m, p, ok) <==> Reported(s, m, p, ok);
      }
    }
  }

  // -------------------------------------------------------------------- every run

  ghost predicate Inv(s: Sys, rules: int -> Incidents.Rule) {
    JobsOk(s) && SlotsUnique(s) && ResultsUnique(s) && Bounded(s) && ReportsOk(s, rules)
  }

  /** Times, gaps and the quarantine carry no part of the invariant. */
  lemma {:induction false} SameRows(s: Sys, s': Sys, rules: int -> Incidents.Rule)
    requires Inv(s, rules) && s'.jobs == s.jobs && s'.reports == s.reports && s'.schedule.Keys == s.schedule.Keys
    ensures Inv(s', rules)
  {
    forall j | j in s'.jobs ensures JobOk(s', j) { assert JobOk(s, j); }
    assert ActiveIds(s', Scheduled) == ActiveIds(s, Scheduled) && ActiveIds(s', Manual) == ActiveIds(s, Manual);
    forall m | m in s'.reports ensures RawAgrees(s', m) {
      assert RawAgrees(s, m);
      assert forall p, ok :: Reported(s', m, p, ok) <==> Reported(s, m, p, ok);
    }
  }

  lemma {:induction false} MovedInv(s: Sys, s': Sys, rules: int -> Incidents.Rule)
    requires Inv(s, rules) && Moved(s, s')
    ensures Inv(s', rules)
  {
    MovedJobs(s, s');
    MovedBounded(s, s');
    MovedReports(s, s', rules);
  }

  lemma {:induction false} InsertInv(s: Sys, kind: Kind, m: int, at: int, id: int, x: Sealed, now: int, rules: int -> Incidents.Rule)
    requires Inv(s, rules) && id !in s.jobs && m in s.schedule
    requires |ActiveIds(s, kind)| < (if kind == Scheduled then SCHEDULED_LIMIT else MANUAL_LIMIT)
    requires kind == Scheduled ==> !HasActive(s, m)
    ensures Inv(Insert(s, id, NewJob(kind, m, at, id, x, now)), rules)
  {
    var c := NewJob(kind, m, at, id, x, now);
    FreshJobOk(kind, m, at, id, x, now);
    InsertJobs(s, id, c);
    InsertBounded(s, id, c);
    InsertReports(s, id, c, rules);
  }

  lemma {:induction false} AdmitInv(s: Sys, m: int, id: int, x: Sealed, now: int, rules: int -> Incidents.Rule)
    requires Inv(s, rules) && id !in s.jobs
    ensures Inv(Admit(s, m, id, x, now), rules)
  {
    if Listed(s, m, now) {
      if |ActiveIds(s, Scheduled)| >= SCHEDULED_LIMIT {
        SameRows(s, Admit(s, m, id, x, now), rules);
      } else {
        var slot, at := s.schedule[m].next, Schedule.JobSlot(s.schedule[m], now);
        var s1 := if at != slot then s.(slotGaps := s.slotGaps + {SlotGap(m, slot, Missed)}) else s;
        SameRows(s, s1, rules);
        assert ActiveIds(s1, Scheduled) == ActiveIds(s, Scheduled);
        assert !HasActive(s1, m);
        InsertInv(s1, Scheduled, m, at, id, x, now, rules);
        SameRows(Insert(s1, id, NewJob(Scheduled, m, at, id, x, now)), Admit(s, m, id, x, now), rules);
      }
    }
  }

  lemma {:induction false} CreateInv(s: Sys, m: int, interval: int, offset: int, now: int, rules: int -> Incidents.Rule)
    requires Inv(s, rules) && m !in s.schedule
    ensures Inv(Step(s, Create(m, interval, offset, now), rules), rules)
  {
    var s' := Step(s, Create(m, interval, offset, now), rules);
    forall j | j in s'.jobs ensures JobOk(s', j) { assert JobOk(s, j); }
    assert ActiveIds(s', Scheduled) == ActiveIds(s, Scheduled) && ActiveIds(s', Manual) == ActiveIds(s, Manual);
    Incidents.EveryRunGood([], rules(m));
    forall n | n in s'.reports ensures RawAgrees(s', n) && Incidents.Good(s'.reports[n], rules(n)) {
      assert n != m ==> RawAgrees(s, n);
      forall p, ok ensures Reported(s', n, p, ok) <==> Reported(s, n, p, ok) {
        assert p.job in s.jobs ==> JobOk(s, p.job);
      }
      if n == m {
        forall p, ok ensures !Reported(s', n, p, ok) { assert p.job in s.jobs ==> JobOk(s, p.job); }
      }
    }
  }

  lemma {:induction false} OnReportInv(s: Sys, m: int, e: Incidents.Event, rules: int -> Incidents.Rule)
    requires Inv(s, rules) && !e.Result? && m in s.reports
    ensures Inv(Step(s, OnReport(m, e), rules), rules)
  {
    var s' := Step(s, OnReport(m, e), rules);
    forall j | j in s'.jobs ensures JobOk(s', j) { assert JobOk(s, j); }
    assert ActiveIds(s', Scheduled) == ActiveIds(s, Scheduled) && ActiveIds(s', Manual) == ActiveIds(s, Manual);
    Incidents.StepGood(s.reports[m], e, rules(m));
    Evaluation.StepKeeps(s.reports[m].view, Evaluation.Timer, Incidents.Thresholds(rules(m)));
    assert s'.reports[m].view.raw == s.reports[m].view.raw;
    forall n | n in s'.reports ensures RawAgrees(s', n) && Incidents.Good(s'.reports[n], rules(n)) {
      assert RawAgrees(s, n);
      assert forall p, ok :: Reported(s', n, p, ok) <==> Reported(s, n, p, ok);
    }
  }

  lemma {:induction false} StepInv(s: Sys, e: Event, rules: int -> Incidents.Rule)
    requires Inv(s, rules) && Allowed(s, e)
    ensures Inv(Step(s, e, rules), rules)
  {
    match e
    case Create(m, interval, offset, now) => if m !in s.schedule { CreateInv(s, m, interval, offset, now, rules); }
    case Change(m, change, now) => SameRows(s, Step(s, e, rules), rules);
    case Admits(m, id, x, now) => AdmitInv(s, m, id, x, now, rules);
    case Tests(m, id, x, now) =>
      if Step(s, e, rules) != s { InsertInv(s, Manual, m, now, id, x, now, rules); }
    case OnJob(id, je) =>
      if id in s.jobs {
        OnJobMoves(s, id, je);
        MovedInv(s, Step(s, e, rules), rules);
      }
    case ReclaimAll(now) => EachJobMoves(s, Reclaims(now)); MovedInv(s, Step(s, e, rules), rules);
    case SweepAll(now) => EachJobMoves(s, Sweep(now)); MovedInv(s, Step(s, e, rules), rules);
    case Consumes(id, r, now, incident) =>
      ConsumeJobs(s, id, r, now, incident, rules);
      ConsumeResults(s, id, r, now, incident, rules);
      ConsumeBounded(s, id, r, now, incident, rules);
      ConsumeReports(s, id, r, now, incident, rules);
    case ResultDLQ(result) => SameRows(s, Step(s, e, rules), rules);
    case OnReport(m, re) => if m in s.reports { OnReportInv(s, m, re, rules); }
  }

  ghost function Run(es: seq<Event>, rules: int -> Incidents.Rule): Sys {
    if es == [] then NONE else Step(Run(es[..|es| - 1], rules), es[|es| - 1], rules)
  }

  ghost predicate Legal(es: seq<Event>, rules: int -> Incidents.Rule) {
    es == [] || (Legal(es[..|es| - 1], rules) && Allowed(Run(es[..|es| - 1], rules), es[|es| - 1]))
  }

  lemma {:induction false} EveryRunInv(es: seq<Event>, rules: int -> Incidents.Rule)
    requires Legal(es, rules)
    ensures Inv(Run(es, rules), rules)
  {
    if es == [] {
      assert ActiveIds(NONE, Scheduled) == {} && ActiveIds(NONE, Manual) == {};
    } else {
      EveryRunInv(es[..|es| - 1], rules);
      StepInv(Run(es[..|es| - 1], rules), es[|es| - 1], rules);
    }
  }

  // ---------------------------------------------------------------- main theorems

  /** In every run: admission stays within its bounds, no slot has two jobs, every
      outbox row carries its job's hash and expiry, and every job's rows are safe. */
  lemma {:induction false} AdmissionBounds(es: seq<Event>, rules: int -> Incidents.Rule)
    requires Legal(es, rules)
    ensures var s := Run(es, rules);
            && |ActiveIds(s, Scheduled)| <= 1000 && |ActiveIds(s, Manual)| <= 10
            && (forall i, j, m :: i in s.jobs && j in s.jobs && IsActiveFor(s.jobs[i], m) && IsActiveFor(s.jobs[j], m) ==> i == j)
            && SlotsUnique(s)
    ensures var s := Run(es, rules);
            forall j :: j in s.jobs ==>
              && Safe(s.jobs[j]) && |s.jobs[j].sends| <= 3
              && s.jobs[j].outbox.message.hash == s.jobs[j].job.hash
              && s.jobs[j].outbox.message.expires == s.jobs[j].job.expires
  {
    EveryRunInv(es, rules);
    var s := Run(es, rules);
    forall j | j in s.jobs ensures JobOk(s, j) && |s.jobs[j].sends| <= 3 {
      assert JobOk(s, j);
      AnswersBound(s.jobs[j].claims);
    }
  }

  /** Results reach the consumer inside the correction window, ten minutes past the job's expiry. */
  ghost predicate AllInWindow(es: seq<Event>, rules: int -> Incidents.Rule) {
    es == [] || (AllInWindow(es[..|es| - 1], rules) && InWindow(Run(es[..|es| - 1], rules), es[|es| - 1]))
  }

  ghost predicate InWindow(s: Sys, e: Event) {
    e.Consumes? && VerdictOf(s, e.id, e.r, e.now) == Accepts ==> e.now <= s.jobs[e.id].job.expires + 600_000_000
  }

  ghost predicate AllEvaluated(s: Sys) {
    forall m :: m in s.reports ==> s.reports[m].view.evals.Keys == s.reports[m].view.raw.Keys
  }

  lemma {:induction false} ConsumeEvaluated(s: Sys, id: int, r: Result, now: int, incident: int, rules: int -> Incidents.Rule, m: int)
    requires ReportsOk(s, rules) && m in s.reports && s.reports[m].view.evals.Keys == s.reports[m].view.raw.Keys
    requires InWindow(s, Consumes(id, r, now, incident))
    ensures var s' := Consume(s, id, r, now, incident, rules);
            m in s'.reports && s'.reports[m].view.evals.Keys == s'.reports[m].view.raw.Keys
  {
    if VerdictOf(s, id, r, now) == Accepts && s.jobs[id].job.monitor == m {
      var e := Evaluation.Accepted(Pos(s.jobs[id].job.at, id), r.ok, true);
      Evaluation.InWindowStep(s.reports[m].view, e, Incidents.Thresholds(rules(m)));
    }
  }

  lemma {:induction false} OnReportEvaluated(s: Sys, m: int, re: Incidents.Event, rules: int -> Incidents.Rule)
    requires ReportsOk(s, rules) && m in s.reports && !re.Result? && s.reports[m].view.evals.Keys == s.reports[m].view.raw.Keys
    ensures var view := Incidents.Step(s.reports[m], re, rules(m)).view; view.evals.Keys == view.raw.Keys
  {
    Evaluation.InWindowStep(s.reports[m].view, Evaluation.Timer, Incidents.Thresholds(rules(m)));
  }

  lemma {:induction false} StepEvaluated(s: Sys, e: Event, rules: int -> Incidents.Rule)
    requires ReportsOk(s, rules) && Allowed(s, e) && InWindow(s, e) && AllEvaluated(s)
    ensures AllEvaluated(Step(s, e, rules))
  {
    match e
    case Consumes(id, r, now, incident) =>
      forall m | m in Step(s, e, rules).reports
        ensures m in s.reports && Step(s, e, rules).reports[m].view.evals.Keys == Step(s, e, rules).reports[m].view.raw.Keys
      {
        assert m in s.reports;
        ConsumeEvaluated(s, id, r, now, incident, rules, m);
      }
    case OnReport(m, re) => if m in s.reports { OnReportEvaluated(s, m, re, rules); }
    case Create(m, interval, offset, now) =>
    case _ => assert Step(s, e, rules).reports == s.reports;
  }

  lemma {:induction false} EveryRunEvaluated(es: seq<Event>, rules: int -> Incidents.Rule)
    requires Legal(es, rules) && AllInWindow(es, rules)
    ensures AllEvaluated(Run(es, rules))
  {
    if es != [] {
      var front := es[..|es| - 1];
      EveryRunEvaluated(front, rules);
      EveryRunInv(front, rules);
      StepEvaluated(Run(front, rules), es[|es| - 1], rules);
    }
  }

  /** End to end: whatever was scheduled, published, lost, redelivered, expired and
      consumed in whatever order, a monitor's table and state are a fold over exactly
      the accepted scheduled results of its jobs in (scheduled_at, job_id) order. */
  lemma {:induction false} StateIsFoldOfAccepted(es: seq<Event>, rules: int -> Incidents.Rule, m: int)
    requires Legal(es, rules) && AllInWindow(es, rules) && m in Run(es, rules).reports
    ensures var s := Run(es, rules);
            var view := s.reports[m].view;
            && view == Evaluation.Folded(view.raw, view.raw.Keys, Incidents.Thresholds(rules(m)))
            && forall p, ok :: Evaluation.Holds(view.raw, p, ok) <==> Reported(s, m, p, ok)
  {
    EveryRunInv(es, rules);
    EveryRunEvaluated(es, rules);
    assert RawAgrees(Run(es, rules), m);
  }

  /** So two runs that accepted the same results agree on the state. */
  lemma {:induction false} SameAcceptedSameState(es: seq<Event>, es': seq<Event>, rules: int -> Incidents.Rule, m: int)
    requires Legal(es, rules) && AllInWindow(es, rules) && Legal(es', rules) && AllInWindow(es', rules)
    requires m in Run(es, rules).reports && m in Run(es', rules).reports
    requires forall p, ok :: Reported(Run(es, rules), m, p, ok) <==> Reported(Run(es', rules), m, p, ok)
    ensures Run(es, rules).reports[m].view == Run(es', rules).reports[m].view
  {
    StateIsFoldOfAccepted(es, rules, m);
    StateIsFoldOfAccepted(es', rules, m);
    var raw, raw' := Run(es, rules).reports[m].view.raw, Run(es', rules).reports[m].view.raw;
    forall p, ok ensures Evaluation.Holds(raw, p, ok) <==> Evaluation.Holds(raw', p, ok) {
      assert Evaluation.Holds(raw, p, ok) <==> Reported(Run(es, rules), m, p, ok);
    }
    Evaluation.SameHolds(raw, raw');
  }

  // -------------------------------------------------- results beyond their window

  /** The event rewrites monitor m's evaluation table. */
  ghost predicate EvaluatesReport(s: Sys, e: Event, m: int) {
    || (e.OnReport? && e.m == m && e.re.Tick?)
    || (e.Consumes? && VerdictOf(s, e.id, e.r, e.now) == Accepts && s.jobs[e.id].job.monitor == m &&
        s.jobs[e.id].job.kind == Scheduled && e.now <= s.jobs[e.id].job.expires + 600_000_000)
  }

  /** p is a raw result of monitor m that is beyond its window at t, twelve minutes past its slot. */
  ghost predicate LateAt(s: Sys, m: int, p: Pos, t: int) {
    m in s.reports && p in s.reports[m].view.raw && t > p.at + 720_000_000
  }

  /** Skipped and Awaited of the report, and what one event does to them. */
  ghost predicate FateKept(v: Evaluation.View, v': Evaluation.View, p: Pos, evaluates: bool) {
    && (p in v.raw ==> p in v'.raw)
    && (p in v.evals ==> p in v'.evals)
    && (Evaluation.Skipped(v, p) ==> Evaluation.Skipped(v', p))
    && (Evaluation.Awaited(v, p) ==> if evaluates then p in v'.evals else Evaluation.Awaited(v', p))
  }

  lemma {:induction false} ReportFate(report: Incidents.Monitor, re: Incidents.Event, rule: Incidents.Rule, p: Pos)
    requires Incidents.Good(report, rule) && p in report.view.raw
    requires re.Result? ==> re.p !in report.view.raw && re.id !in report.book.incidents && (re.inWindow ==> After(re.p, p))
    ensures FateKept(report.view, Incidents.Step(report, re, rule).view, p, re.Tick? || (re.Result? && re.inWindow))
  {
    var lim := Incidents.Thresholds(rule);
    match re
    case Result(q, ok, inWindow, id, now) =>
      Evaluation.FateStep(report.view, Evaluation.Accepted(q, ok, inWindow), p, lim);
      Evaluation.StepKeeps(report.view, Evaluation.Accepted(q, ok, inWindow), lim);
    case Tick =>
      Evaluation.FateStep(report.view, Evaluation.Timer, p, lim);
      Evaluation.StepKeeps(report.view, Evaluation.Timer, lim);
    case Ack(_) =>
    case Resolve(_) =>
  }

  lemma {:induction false} ConsumeFate(s: Sys, id: int, r: Result, now: int, incident: int, rules: int -> Incidents.Rule, m: int, p: Pos, t: int)
    requires JobsOk(s) && ReportsOk(s, rules) && Allowed(s, Consumes(id, r, now, incident)) && LateAt(s, m, p, t) && t <= now
    ensures var s' := Consume(s, id, r, now, incident, rules);
            m in s'.reports && FateKept(s.reports[m].view, s'.reports[m].view, p, EvaluatesReport(s, Consumes(id, r, now, incident), m))
  {
    if VerdictOf(s, id, r, now) == Accepts && s.jobs[id].job.monitor == m && s.jobs[id].job.kind == Scheduled {
      var c := s.jobs[id].job;
      assert JobOk(s, id);
      NotYetRaw(s, id, rules);
      var at := Pos(c.at, id);
      ReportFate(s.reports[m], Incidents.Result(at, r.ok, now <= c.expires + CORRECTION_WINDOW, incident, now), rules(m), p);
    }
  }

  lemma {:induction false} StepFate(s: Sys, e: Event, rules: int -> Incidents.Rule, m: int, p: Pos, t: int)
    requires Inv(s, rules) && Allowed(s, e) && LateAt(s, m, p, t) && (e.Consumes? ==> t <= e.now)
    ensures var s' := Step(s, e, rules);
            LateAt(s', m, p, t) && FateKept(s.reports[m].view, s'.reports[m].view, p, EvaluatesReport(s, e, m))
  {
    match e
    case Consumes(id, r, now, incident) => ConsumeFate(s, id, r, now, incident, rules, m, p, t);
    case OnReport(n, re) => if n == m { ReportFate(s.reports[m], re, rules(m), p); }
    case Create(_, _, _, _) =>
    case _ => assert Step(s, e, rules).reports == s.reports;
  }

  /** An evaluation of monitor m after the first n events of the run. */
  ghost predicate EvaluatedAfter(es: seq<Event>, n: nat, rules: int -> Incidents.Rule, m: int) {
    exists i :: n <= i < |es| && EvaluatesAt(es, i, rules, m)
  }

  ghost predicate EvaluatesAt(es: seq<Event>, i: nat, rules: int -> Incidents.Rule, m: int)
    requires i < |es|
  {
    EvaluatesReport(Run(es[..i], rules), es[i], m)
  }

  /** Nothing is consumed at an earlier time than t from the n-th event on. */
  predicate NotBefore(es: seq<Event>, n: nat, t: int) {
    forall i :: n <= i < |es| && es[i].Consumes? ==> t <= es[i].now
  }

  lemma {:induction false} EvaluatedSnoc(es: seq<Event>, n: nat, rules: int -> Incidents.Rule, m: int)
    requires n < |es|
    ensures var last := |es| - 1;
            EvaluatedAfter(es, n, rules, m) <==> EvaluatedAfter(es[..last], n, rules, m) || EvaluatesReport(Run(es[..last], rules), es[last], m)
  {
    var last := |es| - 1;
    forall i | n <= i < last ensures EvaluatesAt(es[..last], i, rules, m) <==> EvaluatesAt(es, i, rules, m) {
      assert es[..last][..i] == es[..i];
    }
    assert EvaluatesAt(es, last, rules, m) <==> EvaluatesReport(Run(es[..last], rules), es[last], m);
  }

  /** From the n-th event on, the fate of a late result. */
  lemma {:induction false} RunFate(es: seq<Event>, n: nat, rules: int -> Incidents.Rule, m: int, p: Pos, t: int)
    requires Legal(es, rules) && n <= |es| && NotBefore(es, n, t) && LateAt(Run(es[..n], rules), m, p, t)
    ensures LateAt(Run(es, rules), m, p, t)
    ensures var v, w := Run(es[..n], rules).reports[m].view, Run(es, rules).reports[m].view;
            && (Evaluation.Skipped(v, p) ==> Evaluation.Skipped(w, p))
            && (Evaluation.Awaited(v, p) ==>
                  if EvaluatedAfter(es, n, rules, m) then p in w.evals else Evaluation.Awaited(w, p))
  {
    if n == |es| {
      assert es[..n] == es;
      assert !EvaluatedAfter(es, n, rules, m);
    } else {
      var front := es[..|es| - 1];
      assert front[..n] == es[..n];
      RunFate(front, n, rules, m, p, t);
      EveryRunInv(front, rules);
      StepFate(Run(front, rules), es[|es| - 1], rules, m, p, t);
      EvaluatedSnoc(es, n, rules, m);
    }
  }

  /** The k-th event accepts a scheduled result beyond its correction window. */
  ghost predicate AcceptsLate(es: seq<Event>, k: nat, rules: int -> Incidents.Rule)
    requires k < |es|
  {
    var s := Run(es[..k], rules);
    && es[k].Consumes? && VerdictOf(s, es[k].id, es[k].r, es[k].now) == Accepts
    && s.jobs[es[k].id].job.kind == Scheduled
    && es[k].now > s.jobs[es[k].id].job.expires + 600_000_000
  }

  /** The design keeps a result beyond its window out of the state. In every run in which
      nothing is consumed at an earlier time afterwards, it is folded in if and only if on
      arrival it was newer than every evaluated result and an evaluation has followed. */
  lemma {:induction false} LateResultFoldedIff(es: seq<Event>, k: nat, rules: int -> Incidents.Rule)
    requires Legal(es, rules) && k < |es| && AcceptsLate(es, k, rules) && NotBefore(es, k, es[k].now)
    ensures var s := Run(es[..k], rules);
            var job := s.jobs[es[k].id].job;
            var m, p := job.monitor, Pos(job.at, es[k].id);
            && m in s.reports && m in Run(es, rules).reports
            && var last := s.reports[m].view.last;
               p in Run(es, rules).reports[m].view.evals <==>
                 (last.None? || After(p, last.value)) && EvaluatedAfter(es, k + 1, rules, m)
  {
    RunKeepsAccepted(es, k, rules);
    RunKeepsAccepted(es, k + 1, rules);
    LateArrival(es, k, rules);
    var job := Run(es[..k], rules).jobs[es[k].id].job;
    RunFate(es, k + 1, rules, job.monitor, Pos(job.at, es[k].id), es[k].now);
  }

  /** On arrival a late result changes only the raw rows. */
  lemma {:induction false} LateArrival(es: seq<Event>, k: nat, rules: int -> Incidents.Rule)
    requires k < |es| && Legal(es[..k + 1], rules) && AcceptsLate(es, k, rules)
    ensures var s, s' := Run(es[..k], rules), Run(es[..k + 1], rules);
            var job := s.jobs[es[k].id].job;
            var m, p := job.monitor, Pos(job.at, es[k].id);
            && m in s.reports && LateAt(s', m, p, es[k].now)
            && s'.reports[m] == s.reports[m].(view := s.reports[m].view.(raw := s.reports[m].view.raw[p := es[k].r.ok]))
            && (if s.reports[m].view.last.None? || After(p, s.reports[m].view.last.value)
                then Evaluation.Awaited(s'.reports[m].view, p) else Evaluation.Skipped(s'.reports[m].view, p))
  {
    var s := Run(es[..k], rules);
    assert es[..k + 1][..k] == es[..k];
    EveryRunInv(es[..k], rules);
    var id := es[k].id;
    var job := s.jobs[id].job;
    var m, p := job.monitor, Pos(job.at, id);
    assert JobOk(s, id) && RawAgrees(s, m);
    var view := s.reports[m].view;
    assert p !in view.raw by {
      if p in view.raw { assert Evaluation.Holds(view.raw, p, view.raw[p]); }
    }
    Evaluation.LastIsGreatest(view, Incidents.Thresholds(rules(m)));
  }

  /** A clock that goes back breaks this: a skipped late result is folded in by an in-window
      result of an earlier slot, which only an earlier consumption time allows. */
  lemma {:induction false} ClockBackFoldsSkipped(s: Sys, m: int, p: Pos, id: int, r: Result, t: int, now: int, incident: int, rules: int -> Incidents.Rule)
    requires Inv(s, rules) && Allowed(s, Consumes(id, r, now, incident)) && LateAt(s, m, p, t)
    requires Evaluation.Skipped(s.reports[m].view, p) && EvaluatesReport(s, Consumes(id, r, now, incident), m)
    requires id in s.jobs && After(p, Pos(s.jobs[id].job.at, id))
    ensures now < t && p in Step(s, Consumes(id, r, now, incident), rules).reports[m].view.evals
  {
    var c := s.jobs[id].job;
    assert JobOk(s, id);
    var q, lim := Pos(c.at, id), Incidents.Thresholds(rules(m));
    NotYetRaw(s, id, rules);
    Evaluation.CorrectionReplays(s.reports[m].view, q, r.ok, p, lim);
    var e := Incidents.Result(q, r.ok, true, incident, now);
    assert Consume(s, id, r, now, incident, rules).reports[m] == Incidents.Step(s.reports[m], e, rules(m));
    assert Incidents.Step(s.reports[m], e, rules(m)).view == Evaluation.Step(s.reports[m].view, Evaluation.Accepted(q, r.ok, true), lim);
  }

  /** A job without an accepted result has no raw result. */
  lemma {:induction false} NotYetRaw(s: Sys, id: int, rules: int -> Incidents.Rule)
    requires JobsOk(s) && ReportsOk(s, rules) && id in s.jobs && s.jobs[id].accepted.None?
    ensures s.jobs[id].job.monitor in s.reports
    ensures Pos(s.jobs[id].job.at, id) !in s.reports[s.jobs[id].job.monitor].view.raw
  {
    assert JobOk(s, id);
    var m, p := s.jobs[id].job.monitor, Pos(s.jobs[id].job.at, id);
    assert RawAgrees(s, m);
    var raw := s.reports[m].view.raw;
    if p in raw { assert Evaluation.Holds(raw, p, raw[p]); }
  }

  /** Accepted results and the quarantine only grow. */
  ghost predicate Keeps(s: Sys, s': Sys) {
    && s.quarantine <= s'.quarantine
    && forall j :: j in s.jobs ==> KeepsJob(s, s', j)
  }

  ghost predicate KeepsJob(s: Sys, s': Sys, j: int)
    requires j in s.jobs
  {
    j in s'.jobs && s'.jobs[j].job == s.jobs[j].job && (s.jobs[j].accepted.Some? ==> s'.jobs[j].accepted == s.jobs[j].accepted)
  }

  lemma {:induction false} OnJobKeepsAccepted(s: Sys, id: int, je: Jobs.Event)
    requires JobsOk(s) && id in s.jobs
    ensures Keeps(s, s.(jobs := s.jobs[id := Jobs.Step(s.jobs[id], je)]))
  {
    assert JobOk(s, id);
    StepLedger(s.jobs[id], je);
  }

  lemma {:induction false} EachJobKeepsAccepted(s: Sys, je: Jobs.Event)
    requires JobsOk(s)
    ensures Keeps(s, EachJob(s, je))
  {
    forall j | j in s.jobs ensures KeepsJob(s, EachJob(s, je), j) {
      assert JobOk(s, j);
      StepLedger(s.jobs[j], je);
    }
  }

  lemma {:induction false} ConsumeKeepsAccepted(s: Sys, id: int, r: Result, now: int, incident: int, rules: int -> Incidents.Rule)
    requires JobsOk(s)
    ensures Keeps(s, Consume(s, id, r, now, incident, rules))
  {
    if VerdictOf(s, id, r, now) != Rejected {
      OnJobKeepsAccepted(s, id, Deliver(r, now, Reused(s, id, r.id), r.id in s.quarantine));
      var s' := Consume(s, id, r, now, incident, rules);
      forall j | j in s.jobs ensures KeepsJob(s, s', j) {
        assert KeepsJob(s, s.(jobs := s'.jobs), j);
      }
    }
  }

  lemma {:induction false} AdmitKeepsAccepted(s: Sys, m: int, id: int, x: Sealed, now: int)
    requires id !in s.jobs
    ensures Keeps(s, Admit(s, m, id, x, now)) && Keeps(s, TestNow(s, m, id, x, now))
  {
    forall j | j in s.jobs ensures KeepsJob(s, Admit(s, m, id, x, now), j) && KeepsJob(s, TestNow(s, m, id, x, now), j) { }
  }

  lemma {:induction false} SameJobsKeep(s: Sys, s': Sys)
    requires s'.jobs == s.jobs && s.quarantine <= s'.quarantine
    ensures Keeps(s, s')
  {
    forall j | j in s.jobs ensures KeepsJob(s, s', j) { }
  }

  lemma {:induction false} StepKeepsAccepted(s: Sys, e: Event, rules: int -> Incidents.Rule)
    requires Inv(s, rules) && Allowed(s, e)
    ensures Keeps(s, Step(s, e, rules))
  {
    match e
    case OnJob(id, je) => if id in s.jobs { OnJobKeepsAccepted(s, id, je); }
    case ReclaimAll(now) => EachJobKeepsAccepted(s, Reclaims(now));
    case SweepAll(now) => EachJobKeepsAccepted(s, Sweep(now));
    case Consumes(id, r, now, incident) => ConsumeKeepsAccepted(s, id, r, now, incident, rules);
    case Admits(m, id, x, now) => AdmitKeepsAccepted(s, m, id, x, now);
    case Tests(m, id, x, now) => AdmitKeepsAccepted(s, m, id, x, now);
    case _ => SameJobsKeep(s, Step(s, e, rules));
  }

  lemma {:induction false} RunKeepsAccepted(es: seq<Event>, n: nat, rules: int -> Incidents.Rule)
    requires Legal(es, rules) && n <= |es|
    ensures Legal(es[..n], rules) && Keeps(Run(es[..n], rules), Run(es, rules))
    decreases |es|
  {
    if n == |es| {
      assert es[..n] == es;
    } else {
      var front := es[..|es| - 1];
      RunKeepsAccepted(front, n, rules);
      assert front[..n] == es[..n];
      EveryRunInv(front, rules);
      StepKeepsAccepted(Run(front, rules), es[|es| - 1], rules);
      KeepsTransitive(Run(es[..n], rules), Run(front, rules), Run(es, rules));
    }
  }

  lemma KeepsTransitive(a: Sys, b: Sys, c: Sys)
    requires Keeps(a, b) && Keeps(b, c)
    ensures Keeps(a, c)
  {
    forall j | j in a.jobs ensures KeepsJob(a, c, j) { assert KeepsJob(a, b, j) && KeepsJob(b, c, j); }
  }

  /** Consuming again a delivery that committed earlier in the run changes no accepted
      result, no job state, no gap, no ordered state and no incident. */
  lemma {:induction false} RedeliveryChangesNothing(es: seq<Event>, k: nat, now: int, incident: int, rules: int -> Incidents.Rule)
    requires Legal(es, rules) && k < |es| && es[k].Consumes?
    requires VerdictOf(Run(es[..k], rules), es[k].id, es[k].r, es[k].now) != Rejected
    ensures var s, s' := Run(es, rules), Step(Run(es, rules), Consumes(es[k].id, es[k].r, now, incident), rules);
            && s'.reports == s.reports && s'.slotGaps == s.slotGaps && s'.jobs.Keys == s.jobs.Keys
            && forall j :: j in s.jobs ==>
                 s'.jobs[j].accepted == s.jobs[j].accepted && s'.jobs[j].state == s.jobs[j].state && s'.jobs[j].gaps == s.jobs[j].gaps
  {
    CommittedStays(es, k, rules);
    SettledConsume(Run(es, rules), es[k].id, es[k].r, now, incident, rules);
  }

  /** After a committed delivery the job has an accepted result, in every later state. */
  lemma {:induction false} CommittedStays(es: seq<Event>, k: nat, rules: int -> Incidents.Rule)
    requires Legal(es, rules) && k < |es| && es[k].Consumes?
    requires VerdictOf(Run(es[..k], rules), es[k].id, es[k].r, es[k].now) != Rejected
    ensures es[k].id in Run(es, rules).jobs && Run(es, rules).jobs[es[k].id].accepted.Some?
  {
    var before, mid, id := Run(es[..k], rules), Run(es[..k + 1], rules), es[k].id;
    RunKeepsAccepted(es, k + 1, rules);
    assert es[..k + 1][..k] == es[..k];
    assert mid == Step(before, es[k], rules);
    assert id in mid.jobs && mid.jobs[id].accepted.Some?;
    assert KeepsJob(mid, Run(es, rules), id);
  }

  /** A delivery for a job with an accepted result. */
  lemma {:induction false} SettledConsume(s: Sys, id: int, r: Result, now: int, incident: int, rules: int -> Incidents.Rule)
    requires id in s.jobs && s.jobs[id].accepted.Some?
    ensures var s' := Consume(s, id, r, now, incident, rules);
            && s'.reports == s.reports && s'.slotGaps == s.slotGaps && s'.jobs.Keys == s.jobs.Keys
            && forall j :: j in s.jobs ==>
                 s'.jobs[j].accepted == s.jobs[j].accepted && s'.jobs[j].state == s.jobs[j].state && s'.jobs[j].gaps == s.jobs[j].gaps
  {
  }

  /** The event puts the result id into quarantine. */
  ghost predicate Quarantines(es: seq<Event>, k: nat, rules: int -> Incidents.Rule, result: int)
    requires k < |es|
  {
    || es[k] == ResultDLQ(result)
    || (es[k].Consumes? && es[k].r.id == result && VerdictOf(Run(es[..k], rules), es[k].id, es[k].r, es[k].now) == Conflict)
  }

  lemma {:induction false} QuarantinedIff(es: seq<Event>, rules: int -> Incidents.Rule, result: int)
    ensures result in Run(es, rules).quarantine <==> exists k :: 0 <= k < |es| && Quarantines(es, k, rules, result)
  {
    if es != [] {
      var n := |es| - 1;
      QuarantinedIff(es[..n], rules, result);
      StepQuarantine(Run(es[..n], rules), es[n], rules, result);
      assert Quarantines(es, n, rules, result) <==>
               es[n] == ResultDLQ(result) ||
               (es[n].Consumes? && es[n].r.id == result && VerdictOf(Run(es[..n], rules), es[n].id, es[n].r, es[n].now) == Conflict);
      forall k | 0 <= k < n ensures Quarantines(es, k, rules, result) <==> Quarantines(es[..n], k, rules, result) {
        assert es[..n][..k] == es[..k];
      }
    }
  }

  lemma {:induction false} StepQuarantine(s: Sys, e: Event, rules: int -> Incidents.Rule, result: int)
    ensures result in Step(s, e, rules).quarantine <==>
            || result in s.quarantine || e == ResultDLQ(result)
            || (e.Consumes? && e.r.id == result && VerdictOf(s, e.id, e.r, e.now) == Conflict)
  {
    match e
    case Admits(m, id, x, now) => assert Admit(s, m, id, x, now).quarantine == s.quarantine;
    case Consumes(id, r, now, incident) =>
      assert Consume(s, id, r, now, incident, rules).quarantine ==
             if VerdictOf(s, id, r, now) == Conflict then s.quarantine + {r.id} else s.quarantine;
    case _ =>
  }

  /** A valid result that differs from the accepted one is acknowledged if and only if no
      earlier event of the run put its id into quarantine. */
  lemma {:induction false} ConflictAcknowledgedIff(es: seq<Event>, id: int, r: Result, now: int, rules: int -> Incidents.Rule)
    requires id in Run(es, rules).jobs && Valid(Run(es, rules).jobs[id].job, r, now)
    requires Run(es, rules).jobs[id].accepted.Some? && !SameResult(Run(es, rules).jobs[id].accepted.value, r)
    ensures Acknowledged(Run(es, rules), id, r, now) <==> !exists k :: 0 <= k < |es| && Quarantines(es, k, rules, r.id)
  {
    QuarantinedIff(es, rules, r.id);
  }

  /** A conflicting delivery is acknowledged once at most: its id is then in quarantine,
      and every redelivery fails at commit and goes back to the queue. */
  lemma {:induction false} ConflictNeverAcknowledgedAgain(es: seq<Event>, k: nat, now: int, rules: int -> Incidents.Rule)
    requires Legal(es, rules) && k < |es| && es[k].Consumes?
    requires VerdictOf(Run(es[..k], rules), es[k].id, es[k].r, es[k].now) == Conflict
    ensures !Acknowledged(Run(es, rules), es[k].id, es[k].r, now)
  {
    var before, mid := Run(es[..k], rules), Run(es[..k + 1], rules);
    RunKeepsAccepted(es, k, rules);
    RunKeepsAccepted(es, k + 1, rules);
    assert es[..k + 1][..k] == es[..k];
    assert mid == Step(before, es[k], rules);
    assert KeepsJob(before, Run(es, rules), es[k].id);
  }

  /** Every delivery for job j that commits carries this attempt and result id. */
  ghost predicate AllFrom(es: seq<Event>, rules: int -> Incidents.Rule, j: int, attempt: int, result: int) {
    forall k :: 0 <= k < |es| && es[k].Consumes? && es[k].id == j && CommitsAt(es, k, rules) ==>
      es[k].r.attempt == attempt && es[k].r.id == result
  }

  ghost predicate CommitsAt(es: seq<Event>, k: nat, rules: int -> Incidents.Rule)
    requires k < |es| && es[k].Consumes?
  {
    VerdictOf(Run(es[..k], rules), es[k].id, es[k].r, es[k].now) != Rejected
  }

  ghost predicate Peaceful(s: Sys, j: int, attempt: int, result: int) {
    j in s.jobs ==>
      && s.jobs[j].conflicts == {}
      && (s.jobs[j].accepted.Some? ==> s.jobs[j].accepted.value.attempt == attempt && s.jobs[j].accepted.value.id == result)
  }

  lemma QuietStep(c: Cell, e: Jobs.Event)
    requires !e.Deliver?
    ensures Jobs.Step(c, e).conflicts == c.conflicts && Jobs.Step(c, e).accepted == c.accepted
  {
  }

  lemma {:induction false} StepPeaceful(s: Sys, e: Event, rules: int -> Incidents.Rule, j: int, attempt: int, result: int)
    requires JobsOk(s) && Allowed(s, e) && Peaceful(s, j, attempt, result)
    requires e.Consumes? && e.id == j && VerdictOf(s, j, e.r, e.now) != Rejected ==> e.r.attempt == attempt && e.r.id == result
    ensures Peaceful(Step(s, e, rules), j, attempt, result)
  {
    if j in s.jobs {
      assert JobOk(s, j);
      match e
      case Consumes(id, r, now, incident) => if id == j { ConsumePeaceful(s, j, r, now, incident, rules); }
      case OnJob(id, je) => if id == j { QuietStep(s.jobs[j], je); }
      case ReclaimAll(now) => QuietStep(s.jobs[j], Reclaims(now));
      case SweepAll(now) => QuietStep(s.jobs[j], Sweep(now));
      case Admits(m, id, x, now) => AdmitKeepsOthers(s, m, id, x, now, j);
      case Tests(m, id, x, now) => AdmitKeepsOthers(s, m, id, x, now, j);
      case _ => assert Step(s, e, rules).jobs == s.jobs;
    }
  }

  lemma {:induction false} AdmitKeepsOthers(s: Sys, m: int, id: int, x: Sealed, now: int, j: int)
    requires j in s.jobs && id !in s.jobs
    ensures j in Admit(s, m, id, x, now).jobs && Admit(s, m, id, x, now).jobs[j] == s.jobs[j]
    ensures j in TestNow(s, m, id, x, now).jobs && TestNow(s, m, id, x, now).jobs[j] == s.jobs[j]
  {
  }

  lemma {:induction false} ConsumePeaceful(s: Sys, j: int, r: Result, now: int, incident: int, rules: int -> Incidents.Rule)
    requires j in s.jobs && LedgerOk(s.jobs[j]) && s.jobs[j].conflicts == {}
    requires s.jobs[j].accepted.Some? && VerdictOf(s, j, r, now) != Rejected ==>
               s.jobs[j].accepted.value.attempt == r.attempt && s.jobs[j].accepted.value.id == r.id
    ensures var s' := Consume(s, j, r, now, incident, rules);
            && j in s'.jobs && s'.jobs[j].conflicts == {}
            && (s'.jobs[j].accepted == s.jobs[j].accepted || (s'.jobs[j].accepted == Some(r) && VerdictOf(s, j, r, now) != Rejected))
  {
  }

  lemma {:induction false} AgreeingRunsArePeaceful(es: seq<Event>, rules: int -> Incidents.Rule, j: int, attempt: int, result: int)
    requires Legal(es, rules) && AllFrom(es, rules, j, attempt, result)
    ensures Peaceful(Run(es, rules), j, attempt, result)
  {
    if es != [] {
      var n := |es| - 1;
      var front := es[..n];
      forall k | 0 <= k < |front| && front[k].Consumes? && front[k].id == j && CommitsAt(front, k, rules)
        ensures front[k].r.attempt == attempt && front[k].r.id == result
      {
        assert front[..k] == es[..k];
        assert CommitsAt(es, k, rules);
      }
      AgreeingRunsArePeaceful(front, rules, j, attempt, result);
      EveryRunInv(front, rules);
      if es[n].Consumes? && es[n].id == j { assert CommitsAt(es, n, rules) <==> VerdictOf(Run(front, rules), j, es[n].r, es[n].now) != Rejected; }
      StepPeaceful(Run(front, rules), es[n], rules, j, attempt, result);
    }
  }

  // ------------------------------------------------------------- jobs on the grid

  /** The job's slot is a grid point of one of its monitor's periods, or the job caught up
      for a slot missed by more than the start window. */
  ghost predicate Placed(s: Sys, c: Cell) {
    c.job.kind == Scheduled ==>
      && c.job.monitor in s.schedule
      && (Schedule.OnSomeGrid(s.schedule[c.job.monitor].periods, c.job.at) || CaughtUp(s, c.job.monitor, c.job.at))
  }

  ghost predicate CaughtUp(s: Sys, m: int, at: int) {
    exists g :: g in s.slotGaps && g.monitor == m && g.reason == Missed && g.at + Schedule.START_WINDOW < at
  }

  ghost predicate Gridded(s: Sys) {
    && (forall m :: m in s.schedule ==> Schedule.OpenOnGrid(s.schedule[m]))
    && (forall j :: j in s.jobs ==> Placed(s, s.jobs[j]))
  }

  /** One monitor's schedule makes a step; gaps may be added; jobs keep what they were created with. */
  lemma {:induction false} ScheduleStepPlaced(s: Sys, s': Sys, c: Cell, c': Cell, m: int, e: Schedule.Event, now: int)
    requires Placed(s, c) && c'.job == c.job && s.slotGaps <= s'.slotGaps && m in s.schedule
    requires s'.schedule == s.schedule[m := Schedule.Step(s.schedule[m], e, now)]
    ensures Placed(s', c')
  {
    if c.job.kind == Scheduled {
      var n := c.job.monitor;
      if CaughtUp(s, n, c.job.at) {
        var g :| g in s.slotGaps && g.monitor == n && g.reason == Missed && g.at + Schedule.START_WINDOW < c.job.at;
        assert g in s'.slotGaps;
      } else if n == m {
        Schedule.StepKeepsGrids(s.schedule[m], e, now, c.job.at);
      }
    }
  }

  lemma {:induction false} AdmitPlacesJob(s: Sys, m: int, id: int, x: Sealed, now: int)
    requires Gridded(s) && Listed(s, m, now) && id !in s.jobs && id in Admit(s, m, id, x, now).jobs
    ensures Placed(Admit(s, m, id, x, now), Admit(s, m, id, x, now).jobs[id])
  {
    var s', row := Admit(s, m, id, x, now), s.schedule[m];
    var at := Schedule.JobSlot(row, now);
    assert s'.jobs[id] == NewJob(Scheduled, m, at, id, x, now);
    if at != row.next {
      assert SlotGap(m, row.next, Missed) in s'.slotGaps;
      assert CaughtUp(s', m, at);
    } else {
      assert Schedule.OnGrid(row.periods[|row.periods| - 1], at);
      Schedule.StepKeepsGrids(row, Schedule.Advance, now, at);
    }
  }

  lemma {:induction false} AdmitGridded(s: Sys, m: int, id: int, x: Sealed, now: int)
    requires Gridded(s) && id !in s.jobs
    ensures Gridded(Admit(s, m, id, x, now))
  {
    if Listed(s, m, now) {
      var s' := Admit(s, m, id, x, now);
      Schedule.StepOpenOnGrid(s.schedule[m], Schedule.Advance, now);
      forall j | j in s'.jobs ensures Placed(s', s'.jobs[j]) {
        if j == id {
          AdmitPlacesJob(s, m, id, x, now);
        } else {
          ScheduleStepPlaced(s, s', s.jobs[j], s'.jobs[j], m, Schedule.Advance, now);
        }
      }
    }
  }

  lemma {:induction false} ChangeGridded(s: Sys, m: int, change: Schedule.Event, now: int, rules: int -> Incidents.Rule)
    requires Gridded(s) && m in s.schedule && Schedule.Allowed(s.schedule[m], change)
    ensures Gridded(Step(s, Change(m, change, now), rules))
  {
    var s' := Step(s, Change(m, change, now), rules);
    Schedule.StepOpenOnGrid(s.schedule[m], change, now);
    forall j | j in s'.jobs ensures Placed(s', s'.jobs[j]) {
      ScheduleStepPlaced(s, s', s.jobs[j], s.jobs[j], m, change, now);
    }
  }

  /** Steps that leave schedules and gaps alone, add no scheduled job and change none's creation columns. */
  lemma {:induction false} OtherGridded(s: Sys, s': Sys)
    requires Gridded(s) && s'.schedule == s.schedule && s'.slotGaps == s.slotGaps
    requires forall j :: j in s'.jobs ==> s'.jobs[j].job.kind == Manual || (j in s.jobs && s'.jobs[j].job == s.jobs[j].job)
    ensures Gridded(s')
  {
    forall j | j in s'.jobs ensures Placed(s', s'.jobs[j]) {
      if s'.jobs[j].job.kind == Scheduled {
        assert Placed(s, s.jobs[j]);
        assert CaughtUp(s', s.jobs[j].job.monitor, s.jobs[j].job.at) <==> CaughtUp(s, s.jobs[j].job.monitor, s.jobs[j].job.at);
      }
    }
  }

  lemma {:induction false} CreateGridded(s: Sys, m: int, interval: int, offset: int, now: int, rules: int -> Incidents.Rule)
    requires Gridded(s) && 0 <= offset < interval
    ensures Gridded(Step(s, Create(m, interval, offset, now), rules))
  {
    if m !in s.schedule {
      var s' := Step(s, Create(m, interval, offset, now), rules);
      Schedule.CreatedSound(interval, offset, now);
      forall j | j in s'.jobs ensures Placed(s', s'.jobs[j]) {
        assert Placed(s, s.jobs[j]);
        assert CaughtUp(s', s.jobs[j].job.monitor, s.jobs[j].job.at) <==> CaughtUp(s, s.jobs[j].job.monitor, s.jobs[j].job.at);
      }
    }
  }

  lemma {:induction false} StepGridded(s: Sys, e: Event, rules: int -> Incidents.Rule)
    requires Inv(s, rules) && Gridded(s) && Allowed(s, e)
    ensures Gridded(Step(s, e, rules))
  {
    match e
    case Create(m, interval, offset, now) => CreateGridded(s, m, interval, offset, now, rules);
    case Change(m, change, now) => if m in s.schedule { ChangeGridded(s, m, change, now, rules); }
    case Admits(m, id, x, now) => AdmitGridded(s, m, id, x, now);
    case Tests(m, id, x, now) => OtherGridded(s, Step(s, e, rules));
    case _ => StepKeepsAccepted(s, e, rules); KeptJobsGridded(s, e, rules);
  }

  lemma {:induction false} KeptJobsGridded(s: Sys, e: Event, rules: int -> Incidents.Rule)
    requires Gridded(s) && Keeps(s, Step(s, e, rules)) && !e.Create? && !e.Change? && !e.Admits? && !e.Tests?
    ensures Gridded(Step(s, e, rules))
  {
    var s' := Step(s, e, rules);
    assert s'.jobs.Keys == s.jobs.Keys;
    forall j | j in s'.jobs ensures s'.jobs[j].job == s.jobs[j].job { assert KeepsJob(s, s', j); }
    OtherGridded(s, s');
  }

  lemma {:induction false} EveryRunGridded(es: seq<Event>, rules: int -> Incidents.Rule)
    requires Legal(es, rules)
    ensures Gridded(Run(es, rules))
  {
    if es != [] {
      EveryRunGridded(es[..|es| - 1], rules);
      EveryRunInv(es[..|es| - 1], rules);
      StepGridded(Run(es[..|es| - 1], rules), es[|es| - 1], rules);
    }
  }

  /** In every run each scheduled job sits on a slot of one of its monitor's periods, unless
      it caught up for a recorded missed slot. */
  lemma {:induction false} ScheduledJobsOnGrid(es: seq<Event>, rules: int -> Incidents.Rule, j: int)
    requires Legal(es, rules) && j in Run(es, rules).jobs && Run(es, rules).jobs[j].job.kind == Scheduled
    ensures var s := Run(es, rules);
            var job := s.jobs[j].job;
            && job.monitor in s.schedule
            && (Schedule.OnSomeGrid(s.schedule[job.monitor].periods, job.at) ||
                exists g :: g in s.slotGaps && g.monitor == job.monitor && g.reason == Missed && g.at + 120_000_000 < job.at)
  {
    EveryRunGridded(es, rules);
    assert Placed(Run(es, rules), Run(es, rules).jobs[j]);
  }

  /** When it is created, its slot is on the open period's grid if and only if it is created
      within the start window or now happens to be a slot. */
  lemma {:induction false} AdmittedOnGridIff(es: seq<Event>, rules: int -> Incidents.Rule, m: int, id: int, x: Sealed, now: int)
    requires Legal(es, rules) && id !in Run(es, rules).jobs && id in Admit(Run(es, rules), m, id, x, now).jobs
    ensures var s := Run(es, rules);
            && m in s.schedule && s.schedule[m].periods != []
            && var open := Schedule.OpenPeriod(s.schedule[m]);
               Schedule.OnGrid(open, Admit(s, m, id, x, now).jobs[id].job.at) <==>
                 s.schedule[m].next + 120_000_000 >= now || Schedule.OnGrid(open, now)
  {
    EveryRunGridded(es, rules);
    var s := Run(es, rules);
    assert Admit(s, m, id, x, now).jobs[id] == NewJob(Scheduled, m, Schedule.JobSlot(s.schedule[m], now), id, x, now);
  }

  // -------------------------------------------------------------------- ScheduleDue

  /** A listed monitor, the id drawn for its job, and its sealed snapshot unless sealing fails. */
  datatype Due = Due(m: int, id: int, sealed: Option<Sealed>)

  function Refuse(s: Sys, m: int, now: int): Sys
    requires m in s.schedule
  {
    AdvanceSchedule(s.(slotGaps := s.slotGaps + {SlotGap(m, s.schedule[m].next, AdmissionLimit)}), m, now)
  }

  /** None when the transaction is rolled back. */
  function AdmitOne(s: Sys, d: Due, now: int): Option<Sys> {
    if !Listed(s, d.m, now) then Some(s)
    else if |ActiveIds(s, Scheduled)| >= SCHEDULED_LIMIT then Some(Refuse(s, d.m, now))
    else if d.sealed.None? then None
    else Some(Admit(s, d.m, d.id, d.sealed.value, now))
  }

  function AdmitAll(s: Sys, due: seq<Due>, now: int): Option<Sys> {
    if due == [] then Some(s) else
    var front := AdmitAll(s, due[..|due| - 1], now);
    if front.None? then None else AdmitOne(front.value, due[|due| - 1], now)
  }

  /** What ListDueScheduledMonitors and gen_random_uuid guarantee of due[from..]. */
  ghost predicate DueList(s: Sys, due: seq<Due>, from: nat, now: int) {
    && (forall i :: from <= i < |due| ==> Listed(s, due[i].m, now) && due[i].id !in s.jobs)
    && (forall i, j :: 0 <= i < j < |due| ==> due[i].m != due[j].m && due[i].id != due[j].id)
  }

  lemma {:induction false} AdmitKeepsListed(s: Sys, d: Due, n: int, now: int)
    requires Listed(s, d.m, now) && Listed(s, n, now) && n != d.m && d.id !in s.jobs && AdmitOne(s, d, now).Some?
    ensures Listed(AdmitOne(s, d, now).value, n, now)
    ensures AdmitOne(s, d, now).value.jobs.Keys <= s.jobs.Keys + {d.id}
  {
    var s' := AdmitOne(s, d, now).value;
    forall j | j in s'.jobs ensures !IsActiveFor(s'.jobs[j], n) {
      assert j in s.jobs ==> !IsActiveFor(s.jobs[j], n);
    }
  }

  lemma {:induction false} InsertActiveIds(s: Sys, id: int, c: Cell)
    requires id !in s.jobs && c.job.kind == Scheduled && Active(c.state)
    ensures ActiveIds(s.(jobs := s.jobs[id := c]), Scheduled) == ActiveIds(s, Scheduled) + {id}
  {
    var s' := s.(jobs := s.jobs[id := c]);
    assert s'.jobs[id] == c;
  }

  lemma {:induction false} InsertCounts(s: Sys, id: int, c: Cell)
    requires id !in s.jobs && c.job.kind == Scheduled && Active(c.state)
    ensures var s' := s.(jobs := s.jobs[id := c]);
            |s'.jobs| == |s.jobs| + 1 && |ActiveIds(s', Scheduled)| == |ActiveIds(s, Scheduled)| + 1
  {
    InsertActiveIds(s, id, c);
    assert id !in ActiveIds(s, Scheduled);
    var jobs := s.jobs[id := c];
    assert jobs.Keys == s.jobs.Keys + {id};
    assert |jobs| == |jobs.Keys| && |s.jobs| == |s.jobs.Keys|;
  }

  lemma SameJobsSameActive(s: Sys, s': Sys)
    requires s'.jobs == s.jobs
    ensures ActiveIds(s', Scheduled) == ActiveIds(s, Scheduled)
  {
  }

  class Scheduler {
    var sys: Sys

    /** ScheduleDue: the whole batch is one transaction; outstanding is counted once and kept up to date. */
    method ScheduleDue(due: seq<Due>, batch: int, now: int) returns (ok: bool, created: int)
      requires |due| <= batch || batch < 1 || batch > 100
      requires DueList(sys, due, 0, now)
      modifies this
      ensures ok <==> 1 <= batch <= 100 && AdmitAll(old(sys), due, now).Some?
      ensures !ok ==> sys == old(sys) && created == 0
      ensures ok ==> Some(sys) == AdmitAll(old(sys), due, now)
      ensures ok ==> created == |sys.jobs| - |old(sys).jobs| == |ActiveIds(sys, Scheduled)| - |ActiveIds(old(sys), Scheduled)|
    {
      ok, created := false, 0;
      if batch < 1 || batch > 100 { return; }
      var s, outstanding := sys, |ActiveIds(sys, Scheduled)|;
      var i, count := 0, 0;
      while i < |due|
        invariant 0 <= i <= |due| && sys == old(sys)
        invariant AdmitAll(old(sys), due[..i], now) == Some(s)
        invariant outstanding == |ActiveIds(s, Scheduled)| == |ActiveIds(old(sys), Scheduled)| + count
        invariant |s.jobs| == |old(sys).jobs| + count
        invariant DueList(s, due, i, now)
      {
        var d := due[i];
        ghost var before := s;
        assert due[..i + 1][..i] == due[..i];
        var m := s.schedule[d.m];
        if outstanding >= SCHEDULED_LIMIT {
          s := s.(slotGaps := s.slotGaps + {SlotGap(d.m, m.next, AdmissionLimit)});
        } else {
          if d.sealed.None? {
            RollsBack(old(sys), due, i + 1, now);
            return;
          }
          var at := m.next;
          if at + Schedule.START_WINDOW < now {
            s := s.(slotGaps := s.slotGaps + {SlotGap(d.m, at, Missed)});
            at := now;
          }
          SameJobsSameActive(before, s);
          if !SlotTaken(s, d.m, at) {
            var c := NewJob(Scheduled, d.m, at, d.id, d.sealed.value, now);
            FreshJobOk(Scheduled, d.m, at, d.id, d.sealed.value, now);
            InsertCounts(s, d.id, c);
            s := s.(jobs := s.jobs[d.id := c]);
            count := count + 1;
            outstanding := outstanding + 1;
          }
        }
        ghost var inserted := s;
        s := s.(schedule := s.schedule[d.m := Schedule.Step(m, Schedule.Advance, now)]);
        SameJobsSameActive(inserted, s);
        assert Some(s) == AdmitOne(before, d, now);
        forall k | i + 1 <= k < |due| ensures Listed(s, due[k].m, now) && due[k].id !in s.jobs {
          AdmitKeepsListed(before, d, due[k].m, now);
        }
        i := i + 1;
      }
      assert due[..i] == due;
      sys, ok, created := s, true, count;
    }
  }

  lemma {:induction false} RollsBack(s: Sys, due: seq<Due>, n: nat, now: int)
    requires n <= |due| && AdmitAll(s, due[..n], now).None?
    ensures AdmitAll(s, due, now).None?
    decreases |due|
  {
    if n == |due| {
      assert due[..n] == due;
    } else {
      assert due[..|due| - 1][..n] == due[..n];
      RollsBack(s, due[..|due| - 1], n, now);
    }
  }

  /** A committed batch is a run of admissions, so it keeps every bound. */
  lemma {:induction false} AdmitAllInv(s: Sys, due: seq<Due>, now: int, rules: int -> Incidents.Rule)
    requires Inv(s, rules) && AdmitAll(s, due, now).Some?
    requires forall i :: 0 <= i < |due| ==> due[i].id !in s.jobs
    requires forall i, j :: 0 <= i < j < |due| ==> due[i].id != due[j].id
    ensures Inv(AdmitAll(s, due, now).value, rules)
    ensures forall j :: j in AdmitAll(s, due, now).value.jobs ==> j in s.jobs || exists i :: 0 <= i < |due| && due[i].id == j
  {
    if due != [] {
      var n := |due| - 1;
      AdmitAllInv(s, due[..n], now, rules);
      var t, d := AdmitAll(s, due[..n], now).value, due[n];
      assert d.id !in t.jobs;
      var x := AdmitOneIsAdmit(t, d, now);
      AdmitInv(t, d.m, d.id, x, now, rules);
      forall j | j in AdmitAll(s, due, now).value.jobs ensures j in s.jobs || exists i :: 0 <= i < |due| && due[i].id == j {
        if j == d.id { assert due[n].id == j; } else { assert j in t.jobs; }
      }
    }
  }

  lemma {:induction false} AdmitOneIsAdmit(s: Sys, d: Due, now: int) returns (x: Sealed)
    requires AdmitOne(s, d, now).Some?
    ensures AdmitOne(s, d, now) == Some(Admit(s, d.m, d.id, x, now))
    ensures AdmitOne(s, d, now).value.jobs.Keys <= s.jobs.Keys + {d.id}
  {
    x := if d.sealed.Some? then d.sealed.value else Sealed(0, 0, 0);
  }
}
