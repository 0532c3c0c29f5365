/** The worker, the control plane and the rollups together. */
module EndToEnd {
  import opened Positions
  import Admission
  import Jobs
  import Incidents
  import Pipeline
  import Rollups
  import Schedule
  import Shortfall
  import Slots
  import Worker

  /** Every committed delivery for job j is a message the worker put on the result queue. */
  ghost predicate FromWorker(es: seq<Pipeline.Event>, rules: int -> Incidents.Rule, j: int, w: Worker.State) {
    forall k :: 0 <= k < |es| && es[k].Consumes? && es[k].id == j && Pipeline.CommitsAt(es, k, rules) ==>
      Worker.Sent(j, es[k].r) in w.sent
  }

  /** If one worker handles a job, then whatever crashes, redeliveries, retries and
      cleanups happen on either side, the consumer never records a conflict for it. */
  lemma {:induction false} OneWorkerNeverConflicts(
    es: seq<Pipeline.Event>, rules: int -> Incidents.Rule, j: int,
    ws: seq<Worker.Event>, pool: int, tolerance: int, expires: int -> int)
    requires Pipeline.Legal(es, rules) && Worker.Legal(ws, pool, tolerance, expires)
    requires FromWorker(es, rules, j, Worker.Run(ws, pool, tolerance))
    ensures var s := Pipeline.Run(es, rules); j in s.jobs ==> s.jobs[j].conflicts == {}
  {
    var w := Worker.Run(ws, pool, tolerance);
    if k :| 0 <= k < |es| && es[k].Consumes? && es[k].id == j && Pipeline.CommitsAt(es, k, rules) {
      var r := es[k].r;
      forall i | 0 <= i < |es| && es[i].Consumes? && es[i].id == j && Pipeline.CommitsAt(es, i, rules) ensures es[i].r == r {
        SameBody(ws, pool, tolerance, expires, j, es[i].r, r);
      }
      Pipeline.AgreeingRunsArePeaceful(es, rules, j, r.attempt, r.id);
    } else {
      Pipeline.AgreeingRunsArePeaceful(es, rules, j, 0, 0);
    }
  }

  /** And the accepted result of such a job reports what the worker's engine measured in one of
      its calls, for the job's own snapshot and slot. */
  lemma {:induction false} AcceptedWasMeasured(
    es: seq<Pipeline.Event>, rules: int -> Incidents.Rule, j: int, ws: seq<Worker.Event>, pool: int, tolerance: int)
    requires Pipeline.Legal(es, rules) && FromWorker(es, rules, j, Worker.Run(ws, pool, tolerance))
    requires j in Pipeline.Run(es, rules).jobs && Pipeline.Run(es, rules).jobs[j].accepted.Some?
    ensures var c := Pipeline.Run(es, rules).jobs[j];
            && c.accepted.value.hash == c.job.hash && c.accepted.value.at == c.job.at && c.accepted.value.pool == c.job.pool
            && exists i :: 0 <= i < |ws| && Worker.Reports(ws[i], pool, tolerance, j, c.accepted.value)
  {
    var r := Pipeline.Run(es, rules).jobs[j].accepted.value;
    Admission.AcceptedIff(es, rules, j, r);
    var k :| 0 <= k < |es| && Admission.AcceptsAt(es, k, rules, j, r);
    AcceptanceCommits(es, rules, k, j, r);
    var w := Worker.Run(ws, pool, tolerance);
    var i :| 0 <= i < |w.sent| && w.sent[i] == Worker.Sent(j, r);
    Worker.SentReportsMeasurement(ws, pool, tolerance, i);
  }

  lemma {:induction false} AcceptanceCommits(es: seq<Pipeline.Event>, rules: int -> Incidents.Rule, k: nat, j: int, r: Jobs.Result)
    requires Pipeline.Legal(es, rules) && k < |es| && Admission.AcceptsAt(es, k, rules, j, r) && j in Pipeline.Run(es, rules).jobs
    ensures Pipeline.CommitsAt(es, k, rules)
    ensures var job := Pipeline.Run(es, rules).jobs[j].job; r.hash == job.hash && r.at == job.at && r.pool == job.pool
  {
    Pipeline.RunKeepsAccepted(es, k, rules);
    var s := Pipeline.Run(es[..k], rules);
    Pipeline.EveryRunInv(es[..k], rules);
    assert Pipeline.JobOk(s, j) && Pipeline.KeepsJob(s, Pipeline.Run(es, rules), j);
    Jobs.DeliveryAnswer(s.jobs[j], Jobs.Deliver(r, es[k].now, Pipeline.Reused(s, j, r.id), r.id in s.quarantine));
  }

  lemma {:induction false} SameBody(ws: seq<Worker.Event>, pool: int, tolerance: int, expires: int -> int, j: int, a: Jobs.Result, b: Jobs.Result)
    requires Worker.Legal(ws, pool, tolerance, expires)
    requires Worker.Sent(j, a) in Worker.Run(ws, pool, tolerance).sent && Worker.Sent(j, b) in Worker.Run(ws, pool, tolerance).sent
    ensures a == b
  {
    var sent := Worker.Run(ws, pool, tolerance).sent;
    var i :| 0 <= i < |sent| && sent[i] == Worker.Sent(j, a);
    var k :| 0 <= k < |sent| && sent[k] == Worker.Sent(j, b);
    Worker.IdenticalResults(ws, pool, tolerance, expires, i, k);
  }

  // ------------------------------------------------- rollups of a pipeline's results

  /** A transaction of the control plane or of rollup maintenance, with the database's time. */
  datatype Joint = Control(e: Pipeline.Event, now: int) | Maintenance(r: Rollups.Event, now: int)

  function Controls(js: seq<Joint>): seq<Pipeline.Event> {
    if js == [] then [] else
      var front, last := Controls(js[..|js| - 1]), js[|js| - 1];
      if last.Control? then front + [last.e] else front
  }

  /** What a control-plane transaction means for the rollup tables. */
  ghost function Seen(s: Pipeline.Sys, e: Pipeline.Event): Option<Rollups.Event> {
    match e
    case Create(m, interval, offset, now) => Some(Rollups.Created(m, interval, offset))
    case Change(m, change, now) => Some(Rollups.Changed(m, change))
    case Admits(m, id, x, now) => if Pipeline.Listed(s, m, now) then Some(Rollups.Changed(m, Schedule.Advance)) else None
    case Consumes(id, r, now, incident) =>
      if Pipeline.VerdictOf(s, id, r, now) == Jobs.Accepts && s.jobs[id].job.kind == Jobs.Scheduled
      then Some(Rollups.Result(Slots.Key(s.jobs[id].job.monitor, s.jobs[id].job.at), r.ok)) else None
    case _ => None
  }

  ghost function Rolls(js: seq<Joint>, rules: int -> Incidents.Rule): seq<Rollups.Timed> {
    if js == [] then [] else
      var before, last := js[..|js| - 1], js[|js| - 1];
      var front := Rolls(before, rules);
      if last.Maintenance? then front + [Rollups.Timed(last.r, last.now)]
      else
        var seen := Seen(Pipeline.Run(Controls(before), rules), last.e);
        if seen.None? then front else front + [Rollups.Timed(seen.value, last.now)]
  }

  /** Times do not run backwards, schedule transactions use the database's time, and
      maintenance only rolls, reads checkpoints, with whatever clock, and moves them. */
  ghost predicate Timely(now: int, j: Joint) {
    && now <= j.now
    && (j.Control? ==>
          && (j.e.Create? ==> j.e.now == j.now) && (j.e.Change? ==> j.e.now == j.now) && (j.e.Admits? ==> j.e.now == j.now))
    && (j.Maintenance? ==>
          !j.r.Created? && !j.r.Changed? && !j.r.Result?)
  }

  function Clock(start: int, js: seq<Joint>): int {
    if js == [] then start else js[|js| - 1].now
  }

  ghost predicate Legal(start: int, js: seq<Joint>, rules: int -> Incidents.Rule) {
    Pipeline.Legal(Controls(js), rules) && InTime(start, js)
  }

  ghost predicate InTime(start: int, js: seq<Joint>) {
    js == [] || (InTime(start, js[..|js| - 1]) && Timely(Clock(start, js[..|js| - 1]), js[|js| - 1]))
  }

  /** Job j is a scheduled job of slot k whose accepted result is ok. */
  ghost predicate Answers(c: Jobs.Cell, k: Slots.Key, ok: bool) {
    c.job.kind == Jobs.Scheduled && c.job.monitor == k.monitor && c.job.at == k.at && c.accepted.Some? && c.accepted.value.ok == ok
  }

  ghost predicate Answered(s: Pipeline.Sys, k: Slots.Key, ok: bool) {
    exists j :: j in s.jobs && Answers(s.jobs[j], k, ok)
  }

  ghost predicate Holds(results: map<Slots.Key, bool>, k: Slots.Key, ok: bool) {
    k in results && results[k] == ok
  }

  /** The rollup tables see the schedules and exactly the accepted scheduled results. */
  ghost predicate Agrees(s: Pipeline.Sys, t: Rollups.Store) {
    t.monitors == s.schedule && forall k, ok :: Holds(t.results, k, ok) <==> Answered(s, k, ok)
  }

  /** A step that accepts no scheduled result keeps what is answered. */
  lemma {:induction false} SameAnswers(s: Pipeline.Sys, s': Pipeline.Sys, k: Slots.Key, ok: bool)
    requires forall j :: j in s.jobs ==> j in s'.jobs && s'.jobs[j].job == s.jobs[j].job
    requires forall j :: j in s.jobs && s.jobs[j].job.kind == Jobs.Scheduled ==> s'.jobs[j].accepted == s.jobs[j].accepted
    requires forall j :: j in s'.jobs && j !in s.jobs ==> s'.jobs[j].accepted.None?
    ensures Answered(s', k, ok) <==> Answered(s, k, ok)
  {
    if Answered(s, k, ok) {
      var j :| j in s.jobs && Answers(s.jobs[j], k, ok);
      assert Answers(s'.jobs[j], k, ok);
    }
    if Answered(s', k, ok) {
      var j :| j in s'.jobs && Answers(s'.jobs[j], k, ok);
      assert j in s.jobs && Answers(s.jobs[j], k, ok);
    }
  }

  /** Accepting a scheduled result answers its slot, which nothing had answered, and no other. */
  lemma {:induction false} NewAnswer(s: Pipeline.Sys, id: int, r: Jobs.Result, now: int, incident: int, rules: int -> Incidents.Rule, k: Slots.Key, ok: bool)
    requires Pipeline.JobsOk(s) && Pipeline.SlotsUnique(s)
    requires Pipeline.VerdictOf(s, id, r, now) == Jobs.Accepts && s.jobs[id].job.kind == Jobs.Scheduled
    ensures var c := s.jobs[id].job;
            var slot := Slots.Key(c.monitor, c.at);
            && !Answered(s, slot, ok)
            && (Answered(Pipeline.Consume(s, id, r, now, incident, rules), k, ok) <==> Answered(s, k, ok) || (k == slot && ok == r.ok))
  {
    var s' := Pipeline.Consume(s, id, r, now, incident, rules);
    assert Pipeline.JobOk(s, id);
    assert s'.jobs == s.jobs[id := s'.jobs[id]] && s'.jobs[id].accepted == Some(r) && s'.jobs[id].job == s.jobs[id].job;
    var slot := Slots.Key(s.jobs[id].job.monitor, s.jobs[id].job.at);
    if Answered(s, k, ok) {
      var j :| j in s.jobs && Answers(s.jobs[j], k, ok);
      assert Answers(s'.jobs[j], k, ok);
    }
    if k == slot && ok == r.ok { assert Answers(s'.jobs[id], k, ok); }
    if Answered(s', k, ok) {
      var j :| j in s'.jobs && Answers(s'.jobs[j], k, ok);
      if j != id { assert Answers(s.jobs[j], k, ok); }
    }
  }

  /** The part of the step that accepts nothing new of a scheduled job. */
  ghost predicate Quiet(s: Pipeline.Sys, s': Pipeline.Sys) {
    && (forall j :: j in s.jobs ==> j in s'.jobs && s'.jobs[j].job == s.jobs[j].job)
    && (forall j :: j in s.jobs && s.jobs[j].job.kind == Jobs.Scheduled ==> s'.jobs[j].accepted == s.jobs[j].accepted)
    && (forall j :: j in s'.jobs && j !in s.jobs ==> s'.jobs[j].accepted.None?)
  }

  lemma {:induction false} QuietAgrees(s: Pipeline.Sys, s': Pipeline.Sys, t: Rollups.Store, t': Rollups.Store)
    requires Agrees(s, t) && Quiet(s, s') && t'.monitors == s'.schedule && t'.results == t.results
    ensures Agrees(s', t')
  {
    forall k, ok ensures Holds(t'.results, k, ok) <==> Answered(s', k, ok) {
      SameAnswers(s, s', k, ok);
    }
  }

  lemma {:induction false} JobStepQuiet(s: Pipeline.Sys, e: Pipeline.Event, rules: int -> Incidents.Rule)
    requires Pipeline.JobsOk(s) && Pipeline.Allowed(s, e) && (e.OnJob? || e.ReclaimAll? || e.SweepAll?)
    ensures Quiet(s, Pipeline.Step(s, e, rules)) && Pipeline.Step(s, e, rules).schedule == s.schedule
  {
    forall j | j in s.jobs
      ensures j in Pipeline.Step(s, e, rules).jobs
      ensures Pipeline.Step(s, e, rules).jobs[j].job == s.jobs[j].job && Pipeline.Step(s, e, rules).jobs[j].accepted == s.jobs[j].accepted
    {
      assert Pipeline.JobOk(s, j);
      match e
      case OnJob(id, je) => if id == j { Pipeline.QuietStep(s.jobs[j], je); Jobs.StepLedger(s.jobs[j], je); }
      case ReclaimAll(now) =>
      case SweepAll(now) =>
    }
  }

  lemma {:induction false} InsertQuiet(s: Pipeline.Sys, id: int, c: Jobs.Cell)
    requires id !in s.jobs && c.accepted.None?
    ensures Quiet(s, Pipeline.Insert(s, id, c)) && Pipeline.Insert(s, id, c).schedule == s.schedule
  {
  }

  lemma {:induction false} TestQuiet(s: Pipeline.Sys, m: int, id: int, x: Pipeline.Sealed, now: int)
    requires id !in s.jobs
    ensures Quiet(s, Pipeline.TestNow(s, m, id, x, now)) && Pipeline.TestNow(s, m, id, x, now).schedule == s.schedule
  {
    InsertQuiet(s, id, Pipeline.NewJob(Jobs.Manual, m, now, id, x, now));
  }

  lemma {:induction false} AdmitQuiet(s: Pipeline.Sys, m: int, id: int, x: Pipeline.Sealed, now: int)
    requires id !in s.jobs
    ensures Quiet(s, Pipeline.Admit(s, m, id, x, now))
    ensures Pipeline.Admit(s, m, id, x, now).schedule ==
            if Pipeline.Listed(s, m, now) then s.schedule[m := Schedule.Step(s.schedule[m], Schedule.Advance, now)] else s.schedule
  {
    if Pipeline.Listed(s, m, now) {
      var slot, at := s.schedule[m].next, Schedule.JobSlot(s.schedule[m], now);
      var s1 := if at != slot then s.(slotGaps := s.slotGaps + {Pipeline.SlotGap(m, slot, Pipeline.Missed)}) else s;
      InsertQuiet(s1, id, Pipeline.NewJob(Jobs.Scheduled, m, at, id, x, now));
    }
  }

  lemma {:induction false} ConsumeQuiet(s: Pipeline.Sys, id: int, r: Jobs.Result, now: int, incident: int, rules: int -> Incidents.Rule)
    requires Pipeline.JobsOk(s)
    requires !(Pipeline.VerdictOf(s, id, r, now) == Jobs.Accepts && s.jobs[id].job.kind == Jobs.Scheduled)
    ensures Quiet(s, Pipeline.Consume(s, id, r, now, incident, rules))
  {
    if Pipeline.VerdictOf(s, id, r, now) != Jobs.Rejected { Pipeline.ConsumeFrame(s, id, r, now, incident, rules); }
  }

  lemma {:induction false} ConsumeAgrees(s: Pipeline.Sys, t: Rollups.Store, id: int, r: Jobs.Result, now: int, incident: int, rules: int -> Incidents.Rule, at: int)
    requires Pipeline.JobsOk(s) && Pipeline.SlotsUnique(s) && Agrees(s, t)
    requires Pipeline.VerdictOf(s, id, r, now) == Jobs.Accepts && s.jobs[id].job.kind == Jobs.Scheduled
    ensures var k := Slots.Key(s.jobs[id].job.monitor, s.jobs[id].job.at);
            Agrees(Pipeline.Consume(s, id, r, now, incident, rules), Rollups.Step(t, Rollups.Result(k, r.ok), at))
  {
    var s' := Pipeline.Consume(s, id, r, now, incident, rules);
    assert Pipeline.JobOk(s, id);
    var slot := Slots.Key(s.jobs[id].job.monitor, s.jobs[id].job.at);
    var t' := Rollups.Step(t, Rollups.Result(slot, r.ok), at);
    assert slot !in t.results by {
      if slot in t.results {
        NewAnswer(s, id, r, now, incident, rules, slot, t.results[slot]);
        assert Holds(t.results, slot, t.results[slot]);
      }
    }
    assert t'.results == t.results[slot := r.ok] && t'.monitors == t.monitors && s'.schedule == s.schedule;
    forall k, ok ensures Holds(t'.results, k, ok) <==> Answered(s', k, ok) {
      NewAnswer(s, id, r, now, incident, rules, k, ok);
      assert Holds(t.results, k, ok) <==> Answered(s, k, ok);
      NewAnswer(s, id, r, now, incident, rules, slot, ok);
    }
  }

  lemma {:induction false} ScheduleAgrees(s: Pipeline.Sys, t: Rollups.Store, e: Pipeline.Event, now: int, rules: int -> Incidents.Rule)
    requires Pipeline.Allowed(s, e) && Agrees(s, t) && ((e.Create? && e.now == now) || (e.Change? && e.now == now))
    ensures Agrees(Pipeline.Step(s, e, rules), Rollups.Step(t, Seen(s, e).value, now)) && Rollups.Checked(t, Seen(s, e).value)
  {
    QuietAgrees(s, Pipeline.Step(s, e, rules), t, Rollups.Step(t, Seen(s, e).value, now));
  }

  lemma {:induction false} AdmitAgrees(s: Pipeline.Sys, t: Rollups.Store, m: int, id: int, x: Pipeline.Sealed, now: int)
    requires id !in s.jobs && Agrees(s, t)
    ensures var s' := Pipeline.Admit(s, m, id, x, now);
            if Pipeline.Listed(s, m, now) then Agrees(s', Rollups.Step(t, Rollups.Changed(m, Schedule.Advance), now)) else Agrees(s', t)
  {
    AdmitQuiet(s, m, id, x, now);
    var s' := Pipeline.Admit(s, m, id, x, now);
    if Pipeline.Listed(s, m, now) {
      QuietAgrees(s, s', t, Rollups.Step(t, Rollups.Changed(m, Schedule.Advance), now));
    } else {
      QuietAgrees(s, s', t, t);
    }
  }

  lemma {:induction false} UnseenAgrees(s: Pipeline.Sys, t: Rollups.Store, e: Pipeline.Event, rules: int -> Incidents.Rule)
    requires Pipeline.JobsOk(s) && Pipeline.Allowed(s, e) && Agrees(s, t) && Seen(s, e).None? && !e.Admits?
    ensures Agrees(Pipeline.Step(s, e, rules), t)
  {
    var s' := Pipeline.Step(s, e, rules);
    match e
    case Tests(m, id, x, at) => TestQuiet(s, m, id, x, at); QuietAgrees(s, s', t, t);
    case Consumes(id, r, at, incident) => ConsumeQuiet(s, id, r, at, incident, rules); QuietAgrees(s, s', t, t);
    case ResultDLQ(_) => QuietAgrees(s, s', t, t);
    case OnReport(_, _) => QuietAgrees(s, s', t, t);
    case _ => JobStepQuiet(s, e, rules); QuietAgrees(s, s', t, t);
  }

  /** Each control-plane transaction drives the rollup tables as Seen says. */
  lemma {:induction false} ControlAgrees(s: Pipeline.Sys, t: Rollups.Store, e: Pipeline.Event, now: int, rules: int -> Incidents.Rule)
    requires Pipeline.JobsOk(s) && Pipeline.SlotsUnique(s) && Pipeline.Allowed(s, e) && Agrees(s, t) && Timely(now, Control(e, now))
    ensures var seen := Seen(s, e);
            && Agrees(Pipeline.Step(s, e, rules), if seen.None? then t else Rollups.Step(t, seen.value, now))
            && (seen.Some? ==> Rollups.Checked(t, seen.value))
  {
    match e
    case Create(_, _, _, _) => ScheduleAgrees(s, t, e, now, rules);
    case Change(_, _, _) => ScheduleAgrees(s, t, e, now, rules);
    case Admits(m, id, x, _) => AdmitAgrees(s, t, m, id, x, now);
    case Consumes(id, r, at, incident) =>
      if Seen(s, e).Some? { ConsumeAgrees(s, t, id, r, at, incident, rules, now); } else { UnseenAgrees(s, t, e, rules); }
    case _ => UnseenAgrees(s, t, e, rules);
  }

  lemma {:induction false} MaintenanceAgrees(s: Pipeline.Sys, t: Rollups.Store, r: Rollups.Event, now: int)
    requires Agrees(s, t) && !r.Created? && !r.Changed? && !r.Result?
    ensures Agrees(s, Rollups.Step(t, r, now))
  {
    Rollups.MaintenanceInputs(t.(now := now), r);
  }

  lemma {:induction false} RollsSnoc(t0: Rollups.Store, es: seq<Rollups.Timed>, x: Rollups.Timed)
    ensures Rollups.Run(t0, es + [x]) == Rollups.Step(Rollups.Run(t0, es), x.e, x.now)
    ensures Rollups.Orderly(t0, es + [x]) <==> Rollups.Orderly(t0, es) && Rollups.Run(t0, es).now <= x.now && Rollups.Checked(Rollups.Run(t0, es), x.e)
  {
    assert (es + [x])[..|es|] == es;
  }

  /** The run of the rollup tables is orderly, in agreement and not ahead of the clock. */
  ghost predicate Driven(t0: Rollups.Store, es: seq<Rollups.Timed>, s: Pipeline.Sys, clock: int) {
    Rollups.Orderly(t0, es) && Agrees(s, Rollups.Run(t0, es)) && Rollups.Run(t0, es).now <= clock
  }

  lemma {:induction false} MaintenanceDriven(t0: Rollups.Store, es: seq<Rollups.Timed>, s: Pipeline.Sys, j: Joint, clock: int)
    requires Driven(t0, es, s, clock) && Timely(clock, j) && j.Maintenance?
    ensures Driven(t0, es + [Rollups.Timed(j.r, j.now)], s, j.now)
  {
    var t := Rollups.Run(t0, es);
    RollsSnoc(t0, es, Rollups.Timed(j.r, j.now));
    MaintenanceAgrees(s, t, j.r, j.now);
    Rollups.MaintenanceInputs(t.(now := j.now), j.r);
  }

  lemma {:induction false} ControlDriven(t0: Rollups.Store, es: seq<Rollups.Timed>, s: Pipeline.Sys, j: Joint, clock: int, rules: int -> Incidents.Rule)
    requires Driven(t0, es, s, clock) && Timely(clock, j) && j.Control?
    requires Pipeline.JobsOk(s) && Pipeline.SlotsUnique(s) && Pipeline.Allowed(s, j.e)
    ensures var seen := Seen(s, j.e);
            Driven(t0, if seen.None? then es else es + [Rollups.Timed(seen.value, j.now)], Pipeline.Step(s, j.e, rules), j.now)
  {
    ControlAgrees(s, Rollups.Run(t0, es), j.e, j.now, rules);
    var seen := Seen(s, j.e);
    if seen.Some? {
      RollsSnoc(t0, es, Rollups.Timed(seen.value, j.now));
      SeenTime(Rollups.Run(t0, es), s, j.e, j.now);
    }
  }

  lemma {:induction false} SeenTime(t: Rollups.Store, s: Pipeline.Sys, e: Pipeline.Event, now: int)
    requires Seen(s, e).Some?
    ensures Rollups.Step(t, Seen(s, e).value, now).now == now
  {
    match Seen(s, e).value
    case Created(_, _, _) =>
    case Changed(_, _) =>
    case Result(_, _) =>
  }

  /** The schedules and accepted scheduled results of every pipeline run, with rollup
      maintenance at any points in between, drive an orderly run of the rollup tables. */
  lemma {:induction false} PipelineDrivesRollups(start: int, hour: int, day: int, js: seq<Joint>, rules: int -> Incidents.Rule)
    requires Legal(start, js, rules)
    ensures Driven(Rollups.Fresh(start, hour, day), Rolls(js, rules), Pipeline.Run(Controls(js), rules), Clock(start, js))
  {
    var t0 := Rollups.Fresh(start, hour, day);
    if js == [] {
      assert forall k, ok :: !Answered(Pipeline.NONE, k, ok);
    } else {
      var before, last := js[..|js| - 1], js[|js| - 1];
      ControlsPrefix(js, rules);
      PipelineDrivesRollups(start, hour, day, before, rules);
      var s := Pipeline.Run(Controls(before), rules);
      if last.Maintenance? {
        MaintenanceDriven(t0, Rolls(before, rules), s, last, Clock(start, before));
      } else {
        Pipeline.EveryRunInv(Controls(before), rules);
        ControlDriven(t0, Rolls(before, rules), s, last, Clock(start, before), rules);
      }
    }
  }

  lemma {:induction false} ControlsPrefix(js: seq<Joint>, rules: int -> Incidents.Rule)
    requires js != [] && Pipeline.Legal(Controls(js), rules)
    ensures var before, last := js[..|js| - 1], js[|js| - 1];
            && Pipeline.Legal(Controls(before), rules)
            && (last.Control? ==>
                  && Pipeline.Allowed(Pipeline.Run(Controls(before), rules), last.e)
                  && Pipeline.Run(Controls(js), rules) == Pipeline.Step(Pipeline.Run(Controls(before), rules), last.e, rules))
            && (last.Maintenance? ==> Controls(js) == Controls(before))
  {
    var before, last := js[..|js| - 1], js[|js| - 1];
    if last.Control? { assert Controls(js)[..|Controls(js)| - 1] == Controls(before); }
  }

  // ----------------------------------------------------- what a rollup row counts

  /** The slots monitor m's schedule expects in [from, to). */
  ghost function SlotsOf(s: Pipeline.Sys, m: int, from: int, to: int): set<int> {
    Slots.SlotSet(if m in s.schedule then s.schedule[m].periods else [], from, to)
  }

  /** c counts those slots, the ones a job of m has an accepted result for, and the ones with a successful one. */
  ghost predicate CountsAnswers(s: Pipeline.Sys, c: Slots.Tally, m: int, from: int, to: int) {
    var slots := SlotsOf(s, m, from, to);
    && c.expected == |slots|
    && c.observed == |set t | t in slots && (Answered(s, Slots.Key(m, t), true) || Answered(s, Slots.Key(m, t), false))|
    && c.successful == |set t | t in slots && Answered(s, Slots.Key(m, t), true)|
  }

  /** The report query over the rollups' inputs counts what the jobs answered. */
  lemma {:induction false} WindowCountsAnswers(s: Pipeline.Sys, t: Rollups.Store, m: int, from: int, to: int)
    requires Agrees(s, t) && Rollups.MonitorsSound(t)
    ensures CountsAnswers(s, Rollups.Window(t, m, from, to), m, from, to)
  {
    var slots := SlotsOf(s, m, from, to);
    var periods := if m in s.schedule then s.schedule[m].periods else [];
    assert Slots.Proper(periods) && Slots.Disjoint(periods, from, to) by {
      if m in s.schedule { Slots.SoundDisjoint(s.schedule[m], t.now, from, to); }
    }
    Slots.PeriodsCounted(periods, t.results, m, from, to);
    assert Rollups.PeriodsOf(t, m) == periods;
    forall x | x in slots
      ensures Slots.Key(m, x) in t.results <==> Answered(s, Slots.Key(m, x), true) || Answered(s, Slots.Key(m, x), false)
      ensures Slots.Key(m, x) in t.results && t.results[Slots.Key(m, x)] <==> Answered(s, Slots.Key(m, x), true)
    {
      var k := Slots.Key(m, x);
      assert Holds(t.results, k, true) <==> Answered(s, k, true);
      assert Holds(t.results, k, false) <==> Answered(s, k, false);
    }
    assert Slots.Observed(slots, t.results, m) ==
           set x | x in slots && (Answered(s, Slots.Key(m, x), true) || Answered(s, Slots.Key(m, x), false));
    assert Slots.Successful(slots, t.results, m) == set x | x in slots && Answered(s, Slots.Key(m, x), true);
  }

  /** So in every such run, whatever the clocks, the row of an hour without a pending
      invalidation counts the monitor's slots, those its jobs have an accepted result for and
      those with a successful one, if and only if no slot lies between the hour's last roll
      and its end; a closed day is stale or counts them; and when maintenance only started on
      ended hours, so does every passed hour. */
  lemma {:induction false} RollupsCountAccepted(start: int, hour: int, day: int, js: seq<Joint>, rules: int -> Incidents.Rule,
                                                s: Pipeline.Sys, t: Rollups.Store, m: int, h: int, d: int)
    requires Legal(start, js, rules) && s == Pipeline.Run(Controls(js), rules)
    requires t == Rollups.Run(Rollups.Fresh(start, hour, day), Rolls(js, rules))
    ensures Agrees(s, t)
    ensures Rollups.Bucket(m, h) !in t.hourStale ==>
              (CountsAnswers(s, Rollups.Row(t.hourly, m, h), m, Rollups.At(h), Rollups.At(h + 1)) <==> Shortfall.NoSlotLeft(t, m, h))
    ensures d in t.closedDays && Rollups.Bucket(m, d) !in t.dayStale ==>
              CountsAnswers(s, Rollups.Row(t.daily, m, d), m, Rollups.At(24 * d), Rollups.At(24 * d + 24))
    ensures Rollups.Legal(Rollups.Fresh(start, hour, day), Rolls(js, rules)) ==>
              (hour < h <= t.hourlyThrough && Rollups.Bucket(m, h) !in t.hourStale ==>
                 CountsAnswers(s, Rollups.Row(t.hourly, m, h), m, Rollups.At(h), Rollups.At(h + 1)))
  {
    PipelineDrivesRollups(start, hour, day, js, rules);
    Rollups.RollupsAgree(start, hour, day, Rolls(js, rules), m, h, d);
    Rollups.EveryRunTables(start, hour, day, Rolls(js, rules));
    WindowCountsAnswers(s, t, m, Rollups.At(h), Rollups.At(h + 1));
    WindowCountsAnswers(s, t, m, Rollups.At(24 * d), Rollups.At(24 * d + 24));
    if Rollups.Bucket(m, h) !in t.hourStale {
      Shortfall.HourRightIff(start, hour, day, Rolls(js, rules), t, m, h);
      SameCounts(s, Rollups.Row(t.hourly, m, h), Rollups.Full(t, m, h), m, Rollups.At(h), Rollups.At(h + 1));
    }
  }

  lemma {:induction false} SameCounts(s: Pipeline.Sys, c: Slots.Tally, d: Slots.Tally, m: int, from: int, to: int)
    requires CountsAnswers(s, d, m, from, to)
    ensures CountsAnswers(s, c, m, from, to) <==> c == d
  {
  }
}
