/** What a run of the control plane admits, refuses and accepts, told from its events alone:
    where every job, slot gap and accepted result comes from. */
module Admission {
  import opened Positions
  import opened Pipeline
  import Incidents
  import Jobs
  import Schedule

  // ------------------------------------------------------------------- jobs

  /** c is job j of monitor m for slot `at`, with exactly what was sealed for it. */
  predicate Carries(c: Jobs.Cell, kind: Jobs.Kind, m: int, at: int, j: int, x: Sealed) {
    && c.job == Jobs.Job(kind, m, at, x.pool, x.hash, at + 120_000_000)
    && c.outbox.message == Jobs.Message(x.body, j, j, x.hash, at + 120_000_000)
  }

  /** Event e creates job j as c: for the slot the monitor is due at, or for now when that is
      more than two minutes ago, or for now as a manual test. */
  predicate Creates(s: Sys, e: Event, j: int, c: Jobs.Cell) {
    match e
    case Admits(m, id, x, now) =>
      && id == j && m in s.schedule && !s.schedule[m].paused && !s.schedule[m].deleted && s.schedule[m].next <= now
      && var next := s.schedule[m].next; Carries(c, Jobs.Scheduled, m, if next + 120_000_000 < now then now else next, j, x)
    case Tests(m, id, x, now) => id == j && Carries(c, Jobs.Manual, m, now, j, x)
    case _ => false
  }

  /** What a job was created with. */
  predicate SameSnapshot(s: Sys, s': Sys, j: int) {
    j in s.jobs && j in s'.jobs && s'.jobs[j].job == s.jobs[j].job && s'.jobs[j].outbox.message == s.jobs[j].outbox.message
  }

  lemma {:induction false} AdmitCreates(s: Sys, m: int, id: int, x: Sealed, now: int, j: int)
    requires j in Admit(s, m, id, x, now).jobs && id !in s.jobs
    ensures SameSnapshot(s, Admit(s, m, id, x, now), j) || Creates(s, Admits(m, id, x, now), j, Admit(s, m, id, x, now).jobs[j])
  {
  }

  lemma {:induction false} TestCreates(s: Sys, m: int, id: int, x: Sealed, now: int, j: int)
    requires j in TestNow(s, m, id, x, now).jobs && id !in s.jobs
    ensures SameSnapshot(s, TestNow(s, m, id, x, now), j) || Creates(s, Tests(m, id, x, now), j, TestNow(s, m, id, x, now).jobs[j])
  {
  }

  lemma {:induction false} ConsumeKeepsSnapshots(s: Sys, id: int, r: Jobs.Result, now: int, incident: int, rules: int -> Incidents.Rule, j: int)
    requires JobsOk(s) && j in s.jobs
    ensures SameSnapshot(s, Consume(s, id, r, now, incident, rules), j)
  {
    if VerdictOf(s, id, r, now) != Jobs.Rejected { ConsumeFrame(s, id, r, now, incident, rules); }
  }

  lemma {:induction false} StepCreates(s: Sys, e: Event, rules: int -> Incidents.Rule, j: int)
    requires JobsOk(s) && Allowed(s, e) && j in Step(s, e, rules).jobs
    ensures SameSnapshot(s, Step(s, e, rules), j) || Creates(s, e, j, Step(s, e, rules).jobs[j])
  {
    match e
    case Admits(m, id, x, now) => AdmitCreates(s, m, id, x, now, j);
    case Tests(m, id, x, now) => TestCreates(s, m, id, x, now, j);
    case Consumes(id, r, now, incident) =>
      assert j in s.jobs;
      ConsumeKeepsSnapshots(s, id, r, now, incident, rules, j);
    case OnJob(id, je) =>
      assert JobOk(s, j);
      Jobs.StepLedger(s.jobs[j], je);
    case ReclaimAll(now) =>
      assert JobOk(s, j);
      Jobs.StepLedger(s.jobs[j], Jobs.Reclaims(now));
    case SweepAll(now) =>
      assert JobOk(s, j);
      Jobs.StepLedger(s.jobs[j], Jobs.Sweep(now));
    case _ => assert Step(s, e, rules).jobs == s.jobs;
  }

  ghost predicate CreatedAt(es: seq<Event>, k: nat, rules: int -> Incidents.Rule, j: int, c: Jobs.Cell)
    requires k < |es|
  {
    Creates(Run(es[..k], rules), es[k], j, c)
  }

  /** In every run each job was created by one admission or manual test, and still carries the
      pool, hash and bytes that were sealed for it, its slot, and an expiry two minutes later. */
  lemma {:induction false} JobsAreSealed(es: seq<Event>, rules: int -> Incidents.Rule, j: int)
    requires Legal(es, rules) && j in Run(es, rules).jobs
    ensures exists k :: 0 <= k < |es| && CreatedAt(es, k, rules, j, Run(es, rules).jobs[j])
  {
    var n := |es| - 1;
    var s := Run(es[..n], rules);
    EveryRunInv(es[..n], rules);
    StepCreates(s, es[n], rules, j);
    if SameSnapshot(s, Run(es, rules), j) {
      JobsAreSealed(es[..n], rules, j);
      var k :| 0 <= k < n && CreatedAt(es[..n], k, rules, j, s.jobs[j]);
      assert es[..n][..k] == es[..k];
      assert CreatedAt(es, k, rules, j, Run(es, rules).jobs[j]);
    } else {
      assert CreatedAt(es, n, rules, j, Run(es, rules).jobs[j]);
    }
  }

  // -------------------------------------------------------------- admission

  /** A monitor that is active and due and has no scheduled job that is still pending or published. */
  predicate Waiting(s: Sys, m: int, now: int) {
    && m in s.schedule && !s.schedule[m].paused && !s.schedule[m].deleted && s.schedule[m].next <= now
    && forall j :: j in s.jobs && s.jobs[j].job.monitor == m && s.jobs[j].job.kind == Jobs.Scheduled ==>
         s.jobs[j].state != Jobs.PendingPublish && s.jobs[j].state != Jobs.Published
  }

  /** The jobs of a kind that are pending or published. */
  function InFlight(s: Sys, kind: Jobs.Kind): set<int> {
    set j | j in s.jobs && s.jobs[j].job.kind == kind && (s.jobs[j].state == Jobs.PendingPublish || s.jobs[j].state == Jobs.Published)
  }

  lemma InFlightIsActive(s: Sys, kind: Jobs.Kind)
    ensures InFlight(s, kind) == ActiveIds(s, kind)
  {
    assert forall j :: j in InFlight(s, kind) <==> j in ActiveIds(s, kind);
  }

  predicate SlotFree(s: Sys, m: int, at: int) {
    forall j :: j in s.jobs ==> s.jobs[j].job.monitor != m || s.jobs[j].job.at != at
  }

  /** An admission of a waiting monitor moves its schedule to the next slot after now. It
      inserts the job exactly when fewer than 1000 scheduled jobs are active and the slot is
      free; it records a gap for the slot at that limit, and for a slot missed by two minutes. */
  lemma {:induction false} AdmitExact(s: Sys, m: int, id: int, x: Sealed, now: int)
    requires id !in s.jobs
    ensures var s' := Admit(s, m, id, x, now);
            !Waiting(s, m, now) ==> s' == s
    ensures var s' := Admit(s, m, id, x, now);
            Waiting(s, m, now) ==>
              var next, full := s.schedule[m].next, |InFlight(s, Jobs.Scheduled)| >= 1000;
              var at := if next + 120_000_000 < now then now else next;
              && (id in s'.jobs <==> !full && SlotFree(s, m, at))
              && s'.slotGaps == s.slotGaps + (if full then {SlotGap(m, next, AdmissionLimit)}
                                              else if next + 120_000_000 < now then {SlotGap(m, next, Missed)} else {})
              && s'.reports == s.reports && s'.quarantine == s.quarantine
              && s'.schedule == s.schedule[m := Schedule.Step(s.schedule[m], Schedule.Advance, now)]
  {
    InFlightIsActive(s, Jobs.Scheduled);
    assert HasActive(s, m) <==> exists j :: j in s.jobs && IsActiveFor(s.jobs[j], m);
    if m in s.schedule { assert Listed(s, m, now) <==> Waiting(s, m, now); }
  }

  /** A monitor is a whole slot behind by 30 seconds, or 900 scheduled jobs are active. */
  predicate Busy(s: Sys, now: int) {
    || |InFlight(s, Jobs.Scheduled)| >= 900
    || exists m :: m in s.schedule && !s.schedule[m].paused && !s.schedule[m].deleted && s.schedule[m].next < now - 30_000_000
  }

  /** A manual test is admitted exactly for a monitor that is not deleted, with fewer than ten
      manual jobs active, no pressure and a free slot; nothing else changes. */
  lemma {:induction false} TestExact(s: Sys, m: int, id: int, x: Sealed, now: int)
    requires id !in s.jobs
    ensures var s' := TestNow(s, m, id, x, now);
            && (id in s'.jobs <==> m in s.schedule && !s.schedule[m].deleted && |InFlight(s, Jobs.Manual)| < 10 && !Busy(s, now) && SlotFree(s, m, now))
            && s' == s.(jobs := s'.jobs) && forall j :: j in s.jobs ==> j in s'.jobs && s'.jobs[j] == s.jobs[j]
  {
    InFlightIsActive(s, Jobs.Scheduled);
    InFlightIsActive(s, Jobs.Manual);
  }

  /** Event e records gap g: the slot a waiting monitor is due at, refused or missed. */
  predicate RecordsGap(s: Sys, e: Event, g: SlotGap) {
    && e.Admits? && e.m == g.monitor && Waiting(s, e.m, e.now) && g.at == s.schedule[e.m].next
    && match g.reason
       case AdmissionLimit => |InFlight(s, Jobs.Scheduled)| >= 1000
       case Missed => |InFlight(s, Jobs.Scheduled)| < 1000 && g.at + 120_000_000 < e.now
  }

  lemma {:induction false} StepGaps(s: Sys, e: Event, rules: int -> Incidents.Rule, g: SlotGap)
    requires Allowed(s, e)
    ensures g in Step(s, e, rules).slotGaps <==> g in s.slotGaps || RecordsGap(s, e, g)
  {
    if e.Admits? {
      AdmitExact(s, e.m, e.id, e.x, e.now);
    } else {
      assert Step(s, e, rules).slotGaps == s.slotGaps;
    }
  }

  ghost predicate RecordsGapAt(es: seq<Event>, k: nat, rules: int -> Incidents.Rule, g: SlotGap)
    requires k < |es|
  {
    RecordsGap(Run(es[..k], rules), es[k], g)
  }

  /** In every run the recorded gaps are exactly the slots refused at the limit and the slots missed. */
  lemma {:induction false} GapsExact(es: seq<Event>, rules: int -> Incidents.Rule, g: SlotGap)
    requires Legal(es, rules)
    ensures g in Run(es, rules).slotGaps <==> exists k :: 0 <= k < |es| && RecordsGapAt(es, k, rules, g)
  {
    if es != [] {
      var n := |es| - 1;
      GapsExact(es[..n], rules, g);
      StepGaps(Run(es[..n], rules), es[n], rules, g);
      assert RecordsGapAt(es, n, rules, g) <==> RecordsGap(Run(es[..n], rules), es[n], g);
      forall k | 0 <= k < n ensures RecordsGapAt(es[..n], k, rules, g) <==> RecordsGapAt(es, k, rules, g) {
        assert es[..n][..k] == es[..k];
      }
    }
  }

  /** In every run a sweep expires exactly the jobs in flight past their expiry, with the gap,
      and taking back leases hands exactly the ones that ran out to another try or gives up. */
  lemma {:induction false} SweepsExact(es: seq<Event>, rules: int -> Incidents.Rule, now: int, j: int)
    requires Legal(es, rules) && j in Run(es, rules).jobs
    ensures var s := Run(es, rules);
            var c, s' := s.jobs[j], Step(s, SweepAll(now), rules);
            && s'.jobs.Keys == s.jobs.Keys && s' == s.(jobs := s'.jobs)
            && s'.jobs[j] == if (c.state == Jobs.PendingPublish || c.state == Jobs.Published) && c.job.expires < now
                             then c.(state := Jobs.Expired, gaps := c.gaps + {Jobs.ExpiredGap}) else c
    ensures var s := Run(es, rules);
            var c, s' := s.jobs[j], Step(s, ReclaimAll(now), rules);
            && s'.jobs.Keys == s.jobs.Keys && s' == s.(jobs := s'.jobs)
            && s'.jobs[j] == if c.outbox.publish == Jobs.Publishing && c.outbox.leaseUntil < now
                             then c.(outbox := c.outbox.(publish := if c.outbox.attempts == 3 then Jobs.Ambiguous else Jobs.Pending, token := None))
                             else c
  {
    EveryRunInv(es, rules);
    assert JobOk(Run(es, rules), j);
  }

  // ------------------------------------------------------------ acceptance

  /** Event k delivers r to job j, which has none yet: r suits the job and its id is no other
      job's accepted result's. */
  ghost predicate AcceptsAt(es: seq<Event>, k: nat, rules: int -> Incidents.Rule, j: int, r: Jobs.Result)
    requires k < |es|
  {
    var s := Run(es[..k], rules);
    && es[k].Consumes? && es[k].id == j && es[k].r == r && j in s.jobs && s.jobs[j].accepted.None?
    && Jobs.Suits(s.jobs[j].job, Jobs.Deliver(r, es[k].now, false, false))
    && forall i :: i in s.jobs && i != j && s.jobs[i].accepted.Some? ==> s.jobs[i].accepted.value.id != r.id
  }

  lemma {:induction false} ConsumeAccepts(s: Sys, id: int, r: Jobs.Result, now: int, incident: int, rules: int -> Incidents.Rule, j: int, x: Jobs.Result)
    requires JobsOk(s) && j in s.jobs
    ensures var s' := Consume(s, id, r, now, incident, rules);
            j in s'.jobs && (s'.jobs[j].accepted == Some(x) <==>
              || s.jobs[j].accepted == Some(x)
              || (id == j && r == x && s.jobs[j].accepted.None? && Jobs.Suits(s.jobs[j].job, Jobs.Deliver(r, now, false, false)) &&
                  forall i :: i in s.jobs && i != j && s.jobs[i].accepted.Some? ==> s.jobs[i].accepted.value.id != r.id))
  {
    assert JobOk(s, j);
    var e := Jobs.Deliver(r, now, Reused(s, j, r.id), r.id in s.quarantine);
    if id == j {
      Jobs.DeliveryAnswer(s.jobs[j], e);
      assert Reused(s, j, r.id) <==> exists i :: i in s.jobs && i != j && HasResult(s.jobs[i], r.id);
    }
    if VerdictOf(s, id, r, now) != Jobs.Rejected { ConsumeFrame(s, id, r, now, incident, rules); }
  }

  lemma {:induction false} StepAccepted(s: Sys, e: Event, rules: int -> Incidents.Rule, j: int)
    requires JobsOk(s) && Allowed(s, e) && !e.Consumes? && j in Step(s, e, rules).jobs
    ensures Step(s, e, rules).jobs[j].accepted == if j in s.jobs then s.jobs[j].accepted else None
  {
    match e
    case OnJob(id, je) =>
      if id in s.jobs { OnJobMoves(s, id, je); }
    case ReclaimAll(now) =>
      EachJobMoves(s, Jobs.Reclaims(now));
      assert MovedJob(s.jobs[j], EachJob(s, Jobs.Reclaims(now)).jobs[j]);
    case SweepAll(now) =>
      EachJobMoves(s, Jobs.Sweep(now));
      assert MovedJob(s.jobs[j], EachJob(s, Jobs.Sweep(now)).jobs[j]);
    case Create(_, _, _, _) =>
    case Change(_, _, _) =>
    case Admits(m, id, x, now) =>
    case Tests(m, id, x, now) =>
    case ResultDLQ(_) =>
    case OnReport(_, _) =>
  }

  ghost predicate AcceptedIn(es: seq<Event>, rules: int -> Incidents.Rule, j: int, r: Jobs.Result) {
    exists k :: 0 <= k < |es| && AcceptsAt(es, k, rules, j, r)
  }

  lemma {:induction false} AcceptedInSnoc(es: seq<Event>, rules: int -> Incidents.Rule, j: int, r: Jobs.Result)
    requires es != []
    ensures var n := |es| - 1; AcceptedIn(es, rules, j, r) <==> AcceptedIn(es[..n], rules, j, r) || AcceptsAt(es, n, rules, j, r)
  {
    var n := |es| - 1;
    forall k | 0 <= k < n ensures AcceptsAt(es[..n], k, rules, j, r) <==> AcceptsAt(es, k, rules, j, r) {
      assert es[..n][..k] == es[..k];
    }
  }

  lemma {:induction false} LastAccepts(es: seq<Event>, rules: int -> Incidents.Rule, j: int, r: Jobs.Result, s: Sys)
    requires es != [] && s == Run(es[..|es| - 1], rules) && Inv(s, rules) && Allowed(s, es[|es| - 1]) && j in s.jobs
    ensures var n := |es| - 1;
            j in Run(es, rules).jobs &&
            (Run(es, rules).jobs[j].accepted == Some(r) <==> s.jobs[j].accepted == Some(r) || AcceptsAt(es, n, rules, j, r))
  {
    var e := es[|es| - 1];
    if e.Consumes? {
      ConsumeAccepts(s, e.id, e.r, e.now, e.incident, rules, j, r);
    } else {
      StepKeepsAccepted(s, e, rules);
      assert KeepsJob(s, Step(s, e, rules), j);
      StepAccepted(s, e, rules, j);
    }
  }

  lemma {:induction false} NewJobsEmpty(s: Sys, e: Event, rules: int -> Incidents.Rule, j: int)
    requires JobsOk(s) && Allowed(s, e) && j !in s.jobs && j in Step(s, e, rules).jobs
    ensures Step(s, e, rules).jobs[j].accepted == None
  {
    if e.Consumes? {
      if VerdictOf(s, e.id, e.r, e.now) != Jobs.Rejected { ConsumeFrame(s, e.id, e.r, e.now, e.incident, rules); }
    } else {
      StepAccepted(s, e, rules, j);
    }
  }

  /** In every run a job's accepted result is r exactly when one consumption delivered r while
      nothing was accepted, suiting the job and with an id no other job's result had. */
  lemma {:induction false} AcceptedIff(es: seq<Event>, rules: int -> Incidents.Rule, j: int, r: Jobs.Result)
    requires Legal(es, rules) && j in Run(es, rules).jobs
    ensures Run(es, rules).jobs[j].accepted == Some(r) <==> AcceptedIn(es, rules, j, r)
  {
    var n := |es| - 1;
    var s := Run(es[..n], rules);
    EveryRunInv(es[..n], rules);
    AcceptedInSnoc(es, rules, j, r);
    if j in s.jobs {
      AcceptedIff(es[..n], rules, j, r);
      LastAccepts(es, rules, j, r, s);
    } else {
      NewJobsEmpty(s, es[n], rules, j);
      NeverAccepted(es[..n], rules, j, r);
    }
  }

  /** A job that is not there has never been there. */
  lemma {:induction false} NeverAccepted(es: seq<Event>, rules: int -> Incidents.Rule, j: int, r: Jobs.Result)
    requires Legal(es, rules) && j !in Run(es, rules).jobs
    ensures !AcceptedIn(es, rules, j, r)
  {
    forall k | 0 <= k < |es| ensures !AcceptsAt(es, k, rules, j, r) {
      RunKeepsAccepted(es, k, rules);
      assert j in Run(es[..k], rules).jobs ==> KeepsJob(Run(es[..k], rules), Run(es, rules), j);
    }
  }
}
