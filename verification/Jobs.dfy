/** One check job: its ledger row, outbox row, publisher calls, deliveries and gaps
    (internal/fifo). Every statement of the source touches one job by its id, or all
    jobs independently, so the system is a map of these machines. */
module Jobs {
  import opened Positions

  const SECOND := 1_000_000
  const MINUTE := 60 * SECOND
  const LEASE := 45 * SECOND
  const SKEW := 5 * SECOND
  const MAX_ATTEMPTS := 3

  datatype Kind = Scheduled | Manual

  /** The columns of check_jobs fixed at creation. */
  datatype Job = Job(kind: Kind, monitor: int, at: int, pool: int, hash: int, expires: int)

  datatype JobState = PendingPublish | Published | Completed | Expired | Dead

  predicate Active(s: JobState) {
    s == PendingPublish || s == Published
  }

  /** What a publisher hands to the queue. */
  datatype Message = Message(body: int, dedup: int, group: int, hash: int, expires: int)

  /** publish_state: Delivered is 'published', Lapsed is 'expired'. */
  datatype Publish = Pending | Publishing | Delivered | Ambiguous | Lapsed | Repaired

  datatype Outbox = Outbox(message: Message, publish: Publish, attempts: int, token: Option<int>, leaseUntil: int, nextAt: int)

  /** A PublishNext call between its transactions; a crashed call just never moves on. */
  datatype Phase = Claimed | Answered(ok: bool) | Finished
  datatype Claim = Claim(token: int, attempts: int, message: Message, phase: Phase)

  /** A delivered result; authentic says that the envelope, its attributes and its signature check out. */
  datatype Result = Result(authentic: bool, id: int, attempt: int, pool: int, hash: int, at: int, started: int, completed: int, ok: bool)

  datatype Reason = ExpiredGap | DeadGap

  /** gaps: the 'expired' and 'dead' coverage gaps of the job's slot; conflicts: result ids recorded as conflicting. */
  datatype Cell = Cell(
    job: Job,
    state: JobState,
    outbox: Outbox,
    claims: seq<Claim>,
    sends: seq<Message>,
    accepted: Option<Result>,
    gaps: set<Reason>,
    conflicts: set<int>)

  function New(job: Job, message: Message, now: int): Cell {
    Cell(job, PendingPublish, Outbox(message, Pending, 0, None, 0, now), [], [], None, {}, {})
  }

  // ------------------------------------------------------------- publisher

  predicate Claimable(o: Outbox, now: int) {
    o.publish == Pending && o.attempts < MAX_ATTEMPTS && o.nextAt <= now
  }

  function Expire(c: Cell): Cell {
    c.(state := if c.state == PendingPublish then Expired else c.state, gaps := c.gaps + {ExpiredGap})
  }

  /** The first transaction of PublishNext; now is the database clock, clock the publisher's. */
  function DoClaim(c: Cell, token: int, now: int, clock: int): Cell {
    if !Claimable(c.outbox, now) then c
    else if clock > c.job.expires then
      Expire(c.(outbox := c.outbox.(publish := Lapsed, attempts := c.outbox.attempts + 1, token := None)))
    else
      var o := c.outbox.(publish := Publishing, attempts := c.outbox.attempts + 1, token := Some(token), leaseUntil := now + LEASE);
      c.(outbox := o, claims := c.claims + [Claim(token, o.attempts, o.message, Claimed)])
  }

  /** The Send call; an error does not say whether the queue kept the message. */
  function DoSend(c: Cell, i: int, ok: bool): Cell {
    if 0 <= i < |c.claims| && c.claims[i].phase == Claimed then
      c.(claims := c.claims[i := c.claims[i].(phase := Answered(ok))], sends := c.sends + [c.claims[i].message])
    else c
  }

  function Delay(attempts: int): int {
    if attempts >= 3 then 120 * SECOND else if attempts == 2 then 20 * SECOND else 10 * SECOND
  }

  function MarkPublished(o: Outbox, token: int): Outbox {
    if o.token == Some(token) then o.(publish := Delivered, token := None) else o
  }

  function MarkFailure(o: Outbox, claim: Claim, now: int): Outbox {
    if o.token == Some(claim.token) then
      o.(publish := if claim.attempts >= 3 then Ambiguous else Pending, nextAt := now + Delay(claim.attempts), token := None)
    else o
  }

  /** The last transaction of PublishNext. */
  function DoOutcome(c: Cell, i: int, now: int): Cell {
    if 0 <= i < |c.claims| && c.claims[i].phase.Answered? then
      var claim := c.claims[i];
      var c' := c.(claims := c.claims[i := claim.(phase := Finished)]);
      if claim.phase.ok then
        c'.(outbox := MarkPublished(c.outbox, claim.token), state := if c.state == PendingPublish then Published else c.state)
      else c'.(outbox := MarkFailure(c.outbox, claim, now))
    else c
  }

  function Reclaim(o: Outbox, now: int): Outbox {
    if o.publish == Publishing && o.leaseUntil < now then
      o.(publish := if o.attempts >= MAX_ATTEMPTS then Ambiguous else Pending, token := None)
    else o
  }

  // -------------------------------------------------------------- consumer

  predicate Valid(j: Job, r: Result, now: int) {
    && r.authentic && r.pool == j.pool && r.hash == j.hash && r.at == j.at
    && j.at - SKEW <= r.started <= j.expires + SKEW
    && r.completed <= now + SKEW
  }

  predicate SameResult(a: Result, b: Result) {
    a.hash == b.hash && a.attempt == b.attempt && a.id == b.id
  }

  /** Does not clear the lease token. */
  function Repair(o: Outbox): Outbox {
    if o.publish == Delivered then o else o.(publish := Repaired)
  }

  datatype Verdict = Rejected | Accepts | Duplicate | Conflict

  /** What ConsumeNext's transaction commits. reused: another job's accepted result has
      this id; quarantined: the id is in monitoring_quarantine already, which makes the
      conflict transaction fail. */
  function Judge(c: Cell, r: Result, now: int, reused: bool, quarantined: bool): Verdict {
    if !Valid(c.job, r, now) then Rejected
    else if c.accepted.Some? then
      if SameResult(c.accepted.value, r) then Duplicate
      else if quarantined then Rejected else Conflict
    else if reused then Rejected else Accepts
  }

  function DoDeliver(c: Cell, r: Result, now: int, reused: bool, quarantined: bool): Cell {
    match Judge(c, r, now, reused, quarantined)
    case Rejected => c
    case Accepts => c.(state := Completed, accepted := Some(r), outbox := Repair(c.outbox), gaps := {})
    case Duplicate => c.(outbox := Repair(c.outbox))
    case Conflict => c.(conflicts := c.conflicts + {r.id})
  }

  // ------------------------------------------------------- sweeps and DLQ

  function DoSweep(c: Cell, now: int): Cell {
    if Active(c.state) && c.job.expires < now && c.accepted.None? then
      c.(state := Expired, gaps := c.gaps + {ExpiredGap})
    else c
  }

  function DoDeadLetter(c: Cell, pool: int): Cell {
    if pool == c.job.pool && c.state != Completed then c.(state := Dead, gaps := c.gaps + {DeadGap}) else c
  }

  datatype Event =
    | Claims(token: int, now: int, clock: int)
    | Sends(i: int, ok: bool)
    | Outcome(i: int, now: int)
    | Reclaims(now: int)
    | Deliver(r: Result, now: int, reused: bool, quarantined: bool)
    | Sweep(now: int)
    | DeadLetter(pool: int)

  function Step(c: Cell, e: Event): Cell {
    match e
    case Claims(token, now, clock) => DoClaim(c, token, now, clock)
    case Sends(i, ok) => DoSend(c, i, ok)
    case Outcome(i, now) => DoOutcome(c, i, now)
    case Reclaims(now) => c.(outbox := Reclaim(c.outbox, now))
    case Deliver(r, now, reused, quarantined) => DoDeliver(c, r, now, reused, quarantined)
    case Sweep(now) => DoSweep(c, now)
    case DeadLetter(pool) => DoDeadLetter(c, pool)
  }

  /** Lease tokens are random UUIDs: a new one differs from those handed out before. */
  predicate Allowed(c: Cell, e: Event) {
    e.Claims? ==> forall i :: 0 <= i < |c.claims| ==> c.claims[i].token != e.token
  }

  function Run(c: Cell, es: seq<Event>): Cell {
    if es == [] then c else Step(Run(c, es[..|es| - 1]), es[|es| - 1])
  }

  predicate Legal(c: Cell, es: seq<Event>) {
    es == [] || (Legal(c, es[..|es| - 1]) && Allowed(Run(c, es[..|es| - 1]), es[|es| - 1]))
  }

  // -------------------------------------------------------------- invariant

  /** How many of the calls have sent. */
  function Answers(claims: seq<Claim>): nat {
    if claims == [] then 0 else
      Answers(claims[..|claims| - 1]) + if claims[|claims| - 1].phase == Claimed then 0 else 1
  }

  /** The lease belongs to the newest call, which has not recorded its outcome. */
  ghost predicate HoldsLease(c: Cell) {
    && c.claims != []
    && var last := c.claims[|c.claims| - 1];
       c.outbox.token == Some(last.token) && last.attempts == c.outbox.attempts && last.phase != Finished
  }

  ghost predicate Tokens(claims: seq<Claim>) {
    forall i, j :: 0 <= i < j < |claims| ==> claims[i].token != claims[j].token
  }

  ghost predicate OutboxOk(c: Cell) {
    var o := c.outbox;
    && |c.claims| <= o.attempts <= MAX_ATTEMPTS
    && (o.publish == Pending ==> o.attempts < MAX_ATTEMPTS)
    && (o.publish == Publishing ==> o.token.Some?)
    && (o.token.Some? ==> HoldsLease(c) && (o.publish == Publishing || o.publish == Repaired))
    && Tokens(c.claims)
  }

  ghost predicate SendsOk(c: Cell) {
    && (forall i :: 0 <= i < |c.claims| ==> c.claims[i].message == c.outbox.message)
    && (forall i :: 0 <= i < |c.sends| ==> c.sends[i] == c.outbox.message)
    && |c.sends| == Answers(c.claims)
  }

  ghost predicate LedgerOk(c: Cell) {
    && (c.state == Completed <==> c.accepted.Some?)
    && (c.state == Expired ==> ExpiredGap in c.gaps)
    && (c.state == Dead ==> DeadGap in c.gaps)
    && (c.accepted.Some? ==> c.accepted.value.hash == c.job.hash && c.accepted.value.at == c.job.at)
  }

  ghost predicate Safe(c: Cell) {
    OutboxOk(c) && SendsOk(c) && LedgerOk(c)
  }

  lemma {:induction false} AnswersBound(claims: seq<Claim>)
    ensures Answers(claims) <= |claims|
  {
    if claims != [] { AnswersBound(claims[..|claims| - 1]); }
  }

  lemma {:induction false} AnswersUpdate(claims: seq<Claim>, i: nat, claim: Claim)
    requires i < |claims|
    ensures Answers(claims[i := claim]) == Answers(claims)
              + (if claim.phase == Claimed then 0 else 1) - (if claims[i].phase == Claimed then 0 else 1)
  {
    var n, s := |claims| - 1, claims[i := claim];
    if i < n {
      AnswersUpdate(claims[..n], i, claim);
      assert s[..n] == claims[..n][i := claim];
    } else {
      assert s[..n] == claims[..n];
    }
  }

  lemma {:induction false} StepOutbox(c: Cell, e: Event)
    requires OutboxOk(c) && Allowed(c, e)
    ensures OutboxOk(Step(c, e))
  {
    match e
    case Claims(token, now, clock) => ClaimKeepsOutbox(c, token, now, clock);
    case Outcome(i, now) => OutcomeKeepsOutbox(c, i, now);
    case Sends(i, ok) =>
    case Reclaims(now) =>
    case _ => assert Step(c, e).claims == c.claims;
  }

  lemma {:induction false} ClaimKeepsOutbox(c: Cell, token: int, now: int, clock: int)
    requires OutboxOk(c) && Allowed(c, Claims(token, now, clock))
    ensures OutboxOk(DoClaim(c, token, now, clock))
  {
  }

  lemma {:induction false} OutcomeKeepsOutbox(c: Cell, i: int, now: int)
    requires OutboxOk(c)
    ensures OutboxOk(DoOutcome(c, i, now))
  {
  }

  lemma {:induction false} ClaimSends(c: Cell, token: int, now: int, clock: int)
    requires SendsOk(c)
    ensures SendsOk(DoClaim(c, token, now, clock))
  {
    var c' := DoClaim(c, token, now, clock);
    if c'.claims != c.claims { assert c'.claims[..|c.claims|] == c.claims; }
  }

  lemma {:induction false} SendSends(c: Cell, i: int, ok: bool)
    requires SendsOk(c)
    ensures SendsOk(DoSend(c, i, ok))
  {
    if 0 <= i < |c.claims| { AnswersUpdate(c.claims, i, c.claims[i].(phase := Answered(ok))); }
  }

  lemma {:induction false} OutcomeSends(c: Cell, i: int, now: int)
    requires SendsOk(c)
    ensures SendsOk(DoOutcome(c, i, now))
  {
    if 0 <= i < |c.claims| { AnswersUpdate(c.claims, i, c.claims[i].(phase := Finished)); }
  }

  lemma {:induction false} StepSends(c: Cell, e: Event)
    requires SendsOk(c)
    ensures SendsOk(Step(c, e))
  {
    match e
    case Claims(token, now, clock) => ClaimSends(c, token, now, clock);
    case Sends(i, ok) => SendSends(c, i, ok);
    case Outcome(i, now) => OutcomeSends(c, i, now);
    case _ =>
      var c' := Step(c, e);
      assert c'.claims == c.claims && c'.sends == c.sends && c'.outbox.message == c.outbox.message;
  }

  lemma {:induction false} StepLedger(c: Cell, e: Event)
    requires LedgerOk(c)
    ensures LedgerOk(Step(c, e))
    ensures Step(c, e).job == c.job && Step(c, e).outbox.message == c.outbox.message
    ensures !Active(c.state) ==> !Active(Step(c, e).state)
    ensures c.accepted.Some? ==> Step(c, e).accepted == c.accepted
  {
  }

  lemma {:induction false} EveryRunSafe(job: Job, message: Message, now: int, es: seq<Event>)
    requires Legal(New(job, message, now), es)
    ensures var c := Run(New(job, message, now), es); Safe(c) && c.job == job && c.outbox.message == message
  {
    if es != [] {
      var front, e := es[..|es| - 1], es[|es| - 1];
      EveryRunSafe(job, message, now, front);
      var c := Run(New(job, message, now), front);
      StepOutbox(c, e);
      StepSends(c, e);
      StepLedger(c, e);
    }
  }

  // ---------------------------------------------------------- main theorems

  /** At most three sends in every run, all of the message written at creation. */
  lemma {:induction false} AtMostThreeSends(job: Job, message: Message, now: int, es: seq<Event>)
    requires Legal(New(job, message, now), es)
    ensures var c := Run(New(job, message, now), es);
            && |c.sends| <= c.outbox.attempts <= 3
            && (forall i :: 0 <= i < |c.sends| ==> c.sends[i] == message)
            && (c.outbox.publish == Pending ==> c.outbox.attempts < 3)
  {
    EveryRunSafe(job, message, now, es);
    AnswersBound(Run(New(job, message, now), es).claims);
  }

  /** A published row never changes again. */
  lemma {:induction false} DeliveredForever(c: Cell, more: seq<Event>)
    requires OutboxOk(c) && c.outbox.publish == Delivered && Legal(c, more)
    ensures Run(c, more).outbox == c.outbox
    ensures OutboxOk(Run(c, more))
  {
    if more != [] {
      DeliveredForever(c, more[..|more| - 1]);
      StepOutbox(Run(c, more[..|more| - 1]), more[|more| - 1]);
    }
  }

  /** The outcome of a call changes the outbox row exactly when the call still holds the lease. */
  lemma {:induction false} StaleOutcome(job: Job, message: Message, start: int, es: seq<Event>, i: int, now: int)
    requires Legal(New(job, message, start), es)
    ensures var c := Run(New(job, message, start), es);
            0 <= i < |c.claims| && c.claims[i].phase.Answered? ==>
              (Step(c, Outcome(i, now)).outbox != c.outbox <==> c.outbox.token == Some(c.claims[i].token))
    ensures var c := Run(New(job, message, start), es);
            c.outbox.token.Some? ==>
              forall k :: 0 <= k < |c.claims| ==> (c.outbox.token == Some(c.claims[k].token) <==> k == |c.claims| - 1)
  {
    EveryRunSafe(job, message, start, es);
  }

  /** What recording the outcome of call i does, in every run. The holder of the lease
      publishes the row, or hands it back for 10 seconds after its first failure and 20
      after its second, or gives up after the third; a call without the lease leaves the
      row alone. A successful send publishes a pending job either way. */
  lemma {:induction false} OutcomeRecorded(job: Job, message: Message, start: int, es: seq<Event>, i: int, now: int)
    requires Legal(New(job, message, start), es)
    requires var c := Run(New(job, message, start), es); 0 <= i < |c.claims| && c.claims[i].phase.Answered?
    ensures var c := Run(New(job, message, start), es);
            var o := Step(c, Outcome(i, now)).outbox;
            if c.outbox.token != Some(c.claims[i].token) then o == c.outbox
            else if c.claims[i].phase.ok then o == c.outbox.(publish := Delivered, token := None)
            else
              && 1 <= c.outbox.attempts <= 3
              && (c.outbox.attempts == 1 ==> o == c.outbox.(publish := Pending, token := None, nextAt := now + 10_000_000))
              && (c.outbox.attempts == 2 ==> o == c.outbox.(publish := Pending, token := None, nextAt := now + 20_000_000))
              && (c.outbox.attempts == 3 ==> o == c.outbox.(publish := Ambiguous, token := None, nextAt := now + 120_000_000))
    ensures var c := Run(New(job, message, start), es);
            var c' := Step(c, Outcome(i, now));
            && c'.state == (if c.state == PendingPublish && c.claims[i].phase.ok then Published else c.state)
            && c'.claims == c.claims[i := c.claims[i].(phase := Finished)]
            && c' == c.(state := c'.state, outbox := c'.outbox, claims := c'.claims)
  {
    EveryRunSafe(job, message, start, es);
  }

  /** c' is c after a claim: it takes a pending row that is due, for 45 seconds; past the
      job's expiry it gives the row up with a gap, and the job too if nothing was published. */
  predicate ClaimedFrom(c: Cell, c': Cell, token: int, now: int, clock: int) {
    var o := c.outbox;
    if o.publish != Pending || now < o.nextAt then c' == c
    else if clock <= c.job.expires then
      c' == c.(outbox := Outbox(o.message, Publishing, o.attempts + 1, Some(token), now + 45_000_000, o.nextAt),
               claims := c.claims + [Claim(token, o.attempts + 1, o.message, Claimed)])
    else
      c' == c.(outbox := Outbox(o.message, Lapsed, o.attempts + 1, None, o.leaseUntil, o.nextAt), gaps := c.gaps + {ExpiredGap},
               state := if c.state == PendingPublish then Expired else c.state)
  }

  lemma {:induction false} DueIsClaimed(c: Cell, token: int, now: int, clock: int)
    requires c.outbox.publish == Pending ==> c.outbox.attempts < MAX_ATTEMPTS
    ensures ClaimedFrom(c, DoClaim(c, token, now, clock), token, now, clock)
  {
  }

  /** What PublishNext's claim does, in every run. */
  lemma {:induction false} ClaimExact(job: Job, message: Message, start: int, es: seq<Event>, token: int, now: int, clock: int)
    requires Legal(New(job, message, start), es)
    ensures var c := Run(New(job, message, start), es); ClaimedFrom(c, Step(c, Claims(token, now, clock)), token, now, clock)
  {
    EveryRunSafe(job, message, start, es);
    DueIsClaimed(Run(New(job, message, start), es), token, now, clock);
  }

  /** A lease is taken back only once it has run out, for another try while there is one. */
  lemma {:induction false} ReclaimExact(job: Job, message: Message, start: int, es: seq<Event>, now: int)
    requires Legal(New(job, message, start), es)
    ensures var c := Run(New(job, message, start), es);
            var c', o := Step(c, Reclaims(now)), c.outbox;
            if o.publish == Publishing && o.leaseUntil < now
            then c' == c.(outbox := o.(publish := if o.attempts == 3 then Ambiguous else Pending, token := None))
            else c' == c
  {
    EveryRunSafe(job, message, start, es);
  }

  lemma {:induction false} SweptFrom(c: Cell, now: int, pool: int)
    requires LedgerOk(c)
    ensures DoSweep(c, now) ==
              if (c.state == PendingPublish || c.state == Published) && c.job.expires < now
              then c.(state := Expired, gaps := c.gaps + {ExpiredGap}) else c
    ensures DoDeadLetter(c, pool) ==
              if pool == c.job.pool && c.accepted.None? then c.(state := Dead, gaps := c.gaps + {DeadGap}) else c
  {
  }

  /** A sweep expires exactly the active jobs past their expiry, and a dead letter of the
      job's pool kills exactly a job without an accepted result; each with its gap. */
  lemma {:induction false} SweepExact(job: Job, message: Message, start: int, es: seq<Event>, now: int, pool: int)
    requires Legal(New(job, message, start), es)
    ensures var c := Run(New(job, message, start), es);
            Step(c, Sweep(now)) ==
              if (c.state == PendingPublish || c.state == Published) && job.expires < now
              then c.(state := Expired, gaps := c.gaps + {ExpiredGap}) else c
    ensures var c := Run(New(job, message, start), es);
            Step(c, DeadLetter(pool)) ==
              if pool == job.pool && c.accepted.None? then c.(state := Dead, gaps := c.gaps + {DeadGap}) else c
  {
    EveryRunSafe(job, message, start, es);
    SweptFrom(Run(New(job, message, start), es), now, pool);
  }

  /** The first PublishNext of a job publishes it when the queue takes the message. */
  lemma {:induction false} FirstPublication(job: Job, message: Message, start: int, token: int, now: int, clock: int, later: int)
    requires start <= now && clock <= job.expires
    ensures var c := Run(New(job, message, start), [Claims(token, now, clock), Sends(0, true), Outcome(0, later)]);
            c.state == Published && c.outbox.publish == Delivered && c.sends == [message]
  {
    RunThree(New(job, message, start), Claims(token, now, clock), Sends(0, true), Outcome(0, later));
  }

  /** A job that is no longer active stays so; a completed one keeps its result, */
  lemma {:induction false} TerminalForever(c: Cell, more: seq<Event>)
    requires LedgerOk(c)
    ensures LedgerOk(Run(c, more)) && Run(c, more).job == c.job
    ensures !Active(c.state) ==> !Active(Run(c, more).state)
    ensures c.state == Completed ==> Run(c, more).state == Completed && Run(c, more).accepted == c.accepted
  {
    if more != [] {
      TerminalForever(c, more[..|more| - 1]);
      StepLedger(Run(c, more[..|more| - 1]), more[|more| - 1]);
    }
  }

  /** and in every run a job is completed exactly when it has an accepted result,
      and an expired or dead one has the gap. */
  lemma {:induction false} LedgerAgrees(job: Job, message: Message, now: int, es: seq<Event>)
    requires Legal(New(job, message, now), es)
    ensures var c := Run(New(job, message, now), es);
            && (c.state == Completed <==> c.accepted.Some?)
            && (c.state == Expired ==> ExpiredGap in c.gaps)
            && (c.state == Dead ==> DeadGap in c.gaps)
  {
    EveryRunSafe(job, message, now, es);
  }

  /** A delivery the job can take: signed, for its pool, snapshot and slot, started within
      five seconds of its window and not completed more than five seconds from now. */
  predicate Suits(job: Job, e: Event) {
    && e.Deliver? && e.r.authentic && e.r.pool == job.pool && e.r.hash == job.hash && e.r.at == job.at
    && job.at - 5_000_000 <= e.r.started <= job.expires + 5_000_000
    && e.r.completed <= e.now + 5_000_000
  }

  /** The first such delivery whose id is free. */
  function FirstSuited(job: Job, es: seq<Event>): Option<Result> {
    if es == [] then None
    else if Suits(job, es[0]) && !es[0].reused then Some(es[0].r)
    else FirstSuited(job, es[1..])
  }

  lemma {:induction false} FirstSuitedSnoc(job: Job, es: seq<Event>, e: Event)
    ensures FirstSuited(job, es + [e]) ==
            if FirstSuited(job, es).Some? then FirstSuited(job, es)
            else if Suits(job, e) && !e.reused then Some(e.r) else None
  {
    if es == [] {
      assert es + [e] == [e] && [e][1..] == [];
    } else {
      FirstSuitedSnoc(job, es[1..], e);
      assert (es + [e])[1..] == es[1..] + [e] && (es + [e])[0] == es[0];
    }
  }

  /** What one delivery does to a job, by the delivery's fields alone. */
  lemma {:induction false} DeliveryAnswer(c: Cell, e: Event)
    requires LedgerOk(c) && e.Deliver?
    ensures var v := Judge(c, e.r, e.now, e.reused, e.quarantined);
            && (v == Accepts <==> Suits(c.job, e) && c.accepted.None? && !e.reused)
            && (v == Duplicate <==> Suits(c.job, e) && c.accepted.Some? && c.accepted.value.attempt == e.r.attempt && c.accepted.value.id == e.r.id)
            && (v == Conflict <==> Suits(c.job, e) && c.accepted.Some? && !e.quarantined &&
                                   (c.accepted.value.attempt != e.r.attempt || c.accepted.value.id != e.r.id))
    ensures var v, c' := Judge(c, e.r, e.now, e.reused, e.quarantined), Step(c, e);
            && (v == Rejected ==> c' == c)
            && (v == Accepts ==> c'.accepted == Some(e.r) && c'.state == Completed && c'.gaps == {} && c'.conflicts == c.conflicts)
            && (v == Duplicate ==> c' == c.(outbox := c'.outbox))
            && (v == Conflict ==> c' == c.(conflicts := c.conflicts + {e.r.id}))
            && (v == Accepts || v == Duplicate ==>
                  c'.outbox == c.outbox.(publish := if c.outbox.publish == Delivered then Delivered else Repaired))
  {
  }

  /** Exactly-one acceptance: whatever is delivered, in whatever order and however often,
      between whatever other steps, the accepted result is the first one the job can take. */
  lemma {:induction false} AcceptedIsFirst(job: Job, message: Message, now: int, es: seq<Event>)
    requires Legal(New(job, message, now), es)
    ensures Run(New(job, message, now), es).accepted == FirstSuited(job, es)
  {
    if es != [] {
      var front, e := es[..|es| - 1], es[|es| - 1];
      AcceptedIsFirst(job, message, now, front);
      EveryRunSafe(job, message, now, front);
      assert es == front + [e];
      FirstSuitedSnoc(job, front, e);
      if e.Deliver? { DeliveryAnswer(Run(New(job, message, now), front), e); }
    }
  }

  /** The k-th event is an answer that differs from the accepted one, with an id that is not quarantined. */
  predicate Contradicts(job: Job, es: seq<Event>, k: nat, id: int)
    requires k < |es|
  {
    && Suits(job, es[k]) && !es[k].quarantined && es[k].r.id == id
    && var first := FirstSuited(job, es[..k]);
       first.Some? && (first.value.attempt != es[k].r.attempt || first.value.id != id)
  }

  /** In every run the recorded conflicts are exactly the answers that contradict the first. */
  lemma {:induction false} ConflictsExact(job: Job, message: Message, now: int, es: seq<Event>, id: int)
    requires Legal(New(job, message, now), es)
    ensures id in Run(New(job, message, now), es).conflicts <==> exists k :: 0 <= k < |es| && Contradicts(job, es, k, id)
  {
    if es != [] {
      var n := |es| - 1;
      var front, e, c := es[..n], es[n], Run(New(job, message, now), es[..n]);
      ConflictsExact(job, message, now, front, id);
      EveryRunSafe(job, message, now, front);
      AcceptedIsFirst(job, message, now, front);
      if e.Deliver? { DeliveryAnswer(c, e); }
      assert id in Step(c, e).conflicts <==> id in c.conflicts || Contradicts(job, es, n, id);
      forall k | 0 <= k < n ensures Contradicts(job, front, k, id) <==> Contradicts(job, es, k, id) {
        assert front[..k] == es[..k];
      }
      if exists k :: 0 <= k < n && Contradicts(job, front, k, id) {
        var k :| 0 <= k < n && Contradicts(job, front, k, id);
        assert Contradicts(job, es, k, id);
      }
    }
  }

  // ------------------------------------------- gaps that return after acceptance

  /** The current lease's send has not succeeded yet, and its failure would allow another try. */
  ghost predicate MayReturn(c: Cell) {
    && c.outbox.attempts < MAX_ATTEMPTS
    && c.outbox.token.Some? && c.claims != [] && c.claims[|c.claims| - 1].phase != Answered(true)
  }

  /** The outbox row of a completed job can only be claimed again through MayReturn. */
  ghost predicate Settled(c: Cell) {
    && c.state == Completed && c.gaps == {} && OutboxOk(c) && LedgerOk(c)
    && (c.outbox.publish == Delivered || c.outbox.publish == Repaired || c.outbox.publish == Ambiguous)
    && !MayReturn(c)
  }

  lemma {:induction false} StepSettled(c: Cell, e: Event)
    requires Settled(c) && Allowed(c, e)
    ensures var c' := Step(c, e); c'.state == Completed && c'.gaps == {} && !MayReturn(c')
    ensures var o := Step(c, e).outbox; o.publish == Delivered || o.publish == Repaired || o.publish == Ambiguous
  {
    match e
    case Sends(i, ok) => assert Step(c, e).outbox == c.outbox;
    case Outcome(i, now) =>
    case Deliver(r, now, reused, quarantined) => assert Step(c, e).claims == c.claims;
    case _ => assert Step(c, e) == c;
  }

  lemma {:induction false} StaysSettled(c: Cell, es: seq<Event>)
    requires Settled(c) && Legal(c, es)
    ensures Settled(Run(c, es))
  {
    if es != [] {
      var d, e := Run(c, es[..|es| - 1]), es[|es| - 1];
      StaysSettled(c, es[..|es| - 1]);
      StepOutbox(d, e);
      StepLedger(d, e);
      StepSettled(d, e);
    }
  }

  /** A run that brings the gap back, no event of which is before time. */
  function Comeback(c: Cell, token: int, time: int): seq<Event> {
    var last := |c.claims| - 1;
    [Sends(last, false), Outcome(last, time), Claims(token, time + 120 * SECOND, c.job.expires + 1)]
  }

  lemma {:induction false} RunThree(c: Cell, a: Event, b: Event, d: Event)
    ensures Run(c, [a, b, d]) == Step(Step(Step(c, a), b), d)
    ensures Legal(c, [a, b, d]) <==> Allowed(c, a) && Allowed(Step(c, a), b) && Allowed(Step(Step(c, a), b), d)
  {
    assert [a, b, d][..2] == [a, b] && [a, b][..1] == [a] && [a][..0] == [];
    assert Run(c, [a]) == Step(Run(c, []), a);
    assert Run(c, [a, b]) == Step(Run(c, [a]), b);
    assert Legal(c, [a]) <==> Allowed(c, a);
    assert Legal(c, [a, b]) <==> Legal(c, [a]) && Allowed(Run(c, [a]), b);
  }

  lemma {:induction false} ComebackWorks(c: Cell, token: int, time: int)
    requires OutboxOk(c) && c.state == Completed && c.outbox.publish == Repaired && MayReturn(c)
    requires forall i :: 0 <= i < |c.claims| ==> c.claims[i].token != token
    ensures Legal(c, Comeback(c, token, time)) && ExpiredGap in Run(c, Comeback(c, token, time)).gaps
  {
    var last := |c.claims| - 1;
    var a, b, d := Sends(last, false), Outcome(last, time), Claims(token, time + 120 * SECOND, c.job.expires + 1);
    RunThree(c, a, b, d);
    var c1 := Step(c, a);
    assert c1.claims[last].phase == Answered(false);
    var c2 := Step(c1, b);
    assert c2.outbox.publish == Pending;
  }

  /** The gap of a completed job is gone for good exactly when MayReturn is false right
      after the acceptance; otherwise a failed send and a late claim bring it back. */
  lemma {:induction false} GapReturnsIff(job: Job, message: Message, start: int, es: seq<Event>, e: Event, token: int, time: int)
    requires Legal(New(job, message, start), es) && e.Deliver?
    requires Judge(Run(New(job, message, start), es), e.r, e.now, e.reused, e.quarantined) == Accepts
    requires var c := Run(New(job, message, start), es);
             forall i :: 0 <= i < |c.claims| ==> c.claims[i].token != token
    ensures var c := Step(Run(New(job, message, start), es), e);
            && c.state == Completed && c.gaps == {}
            && (MayReturn(c) ==> Legal(c, Comeback(c, token, time)) && ExpiredGap in Run(c, Comeback(c, token, time)).gaps)
            && (!MayReturn(c) ==> forall more :: Legal(c, more) ==> Run(c, more).gaps == {})
  {
    var b := Run(New(job, message, start), es);
    EveryRunSafe(job, message, start, es);
    StepOutbox(b, e);
    StepLedger(b, e);
    var c := Step(b, e);
    if MayReturn(c) {
      ComebackWorks(c, token, time);
    } else {
      forall more | Legal(c, more) ensures Run(c, more).gaps == {} { StaysSettled(c, more); }
    }
  }

  // ------------------------------------------------------------ the statements

  /** The rows of one job, as the services update them. */
  class JobRows {
    const job: Job
    const message: Message
    var state: JobState
    var publish: Publish
    var attempts: int
    var token: Option<int>
    var leaseUntil: int
    var nextAt: int
    var claims: seq<Claim>
    var sends: seq<Message>
    var accepted: Option<Result>
    var gaps: set<Reason>
    var conflicts: set<int>

    constructor (job: Job, message: Message, now: int)
      ensures Now() == New(job, message, now)
    {
      this.job, this.message := job, message;
      state, publish, attempts, token, leaseUntil, nextAt := PendingPublish, Pending, 0, None, 0, now;
      claims, sends, accepted, gaps, conflicts := [], [], None, {}, {};
    }

    function Now(): Cell
      reads this
    {
      Cell(job, state, Outbox(message, publish, attempts, token, leaseUntil, nextAt), claims, sends, accepted, gaps, conflicts)
    }

    /** ClaimDispatchOutbox and, past the expiry, the three statements that give the job up. */
    method ClaimOutbox(lease: int, now: int, clock: int) returns (claim: Option<int>)
      modifies this
      ensures Now() == Step(old(Now()), Claims(lease, now, clock))
      ensures claim.Some? <==> Claimable(old(Now().outbox), now) && clock <= job.expires
      ensures claim.Some? ==> claim.value == |old(claims)|
    {
      claim := None;
      if publish != Pending || attempts >= MAX_ATTEMPTS || nextAt > now { return; }
      attempts := attempts + 1;
      if clock > job.expires {
        publish, token := Lapsed, None;
        if state == PendingPublish { state := Expired; }
        gaps := gaps + {ExpiredGap};
      } else {
        publish, token, leaseUntil := Publishing, Some(lease), now + LEASE;
        claim := Some(|claims|);
        claims := claims + [Claim(lease, attempts, message, Claimed)];
      }
    }

    method RecordOutcome(i: nat, now: int)
      requires i < |claims| && claims[i].phase.Answered?
      modifies this
      ensures Now() == Step(old(Now()), Outcome(i, now))
    {
      var claim := claims[i];
      claims := claims[i := claim.(phase := Finished)];
      if claim.phase.ok {
        if token == Some(claim.token) { publish, token := Delivered, None; }
        if state == PendingPublish { state := Published; }
      } else {
        var next, delay := Pending, 10 * SECOND;
        if claim.attempts == 2 { delay := 20 * SECOND; }
        if claim.attempts >= 3 { next, delay := Ambiguous, 120 * SECOND; }
        if token == Some(claim.token) { publish, nextAt, token := next, now + delay, None; }
      }
    }

    /** A PublishNext call that nothing interrupts; ok is what the queue answers. */
    method PublishNext(lease: int, now: int, clock: int, ok: bool, later: int) returns (claimed: bool)
      modifies this
      ensures var n := |old(claims)|;
              Now() == if claimed then Run(old(Now()), [Claims(lease, now, clock), Sends(n, ok), Outcome(n, later)])
                       else Step(old(Now()), Claims(lease, now, clock))
      ensures claimed <==> Claimable(old(Now().outbox), now) && clock <= job.expires
      ensures claimed ==> attempts == old(attempts) + 1 && token == None && sends == old(sends) + [message]
      ensures claimed && ok ==> publish == Delivered && state == if old(state) == PendingPublish then Published else old(state)
      ensures claimed && !ok ==> state == old(state) && publish == (if attempts < 3 then Pending else Ambiguous) && nextAt > later
    {
      ghost var c, n := Now(), |claims|;
      var claim := ClaimOutbox(lease, now, clock);
      claimed := claim.Some?;
      if claimed {
        var i := claim.value;
        sends := sends + [claims[i].message];
        claims := claims[i := claims[i].(phase := Answered(ok))];
        RecordOutcome(i, later);
        RunThree(c, Claims(lease, now, clock), Sends(n, ok), Outcome(n, later));
      }
    }

    method ReclaimLease(now: int)
      modifies this
      ensures Now() == Step(old(Now()), Reclaims(now))
    {
      if publish == Publishing && leaseUntil < now {
        publish, token := if attempts >= MAX_ATTEMPTS then Ambiguous else Pending, None;
      }
    }

    /** ConsumeNext's transaction; acknowledged says whether the message is deleted afterwards. */
    method Consume(r: Result, now: int, reused: bool, quarantined: bool) returns (acknowledged: bool)
      modifies this
      ensures Now() == Step(old(Now()), Deliver(r, now, reused, quarantined))
      ensures acknowledged <==> Judge(old(Now()), r, now, reused, quarantined) != Rejected
    {
      acknowledged := false;
      if !Valid(job, r, now) { return; }
      if accepted.Some? {
        if !SameResult(accepted.value, r) {
          if quarantined { return; }
          conflicts := conflicts + {r.id};
          return true;
        }
        if publish != Delivered { publish := Repaired; }
        return true;
      }
      if reused { return; }
      accepted, state := Some(r), Completed;
      if publish != Delivered { publish := Repaired; }
      gaps := gaps - {ExpiredGap, DeadGap};
      assert forall g :: g in gaps ==> g.ExpiredGap? || g.DeadGap?;
      acknowledged := true;
    }

    method SweepDeadline(now: int)
      modifies this
      ensures Now() == Step(old(Now()), Sweep(now))
    {
      if Active(state) && job.expires < now && accepted.None? {
        state := Expired;
        gaps := gaps + {ExpiredGap};
      }
    }

    method ReconcileJobDLQ(pool: int)
      modifies this
      ensures Now() == Step(old(Now()), DeadLetter(pool))
    {
      if pool == job.pool && state != Completed {
        state := Dead;
        gaps := gaps + {DeadGap};
      }
    }
  }
}
