/** Delivery of one notification_outbox row (internal/notification/worker.go) by any number
    of workers: lease, call the provider outside the transaction, record the outcome. */
module Notifications {
  import opened Positions

  const MINUTE := 60_000_000
  const MAXIMUM_ATTEMPTS := 4

  datatype Status = Pending | Leased | Accepted | Failed

  datatype Outcome = Took | RetryScheduled | GaveUp

  /** A row of notification_attempts. */
  datatype Attempt = Attempt(number: int, outcome: Outcome, at: int)

  /** A DeliverNext call after its claim; recorded once its last transaction has run. */
  datatype Call = Call(token: int, attempt: int, claimedAt: int, recorded: bool)

  datatype Row = Row(status: Status, count: int, nextAt: int, token: Option<int>, leaseUntil: int, calls: seq<Call>, attempts: seq<Attempt>)

  function New(now: int): Row {
    Row(Pending, 0, now, None, 0, [], [])
  }

  function RetryDelay(completed: int): int {
    if completed == 1 then MINUTE else if completed == 2 then 5 * MINUTE else if completed == 3 then 25 * MINUTE else 0
  }

  function Claim(r: Row, token: int, now: int, lease: int): Row {
    if r.status == Pending && r.nextAt <= now && r.count < MAXIMUM_ATTEMPTS then
      r.(status := Leased, token := Some(token), leaseUntil := now + lease, calls := r.calls + [Call(token, r.count + 1, now, false)])
    else r
  }

  predicate HoldsLease(r: Row, token: int) {
    r.status == Leased && r.token == Some(token)
  }

  function Record(r: Row, attempt: Attempt, status: Status, nextAt: int): Row {
    r.(status := status, count := attempt.number, nextAt := nextAt, token := None, attempts := r.attempts + [attempt])
  }

  /** accept or retryOrFail of call i; without the lease both return ErrLeaseLost. */
  function Answer(r: Row, i: int, ok: bool, at: int): Row {
    if !(0 <= i < |r.calls|) || r.calls[i].recorded then r else
    var c := r.calls[i];
    var r' := r.(calls := r.calls[i := c.(recorded := true)]);
    if !HoldsLease(r, c.token) then r'
    else if ok then Record(r', Attempt(c.attempt, Took, at), Accepted, r.nextAt)
    else if c.attempt >= MAXIMUM_ATTEMPTS then Record(r', Attempt(c.attempt, GaveUp, at), Failed, at)
    else Record(r', Attempt(c.attempt, RetryScheduled, at), Pending, at + RetryDelay(c.attempt))
  }

  function Reclaim(r: Row, now: int): Row {
    if r.status == Leased && r.leaseUntil <= now then
      r.(status := Pending, nextAt := if r.nextAt <= now then r.nextAt else now, token := None)
    else r
  }

  datatype Event = Claims(token: int, now: int, lease: int) | Answers(i: int, ok: bool, at: int) | Reclaims(now: int)

  function Step(r: Row, e: Event): Row {
    match e
    case Claims(token, now, lease) => Claim(r, token, now, lease)
    case Answers(i, ok, at) => Answer(r, i, ok, at)
    case Reclaims(now) => Reclaim(r, now)
  }

  /** Tokens are random UUIDs, leases last at least a second, and a worker's own clock does not run backwards. */
  predicate Allowed(r: Row, e: Event) {
    match e
    case Claims(token, now, lease) => lease > 0 && forall i :: 0 <= i < |r.calls| ==> r.calls[i].token != token
    case Answers(i, ok, at) => 0 <= i < |r.calls| ==> r.calls[i].claimedAt <= at
    case Reclaims(_) => true
  }

  function Run(r: Row, es: seq<Event>): Row {
    if es == [] then r else Step(Run(r, es[..|es| - 1]), es[|es| - 1])
  }

  predicate Legal(r: Row, es: seq<Event>) {
    es == [] || (Legal(r, es[..|es| - 1]) && Allowed(Run(r, es[..|es| - 1]), es[|es| - 1]))
  }

  // -------------------------------------------------------------- invariant

  /** Attempts are numbered 1, 2, ...; all but the last were retried, each after its delay. */
  ghost predicate AttemptsOk(attempts: seq<Attempt>) {
    && |attempts| <= MAXIMUM_ATTEMPTS
    && (forall i :: 0 <= i < |attempts| ==> attempts[i].number == i + 1)
    && (forall i :: 0 <= i < |attempts| - 1 ==> attempts[i].outcome == RetryScheduled)
    && (forall i :: 0 < i < |attempts| ==> attempts[i].at >= attempts[i - 1].at + RetryDelay(i))
  }

  ghost predicate StatusOk(r: Row) {
    && r.count == |r.attempts|
    && (r.status == Pending || r.status == Leased ==>
          r.count < MAXIMUM_ATTEMPTS && (r.count > 0 ==> r.attempts[r.count - 1].outcome == RetryScheduled))
    && (r.status == Accepted ==> r.count > 0 && r.attempts[r.count - 1].outcome == Took)
    && (r.status == Failed ==> r.count == MAXIMUM_ATTEMPTS && r.attempts[r.count - 1].outcome == GaveUp)
  }

  /** The newest call holds the lease. */
  ghost predicate LeaseOk(r: Row) {
    && (r.status != Leased ==> r.token.None?)
    && (forall i, j :: 0 <= i < j < |r.calls| ==> r.calls[i].token != r.calls[j].token)
    && (r.status == Leased ==>
          && r.calls != []
          && var c := r.calls[|r.calls| - 1];
             && r.token == Some(c.token) && c.attempt == r.count + 1 && !c.recorded
             && r.nextAt <= c.claimedAt < r.leaseUntil)
  }

  ghost predicate WaitOk(r: Row) {
    (r.status == Pending || r.status == Leased) && r.count > 0 ==>
      0 < r.count <= |r.attempts| && r.nextAt == r.attempts[r.count - 1].at + RetryDelay(r.count)
  }

  ghost predicate Safe(r: Row) {
    AttemptsOk(r.attempts) && StatusOk(r) && LeaseOk(r) && WaitOk(r)
  }

  lemma {:induction false} StepLease(r: Row, e: Event)
    requires LeaseOk(r) && StatusOk(r) && Allowed(r, e)
    ensures LeaseOk(Step(r, e))
  {
  }

  lemma {:induction false} AppendAttempt(attempts: seq<Attempt>, a: Attempt)
    requires AttemptsOk(attempts) && |attempts| < MAXIMUM_ATTEMPTS && a.number == |attempts| + 1
    requires attempts != [] ==>
               var last := attempts[|attempts| - 1];
               last.outcome == RetryScheduled && a.at >= last.at + RetryDelay(|attempts|)
    ensures AttemptsOk(attempts + [a])
  {
    var all := attempts + [a];
    forall i | 0 < i < |all| ensures all[i].at >= all[i - 1].at + RetryDelay(i) {
      if i < |attempts| { assert attempts[i].at >= attempts[i - 1].at + RetryDelay(i); }
    }
  }

  lemma {:induction false} AnswerKeeps(r: Row, i: int, ok: bool, at: int)
    requires Safe(r) && Allowed(r, Answers(i, ok, at))
    ensures var r' := Answer(r, i, ok, at); AttemptsOk(r'.attempts) && StatusOk(r') && WaitOk(r')
  {
    if 0 <= i < |r.calls| && !r.calls[i].recorded && HoldsLease(r, r.calls[i].token) {
      assert i == |r.calls| - 1;
      var r' := Answer(r, i, ok, at);
      var a := r'.attempts[|r.attempts|];
      assert r'.attempts == r.attempts + [a];
      AppendAttempt(r.attempts, a);
    }
  }

  lemma {:induction false} StepRest(r: Row, e: Event)
    requires Safe(r) && Allowed(r, e)
    ensures var r' := Step(r, e); AttemptsOk(r'.attempts) && StatusOk(r') && WaitOk(r')
  {
    if e.Answers? { AnswerKeeps(r, e.i, e.ok, e.at); }
  }

  /** In every run, with any number of workers, crashes and reclaims: recorded attempts are
      exactly 1..attempt_count, at most 4, spaced by the retry delays; pending means fewer
      than 4 and failed exactly 4. */
  lemma {:induction false} EveryRunSafe(now: int, es: seq<Event>)
    requires Legal(New(now), es)
    ensures Safe(Run(New(now), es))
  {
    if es != [] {
      EveryRunSafe(now, es[..|es| - 1]);
      StepLease(Run(New(now), es[..|es| - 1]), es[|es| - 1]);
      StepRest(Run(New(now), es[..|es| - 1]), es[|es| - 1]);
    }
  }

  /** Recorded attempts are never changed, and accepted and failed are absorbing. */
  lemma {:induction false} SettledForever(r: Row, more: seq<Event>)
    requires r.status == Accepted || r.status == Failed
    ensures var r' := Run(r, more); r'.status == r.status && r'.attempts == r.attempts && r'.count == r.count
  {
    if more != [] { SettledForever(r, more[..|more| - 1]); }
  }

  lemma {:induction false} AttemptsOnlyGrow(r: Row, more: seq<Event>)
    ensures |r.attempts| <= |Run(r, more).attempts| && Run(r, more).attempts[..|r.attempts|] == r.attempts
  {
    if more == [] {
      assert r.attempts[..|r.attempts|] == r.attempts;
    } else {
      AttemptsOnlyGrow(r, more[..|more| - 1]);
      var a, b := Run(r, more[..|more| - 1]).attempts, Run(r, more).attempts;
      assert b[..|a|] == a;
      assert b[..|r.attempts|] == a[..|r.attempts|];
    }
  }

  /** An answer is recorded exactly when its call holds the lease, and only the newest call can. */
  lemma {:induction false} OnlyLeaseHolderRecords(now: int, es: seq<Event>, i: nat, ok: bool, at: int)
    requires Legal(New(now), es) && i < |Run(New(now), es).calls|
    ensures var r := Run(New(now), es);
            && (Step(r, Answers(i, ok, at)).attempts != r.attempts <==> !r.calls[i].recorded && HoldsLease(r, r.calls[i].token))
            && (HoldsLease(r, r.calls[i].token) ==> i == |r.calls| - 1)
            && (!HoldsLease(r, r.calls[i].token) ==> Step(r, Answers(i, ok, at)) == r.(calls := Step(r, Answers(i, ok, at)).calls))
  {
    EveryRunSafe(now, es);
  }

  /** r' is r after the n-th attempt was recorded at `at`: a yes settles the notification as
      accepted; a no schedules the next attempt in 1, 5 or 25 minutes, and the fourth gives up. */
  ghost predicate Recorded(r: Row, r': Row, n: int, ok: bool, at: int) {
    && n == |r.attempts| + 1 <= 4 && r'.count == n && r'.token == None
    && (ok ==> r'.status == Accepted && r'.nextAt == r.nextAt && r'.attempts == r.attempts + [Attempt(n, Took, at)])
    && (!ok && n < 4 ==>
          && r'.status == Pending && r'.attempts == r.attempts + [Attempt(n, RetryScheduled, at)]
          && r'.nextAt == at + (if n == 1 then 60_000_000 else if n == 2 then 300_000_000 else 1_500_000_000))
    && (!ok && n == 4 ==> r'.status == Failed && r'.nextAt == at && r'.attempts == r.attempts + [Attempt(4, GaveUp, at)])
  }

  lemma {:induction false} HolderAnswers(r: Row, i: nat, ok: bool, at: int)
    requires StatusOk(r) && LeaseOk(r) && i < |r.calls| && !r.calls[i].recorded && HoldsLease(r, r.calls[i].token)
    ensures Recorded(r, Answer(r, i, ok, at), r.calls[i].attempt, ok, at)
  {
    assert i == |r.calls| - 1;
  }

  /** What the answer of the lease holder does, in every run. */
  lemma {:induction false} AnswerRecorded(now: int, es: seq<Event>, i: nat, ok: bool, at: int)
    requires Legal(New(now), es) && i < |Run(New(now), es).calls|
    requires var r := Run(New(now), es); !r.calls[i].recorded && HoldsLease(r, r.calls[i].token)
    ensures var r := Run(New(now), es); Recorded(r, Step(r, Answers(i, ok, at)), r.calls[i].attempt, ok, at)
  {
    EveryRunSafe(now, es);
    HolderAnswers(Run(New(now), es), i, ok, at);
  }

  /** In every run a claim takes exactly a pending row that is due, for the whole lease and
      with the next attempt's number, and a lease is taken back exactly once it has run out. */
  lemma {:induction false} LeaseExact(now: int, es: seq<Event>, token: int, at: int, lease: int)
    requires Legal(New(now), es)
    ensures var r := Run(New(now), es);
            Step(r, Claims(token, at, lease)) ==
              if r.status == Pending && r.nextAt <= at
              then r.(status := Leased, token := Some(token), leaseUntil := at + lease,
                      calls := r.calls + [Call(token, |r.attempts| + 1, at, false)])
              else r
    ensures var r := Run(New(now), es);
            Step(r, Reclaims(at)) == if r.status == Leased && r.leaseUntil <= at then r.(status := Pending, token := None) else r
  {
    EveryRunSafe(now, es);
  }

  /** A new notification can be delivered at once, and is accepted when the provider takes it. */
  lemma {:induction false} FirstDelivery(now: int, token: int, lease: int, at: int)
    ensures var r := Step(Step(New(now), Claims(token, now, lease)), Answers(0, true, at));
            r.status == Accepted && r.attempts == [Attempt(1, Took, at)]
  {
  }

  /** Event k is the answer ok of a call that holds the lease and has not recorded one. */
  predicate AnsweredAt(now: int, es: seq<Event>, k: nat, ok: bool)
    requires k < |es|
  {
    var r := Run(New(now), es[..k]);
    && es[k].Answers? && es[k].ok == ok && 0 <= es[k].i < |r.calls|
    && !r.calls[es[k].i].recorded && HoldsLease(r, r.calls[es[k].i].token)
  }

  /** In every run a notification is accepted exactly when the provider said yes to a call
      that still held its lease. */
  lemma {:induction false} AcceptedIff(now: int, es: seq<Event>)
    requires Legal(New(now), es)
    ensures Run(New(now), es).status == Accepted <==> exists k :: 0 <= k < |es| && AnsweredAt(now, es, k, true)
  {
    if es != [] {
      var n := |es| - 1;
      var r, e := Run(New(now), es[..n]), es[n];
      AcceptedIff(now, es[..n]);
      EveryRunSafe(now, es[..n]);
      forall k | 0 <= k < n ensures AnsweredAt(now, es[..n], k, true) <==> AnsweredAt(now, es, k, true) {
        assert es[..n][..k] == es[..k];
      }
      if AnsweredAt(now, es, n, true) { AnswerRecorded(now, es[..n], e.i, true, e.at); }
      if r.status == Accepted { SettledForever(r, [e]); assert [e][..0] == []; }
    }
  }

  /** Between the k-th and the next recorded attempt at least 1, 5 and 25 minutes pass. */
  lemma {:induction false} AttemptsSpaced(now: int, es: seq<Event>, k: nat)
    requires Legal(New(now), es) && k + 1 < |Run(New(now), es).attempts|
    ensures var a := Run(New(now), es).attempts;
            a[k + 1].at - a[k].at >= [1, 5, 25][if k < 3 then k else 2] * MINUTE && k < 3
  {
    EveryRunSafe(now, es);
    var a := Run(New(now), es).attempts;
    assert a[k + 1].at >= a[k].at + RetryDelay(k + 1);
  }

  // ------------------------------------------------------------- the worker

  /** The row, as the statements update it. */
  class Delivery {
    var status: Status
    var count: int
    var nextAt: int
    var token: Option<int>
    var leaseUntil: int
    var calls: seq<Call>
    var attempts: seq<Attempt>

    constructor (now: int)
      ensures Now() == New(now)
    {
      status, count, nextAt, token, leaseUntil, calls, attempts := Pending, 0, now, None, 0, [], [];
    }

    function Now(): Row
      reads this
    {
      Row(status, count, nextAt, token, leaseUntil, calls, attempts)
    }

    method ReclaimExpired(now: int)
      modifies this
      ensures Now() == Step(old(Now()), Reclaims(now))
    {
      if status == Leased && leaseUntil <= now {
        status, token := Pending, None;
        if nextAt > now { nextAt := now; }
      }
    }

    method RetryOrFail(i: nat, at: int) returns (leaseLost: bool)
      requires i < |calls| && !calls[i].recorded
      modifies this
      ensures Now() == Step(old(Now()), Answers(i, false, at))
      ensures leaseLost == !HoldsLease(old(Now()), old(calls[i].token))
    {
      var c := calls[i];
      calls := calls[i := c.(recorded := true)];
      leaseLost := !(status == Leased && token == Some(c.token));
      if leaseLost { return; }
      var final := c.attempt >= MAXIMUM_ATTEMPTS;
      status, count, token := if final then Failed else Pending, c.attempt, None;
      nextAt := if final then at else at + RetryDelay(c.attempt);
      attempts := attempts + [Attempt(c.attempt, if final then GaveUp else RetryScheduled, at)];
    }

    method AcceptDelivery(i: nat, at: int) returns (leaseLost: bool)
      requires i < |calls| && !calls[i].recorded
      modifies this
      ensures Now() == Step(old(Now()), Answers(i, true, at))
      ensures leaseLost == !HoldsLease(old(Now()), old(calls[i].token))
    {
      var c := calls[i];
      calls := calls[i := c.(recorded := true)];
      leaseLost := !(status == Leased && token == Some(c.token));
      if leaseLost { return; }
      status, count, token := Accepted, c.attempt, None;
      attempts := attempts + [Attempt(c.attempt, Took, at)];
    }

    /** A DeliverNext call that nothing interrupts; ok is the provider's answer. */
    method DeliverNext(lease: int, leaseToken: int, now: int, ok: bool, at: int) returns (found: bool)
      modifies this
      ensures var r := Step(old(Now()), Reclaims(now));
              var c := Step(r, Claims(leaseToken, now, lease));
              && found == (c != r)
              && Now() == if found then Step(c, Answers(|r.calls|, ok, at)) else r
    {
      ReclaimExpired(now);
      found := status == Pending && nextAt <= now && count < MAXIMUM_ATTEMPTS;
      if !found { return; }
      status, token, leaseUntil := Leased, Some(leaseToken), now + lease;
      calls := calls + [Call(leaseToken, count + 1, now, false)];
      var lost;
      if ok { lost := AcceptDelivery(|calls| - 1, at); } else { lost := RetryOrFail(|calls| - 1, at); }
    }
  }
}
