/** The check worker and its journal (internal/modworker, internal/workerjournal) between
    an at-least-once job queue and the result queue. One RunOne call is one event; a
    crash inside it leaves what an error return at that point followed by Crash leaves. */
module Worker {
  import opened Positions
  import Jobs

  const RETENTION := 7 * 24 * 3600 * Jobs.SECOND

  /** A pulled job message whose envelope opens; the signed snapshot fixes everything here. */
  datatype Delivery = Delivery(job: int, hash: int, at: int, expires: int)

  /** A row of worker_jobs; result is set when the state is 'completed'. */
  datatype Entry = Entry(hash: int, result: Option<Jobs.Result>, updated: int)

  datatype Pending = Publication(d: Delivery, body: Jobs.Result) | Expiry(d: Delivery)

  /** A result message on the result queue. */
  datatype Sent = Sent(job: int, body: Jobs.Result)

  /** A DeleteMessage call on the job queue, made at now with `sent` results sent before it. */
  datatype Deletion = Deletion(d: Delivery, now: int, sent: nat)

  /** A committed StoreResult, made when `sent` results had been sent. */
  datatype Store = Store(job: int, body: Jobs.Result, sent: nat)

  /** sent, deleted and stores record what happened, in order. */
  datatype State = State(clock: int, journal: map<int, Entry>, pending: Option<Pending>,
                         sent: seq<Sent>, deleted: seq<Deletion>, stores: seq<Store>)

  const START := State(0, map[], None, [], [], [])

  /** What the queues answer: the send may fail, with or without the message getting through. */
  datatype Answer = SendFailed(through: bool) | DeleteFailed | Done

  /** What the engine measured, with the two identifiers drawn for it. */
  datatype Execution = Execution(attempt: int, id: int, started: int, completed: int, ok: bool)

  /** One RunOne call. pulled is None for no message or one that does not open or is for
      another pool; run is None when the engine fails; stored is the time of StoreResult
      and storeOk whether it succeeded. */
  datatype Call = Call(pulled: Option<Delivery>, now: int, run: Option<Execution>, stored: int, storeOk: bool, answer: Answer)

  datatype Event = Runs(call: Call) | Crash | Cleanup(now: int)

  // -------------------------------------------------------------- transport

  function Delete(w: State, d: Delivery, now: int): State {
    w.(deleted := w.deleted + [Deletion(d, now, |w.sent|)])
  }

  /** PublishResultAndAcknowledge: send, then delete. */
  function Publish(w: State, d: Delivery, body: Jobs.Result, now: int, answer: Answer): State {
    if body.hash != d.hash then w.(pending := Some(Publication(d, body))) else
    match answer
    case SendFailed(through) =>
      w.(sent := if through then w.sent + [Sent(d.job, body)] else w.sent, pending := Some(Publication(d, body)))
    case DeleteFailed => Delete(w.(sent := w.sent + [Sent(d.job, body)]), d, now).(pending := Some(Publication(d, body)))
    case Done => Delete(w.(sent := w.sent + [Sent(d.job, body)]), d, now).(pending := None)
  }

  function AcknowledgeExpired(w: State, d: Delivery, now: int, answer: Answer): State {
    Delete(w, d, now).(pending := if answer == Done then None else Some(Expiry(d)))
  }

  // ----------------------------------------------------------------- RunOne

  function Stored(w: State, d: Delivery): Option<Jobs.Result> {
    if d.job in w.journal && w.journal[d.job].hash == d.hash then w.journal[d.job].result else None
  }

  predicate TooLate(d: Delivery, now: int, tolerance: int) {
    now > d.expires + tolerance
  }

  /** Accept keeps a row of the same snapshot and refuses one of another. */
  predicate Conflicts(w: State, d: Delivery) {
    d.job in w.journal && w.journal[d.job].hash != d.hash
  }

  function Accept(w: State, d: Delivery, now: int): State {
    var result := if d.job in w.journal then w.journal[d.job].result else None;
    w.(journal := w.journal[d.job := Entry(d.hash, result, now)])
  }

  function Signed(d: Delivery, pool: int, x: Execution): Jobs.Result {
    Jobs.Result(true, x.id, x.attempt, pool, d.hash, d.at, x.started, x.completed, x.ok)
  }

  function StoreResult(w: State, d: Delivery, body: Jobs.Result, now: int): State {
    w.(journal := w.journal[d.job := Entry(d.hash, Some(body), now)], stores := w.stores + [Store(d.job, body, |w.sent|)])
  }

  function Handle(w: State, d: Delivery, c: Call, pool: int, tolerance: int): State {
    var stored := Stored(w, d);
    if stored.Some? then Publish(w, d, stored.value, c.now, c.answer)
    else if TooLate(d, c.now, tolerance) then AcknowledgeExpired(w, d, c.now, c.answer)
    else if Conflicts(w, d) then w
    else
      var w1 := Accept(w, d, c.now);
      if c.run.None? || !c.storeOk then w1 else
      var body := Signed(d, pool, c.run.value);
      Publish(StoreResult(w1, d, body, c.stored), d, body, c.now, c.answer)
  }

  function RunOne(w: State, c: Call, pool: int, tolerance: int): State {
    if w.pending.Some? then
      match w.pending.value
      case Publication(d, body) => Publish(w, d, body, c.now, c.answer)
      case Expiry(d) => AcknowledgeExpired(w, d, c.now, c.answer)
    else if c.pulled.None? then w
    else Handle(w, c.pulled.value, c, pool, tolerance)
  }

  /** Timestamps in the journal are whole seconds. */
  predicate Forgotten(entry: Entry, before: int) {
    entry.result.Some? && entry.updated / Jobs.SECOND < before / Jobs.SECOND
  }

  function Clean(journal: map<int, Entry>, before: int): map<int, Entry> {
    map j | j in journal && !Forgotten(journal[j], before) :: journal[j]
  }

  function Later(a: int, b: int): int { if a >= b then a else b }

  function Step(w: State, e: Event, pool: int, tolerance: int): State {
    match e
    case Runs(c) => RunOne(w, c, pool, tolerance).(clock := Later(c.now, c.stored))
    case Crash => w.(pending := None)
    case Cleanup(now) => w.(journal := Clean(w.journal, now - RETENTION), clock := now)
  }

  /** The worker's clock does not run backwards, and a job's signed snapshot fixes its expiry. */
  predicate Timely(w: State, e: Event, expires: int -> int) {
    match e
    case Runs(c) =>
      w.clock <= c.now <= c.stored && (c.pulled.Some? ==> c.pulled.value.expires == expires(c.pulled.value.job))
    case Crash => true
    case Cleanup(now) => w.clock <= now
  }

  function Run(es: seq<Event>, pool: int, tolerance: int): State {
    if es == [] then START else Step(Run(es[..|es| - 1], pool, tolerance), es[|es| - 1], pool, tolerance)
  }

  predicate InOrder(es: seq<Event>, pool: int, tolerance: int, expires: int -> int) {
    es == [] || (
      var front := es[..|es| - 1];
      InOrder(front, pool, tolerance, expires) && Timely(Run(front, pool, tolerance), es[|es| - 1], expires))
  }

  /** The first time at which a cleanup forgets a result stored at t. */
  function ForgottenFrom(t: int): int {
    (t / 1_000_000 + 1) * 1_000_000 + 604_800_000_000
  }

  /** A job runs out before a result stored when it is pulled can be forgotten. */
  predicate InTime(d: Delivery, now: int, tolerance: int) {
    d.expires + tolerance < ForgottenFrom(now)
  }

  predicate Prompt(es: seq<Event>, tolerance: int) {
    forall i :: 0 <= i < |es| && es[i].Runs? && es[i].call.pulled.Some? ==>
      InTime(es[i].call.pulled.value, es[i].call.now, tolerance)
  }

  /** The bound on the envelope, and a slot that is not the retention period ahead. */
  predicate NearSlot(d: Delivery, now: int, tolerance: int) {
    d.expires <= d.at + 120 * Jobs.SECOND && d.at + 120 * Jobs.SECOND + tolerance <= now + RETENTION
  }

  predicate NoCleanup(es: seq<Event>) {
    forall i :: 0 <= i < |es| ==> !es[i].Cleanup?
  }

  predicate Legal(es: seq<Event>, pool: int, tolerance: int, expires: int -> int) {
    InOrder(es, pool, tolerance, expires) && (Prompt(es, tolerance) || NoCleanup(es))
  }

  /** A cleanup forgets no result of a job that may still run. */
  ghost predicate Keeps(w: State, e: Event, tolerance: int, expires: int -> int) {
    e.Cleanup? ==> forall j :: j in w.journal && Forgotten(w.journal[j], e.now - RETENTION) ==> e.now > expires(j) + tolerance
  }

  // -------------------------------------------------------------- invariant

  /** b is the one result job j can have: the journal holds it, or the job is past
      execution and the journal holds nothing else. */
  ghost predicate Only(w: State, j: int, b: Jobs.Result, tolerance: int, expires: int -> int) {
    if j in w.journal && w.journal[j].result.Some?
    then w.journal[j].result.value == b && w.journal[j].hash == b.hash
    else w.clock > expires(j) + tolerance
  }

  ghost predicate EntryOk(w: State, j: int)
    requires j in w.journal
  {
    var entry := w.journal[j];
    && entry.updated <= w.clock
    && (entry.result.Some? ==> entry.result.value.hash == entry.hash)
  }

  ghost predicate PendingOk(w: State, tolerance: int, expires: int -> int) {
    w.pending.Some? && w.pending.value.Publication? ==>
      var p := w.pending.value; p.body.hash == p.d.hash && Only(w, p.d.job, p.body, tolerance, expires)
  }

  ghost predicate ExpiryOk(w: State, tolerance: int) {
    w.pending.Some? && w.pending.value.Expiry? ==> TooLate(w.pending.value.d, w.clock, tolerance)
  }

  ghost predicate SentOk(w: State, tolerance: int, expires: int -> int) {
    forall i :: 0 <= i < |w.sent| ==> Only(w, w.sent[i].job, w.sent[i].body, tolerance, expires)
  }

  /** Two results of one job are the same bytes. */
  ghost predicate OneResult(w: State) {
    && (forall i, k :: 0 <= i < |w.sent| && 0 <= k < |w.sent| && w.sent[i].job == w.sent[k].job ==> w.sent[i] == w.sent[k])
    && (w.pending.Some? && w.pending.value.Publication? ==>
          forall i :: 0 <= i < |w.sent| && w.sent[i].job == w.pending.value.d.job ==> w.sent[i].body == w.pending.value.body)
  }

  /** The message went after its result was sent, or too late to run it. */
  ghost predicate Justified(w: State, x: Deletion, tolerance: int) {
    || (exists i :: 0 <= i < x.sent && i < |w.sent| && w.sent[i].job == x.d.job && w.sent[i].body.hash == x.d.hash)
    || TooLate(x.d, x.now, tolerance)
  }

  ghost predicate DeletionsOk(w: State, tolerance: int) {
    forall k :: 0 <= k < |w.deleted| ==> Justified(w, w.deleted[k], tolerance)
  }

  ghost predicate Inv(w: State, tolerance: int, expires: int -> int) {
    && (forall j :: j in w.journal ==> EntryOk(w, j))
    && PendingOk(w, tolerance, expires) && ExpiryOk(w, tolerance)
    && SentOk(w, tolerance, expires) && OneResult(w) && DeletionsOk(w, tolerance)
  }

  // ------------------------------------------------------------ preservation

  lemma {:induction false} TickInv(w: State, clock: int, tolerance: int, expires: int -> int)
    requires Inv(w, tolerance, expires) && w.clock <= clock
    ensures Inv(w.(clock := clock), tolerance, expires)
  {
    var w' := w.(clock := clock);
    forall j | j in w'.journal ensures EntryOk(w', j) { assert EntryOk(w, j); }
    forall i | 0 <= i < |w'.sent| ensures Only(w', w'.sent[i].job, w'.sent[i].body, tolerance, expires) {
      assert Only(w, w.sent[i].job, w.sent[i].body, tolerance, expires);
    }
    forall k | 0 <= k < |w'.deleted| ensures Justified(w', w'.deleted[k], tolerance) {
      assert Justified(w, w.deleted[k], tolerance);
    }
  }

  /** body is the only result job j has had or can have. */
  ghost predicate Publishable(w: State, d: Delivery, body: Jobs.Result, tolerance: int, expires: int -> int) {
    && body.hash == d.hash && Only(w, d.job, body, tolerance, expires)
    && forall i :: 0 <= i < |w.sent| && w.sent[i].job == d.job ==> w.sent[i].body == body
  }

  /** Sending once more; deletion is a separate step. */
  lemma {:induction false} SendInv(w: State, d: Delivery, body: Jobs.Result, tolerance: int, expires: int -> int)
    requires Inv(w, tolerance, expires) && Publishable(w, d, body, tolerance, expires)
    ensures Inv(w.(sent := w.sent + [Sent(d.job, body)], pending := Some(Publication(d, body))), tolerance, expires)
  {
    var w' := w.(sent := w.sent + [Sent(d.job, body)], pending := Some(Publication(d, body)));
    forall j | j in w'.journal ensures EntryOk(w', j) { assert EntryOk(w, j); }
    forall i | 0 <= i < |w'.sent| ensures Only(w', w'.sent[i].job, w'.sent[i].body, tolerance, expires) {
      assert i < |w.sent| ==> Only(w, w.sent[i].job, w.sent[i].body, tolerance, expires);
    }
    forall k | 0 <= k < |w'.deleted| ensures Justified(w', w'.deleted[k], tolerance) {
      assert Justified(w, w.deleted[k], tolerance);
      if exists i :: 0 <= i < w.deleted[k].sent && i < |w.sent| && w.sent[i].job == w.deleted[k].d.job && w.sent[i].body.hash == w.deleted[k].d.hash {
        var i :| 0 <= i < w.deleted[k].sent && i < |w.sent| && w.sent[i].job == w.deleted[k].d.job && w.sent[i].body.hash == w.deleted[k].d.hash;
        assert w'.sent[i] == w.sent[i];
      }
    }
  }

  lemma {:induction false} PendingInv(w: State, pending: Option<Pending>, tolerance: int, expires: int -> int)
    requires Inv(w, tolerance, expires)
    requires pending.Some? && pending.value.Publication? ==> Publishable(w, pending.value.d, pending.value.body, tolerance, expires)
    requires pending.Some? && pending.value.Expiry? ==> TooLate(pending.value.d, w.clock, tolerance)
    ensures Inv(w.(pending := pending), tolerance, expires)
  {
    var w' := w.(pending := pending);
    forall j | j in w'.journal ensures EntryOk(w', j) { assert EntryOk(w, j); }
    forall i | 0 <= i < |w'.sent| ensures Only(w', w'.sent[i].job, w'.sent[i].body, tolerance, expires) {
      assert Only(w, w.sent[i].job, w.sent[i].body, tolerance, expires);
    }
    forall k | 0 <= k < |w'.deleted| ensures Justified(w', w'.deleted[k], tolerance) {
      assert Justified(w, w.deleted[k], tolerance);
    }
  }

  lemma {:induction false} DeleteInv(w: State, d: Delivery, now: int, tolerance: int, expires: int -> int)
    requires Inv(w, tolerance, expires)
    requires Justified(w, Deletion(d, now, |w.sent|), tolerance)
    ensures Inv(Delete(w, d, now), tolerance, expires)
  {
    var w' := Delete(w, d, now);
    forall j | j in w'.journal ensures EntryOk(w', j) { assert EntryOk(w, j); }
    forall i | 0 <= i < |w'.sent| ensures Only(w', w'.sent[i].job, w'.sent[i].body, tolerance, expires) {
      assert Only(w, w.sent[i].job, w.sent[i].body, tolerance, expires);
    }
    forall k | 0 <= k < |w'.deleted| ensures Justified(w', w'.deleted[k], tolerance) {
      if k < |w.deleted| { assert Justified(w, w.deleted[k], tolerance); }
    }
  }

  lemma {:induction false} PublishInv(w: State, d: Delivery, body: Jobs.Result, now: int, answer: Answer, tolerance: int, expires: int -> int)
    requires Inv(w, tolerance, expires) && Publishable(w, d, body, tolerance, expires)
    ensures Inv(Publish(w, d, body, now, answer), tolerance, expires)
  {
    var kept := Some(Publication(d, body));
    if answer == SendFailed(false) {
      PendingInv(w, kept, tolerance, expires);
    } else {
      var w1 := w.(sent := w.sent + [Sent(d.job, body)], pending := kept);
      SendInv(w, d, body, tolerance, expires);
      if !answer.SendFailed? {
        assert w1.sent[|w.sent|] == Sent(d.job, body);
        DeleteInv(w1, d, now, tolerance, expires);
        var w2 := Delete(w1, d, now);
        if answer == Done { PendingInv(w2, None, tolerance, expires); }
        assert Publish(w, d, body, now, answer) == if answer == Done then w2.(pending := None) else w2;
      }
    }
  }

  lemma {:induction false} ExpiredInv(w: State, d: Delivery, now: int, answer: Answer, tolerance: int, expires: int -> int)
    requires Inv(w, tolerance, expires) && TooLate(d, now, tolerance) && now <= w.clock
    ensures Inv(AcknowledgeExpired(w, d, now, answer), tolerance, expires)
  {
    DeleteInv(w, d, now, tolerance, expires);
    PendingInv(Delete(w, d, now), if answer == Done then None else Some(Expiry(d)), tolerance, expires);
  }

  /** A job that may still run and has no stored result has had nothing sent. */
  lemma {:induction false} NothingSent(w: State, d: Delivery, now: int, tolerance: int, expires: int -> int)
    requires Inv(w, tolerance, expires) && w.clock <= now && d.expires == expires(d.job)
    requires Stored(w, d).None? && !TooLate(d, now, tolerance) && !Conflicts(w, d)
    ensures forall i :: 0 <= i < |w.sent| ==> w.sent[i].job != d.job
  {
    forall i | 0 <= i < |w.sent| ensures w.sent[i].job != d.job {
      assert Only(w, w.sent[i].job, w.sent[i].body, tolerance, expires);
    }
  }

  /** Writing the journal row of a job with nothing sent and nothing pending. */
  lemma {:induction false} JournalInv(w: State, j: int, entry: Entry, tolerance: int, expires: int -> int)
    requires Inv(w, tolerance, expires) && w.pending.None?
    requires forall i :: 0 <= i < |w.sent| ==> w.sent[i].job != j
    requires EntryOk(w.(journal := w.journal[j := entry]), j)
    ensures Inv(w.(journal := w.journal[j := entry]), tolerance, expires)
  {
    var w' := w.(journal := w.journal[j := entry]);
    forall g | g in w'.journal ensures EntryOk(w', g) {
      if g != j { assert EntryOk(w, g); }
    }
    forall i | 0 <= i < |w'.sent| ensures Only(w', w'.sent[i].job, w'.sent[i].body, tolerance, expires) {
      assert Only(w, w.sent[i].job, w.sent[i].body, tolerance, expires);
    }
    forall k | 0 <= k < |w'.deleted| ensures Justified(w', w'.deleted[k], tolerance) {
      assert Justified(w, w.deleted[k], tolerance);
    }
  }

  /** The log of stores carries no part of the invariant. */
  lemma {:induction false} StoresInv(w: State, stores: seq<Store>, tolerance: int, expires: int -> int)
    requires Inv(w, tolerance, expires)
    ensures Inv(w.(stores := stores), tolerance, expires)
  {
    var w' := w.(stores := stores);
    forall j | j in w'.journal ensures EntryOk(w', j) { assert EntryOk(w, j); }
    forall i | 0 <= i < |w'.sent| ensures Only(w', w'.sent[i].job, w'.sent[i].body, tolerance, expires) {
      assert Only(w, w.sent[i].job, w.sent[i].body, tolerance, expires);
    }
    forall k | 0 <= k < |w'.deleted| ensures Justified(w', w'.deleted[k], tolerance) {
      assert Justified(w, w.deleted[k], tolerance);
    }
  }

  lemma {:induction false} ExecuteInv(w: State, d: Delivery, c: Call, pool: int, tolerance: int, expires: int -> int)
    requires Inv(w, tolerance, expires) && w.pending.None? && c.now <= c.stored == w.clock
    requires d.expires == expires(d.job)
    requires forall i :: 0 <= i < |w.sent| ==> w.sent[i].job != d.job
    requires Stored(w, d).None? && !TooLate(d, c.now, tolerance) && !Conflicts(w, d)
    ensures Inv(Handle(w, d, c, pool, tolerance), tolerance, expires)
  {
    var w1 := Accept(w, d, c.now);
    JournalInv(w, d.job, w1.journal[d.job], tolerance, expires);
    if c.run.Some? && c.storeOk {
      var body := Signed(d, pool, c.run.value);
      var entry := Entry(d.hash, Some(body), c.stored);
      JournalInv(w1, d.job, entry, tolerance, expires);
      var w2 := w1.(journal := w1.journal[d.job := entry]);
      StoresInv(w2, StoreResult(w1, d, body, c.stored).stores, tolerance, expires);
      PublishInv(StoreResult(w1, d, body, c.stored), d, body, c.now, c.answer, tolerance, expires);
    }
  }

  lemma {:induction false} RunOneInv(w: State, c: Call, pool: int, tolerance: int, expires: int -> int)
    requires Inv(w, tolerance, expires) && Timely(w, Runs(c), expires)
    ensures Inv(Step(w, Runs(c), pool, tolerance), tolerance, expires)
  {
    var w' := w.(clock := c.stored);
    TickInv(w, c.stored, tolerance, expires);
    assert Step(w, Runs(c), pool, tolerance) == RunOne(w', c, pool, tolerance);
    if w.pending.Some? {
      match w.pending.value
      case Publication(d, body) => PublishInv(w', d, body, c.now, c.answer, tolerance, expires);
      case Expiry(d) => ExpiredInv(w', d, c.now, c.answer, tolerance, expires);
    } else if c.pulled.Some? {
      var d := c.pulled.value;
      if Stored(w, d).Some? {
        forall i | 0 <= i < |w.sent| && w.sent[i].job == d.job ensures w.sent[i].body == Stored(w, d).value {
          assert Only(w, w.sent[i].job, w.sent[i].body, tolerance, expires);
        }
        assert EntryOk(w, d.job);
        PublishInv(w', d, Stored(w, d).value, c.now, c.answer, tolerance, expires);
      } else if TooLate(d, c.now, tolerance) {
        ExpiredInv(w', d, c.now, c.answer, tolerance, expires);
      } else if !Conflicts(w, d) {
        NothingSent(w, d, c.now, tolerance, expires);
        ExecuteInv(w', d, c, pool, tolerance, expires);
      }
    }
  }

  /** Cleanup only forgets results of jobs that are past execution. */
  lemma {:induction false} CleanupOnly(w: State, now: int, j: int, b: Jobs.Result, tolerance: int, expires: int -> int)
    requires Keeps(w, Cleanup(now), tolerance, expires) && w.clock <= now && Only(w, j, b, tolerance, expires)
    ensures Only(w.(journal := Clean(w.journal, now - RETENTION), clock := now), j, b, tolerance, expires)
  {
    if j in w.journal && Forgotten(w.journal[j], now - RETENTION) { assert now > expires(j) + tolerance; }
  }

  lemma {:induction false} CleanupInv(w: State, now: int, tolerance: int, expires: int -> int)
    requires Inv(w, tolerance, expires) && Keeps(w, Cleanup(now), tolerance, expires) && w.clock <= now
    ensures Inv(w.(journal := Clean(w.journal, now - RETENTION), clock := now), tolerance, expires)
  {
    var w' := w.(journal := Clean(w.journal, now - RETENTION), clock := now);
    forall j | j in w'.journal ensures EntryOk(w', j) { assert EntryOk(w, j); }
    forall i | 0 <= i < |w'.sent| ensures Only(w', w'.sent[i].job, w'.sent[i].body, tolerance, expires) {
      CleanupOnly(w, now, w.sent[i].job, w.sent[i].body, tolerance, expires);
    }
    if w.pending.Some? && w.pending.value.Publication? {
      CleanupOnly(w, now, w.pending.value.d.job, w.pending.value.body, tolerance, expires);
    }
    forall k | 0 <= k < |w'.deleted| ensures Justified(w', w'.deleted[k], tolerance) {
      assert Justified(w, w.deleted[k], tolerance);
    }
  }

  // ------------------------------------------------------- what cleanups keep

  lemma {:induction false} ForgottenIff(entry: Entry, now: int)
    requires entry.result.Some?
    ensures Forgotten(entry, now - RETENTION) <==> ForgottenFrom(entry.updated) <= now
  {
    assert (now - RETENTION) / Jobs.SECOND == now / Jobs.SECOND - 7 * 24 * 3600;
  }

  /** Stored results outlast the time their job may run. */
  ghost predicate Young(w: State, tolerance: int, expires: int -> int) {
    forall j :: j in w.journal && w.journal[j].result.Some? ==> expires(j) + tolerance < ForgottenFrom(w.journal[j].updated)
  }

  lemma {:induction false} StepYoung(w: State, e: Event, pool: int, tolerance: int, expires: int -> int)
    requires Young(w, tolerance, expires) && Timely(w, e, expires)
    requires e.Runs? && e.call.pulled.Some? ==> InTime(e.call.pulled.value, e.call.now, tolerance)
    ensures Young(Step(w, e, pool, tolerance), tolerance, expires)
  {
    if e.Runs? { assert ForgottenFrom(e.call.now) <= ForgottenFrom(e.call.stored); }
  }

  lemma {:induction false} EveryRunYoung(es: seq<Event>, pool: int, tolerance: int, expires: int -> int)
    requires InOrder(es, pool, tolerance, expires) && Prompt(es, tolerance)
    ensures Young(Run(es, pool, tolerance), tolerance, expires)
  {
    if es != [] {
      EveryRunYoung(es[..|es| - 1], pool, tolerance, expires);
      StepYoung(Run(es[..|es| - 1], pool, tolerance), es[|es| - 1], pool, tolerance, expires);
    }
  }

  /** Seven days suffice: when each pulled job runs out before a result stored at the pull
      can be forgotten, no cleanup of any run forgets a job that may still run. */
  lemma {:induction false} RetentionSuffices(es: seq<Event>, now: int, pool: int, tolerance: int, expires: int -> int)
    requires InOrder(es, pool, tolerance, expires) && Prompt(es, tolerance) && Run(es, pool, tolerance).clock <= now
    ensures Keeps(Run(es, pool, tolerance), Cleanup(now), tolerance, expires)
  {
    EveryRunYoung(es, pool, tolerance, expires);
    var w := Run(es, pool, tolerance);
    forall j | j in w.journal && Forgotten(w.journal[j], now - RETENTION) ensures now > expires(j) + tolerance {
      ForgottenIff(w.journal[j], now);
    }
  }

  /** As the platform's jobs do, whose slots lie no seven days in the worker's future. */
  lemma {:induction false} NearSlotsSuffice(es: seq<Event>, now: int, pool: int, tolerance: int, expires: int -> int)
    requires InOrder(es, pool, tolerance, expires) && Run(es, pool, tolerance).clock <= now
    requires forall i :: 0 <= i < |es| && es[i].Runs? && es[i].call.pulled.Some? ==>
               NearSlot(es[i].call.pulled.value, es[i].call.now, tolerance)
    ensures Legal(es, pool, tolerance, expires) && Keeps(Run(es, pool, tolerance), Cleanup(now), tolerance, expires)
  {
    forall i | 0 <= i < |es| && es[i].Runs? && es[i].call.pulled.Some?
      ensures InTime(es[i].call.pulled.value, es[i].call.now, tolerance)
    {
      assert NearSlot(es[i].call.pulled.value, es[i].call.now, tolerance);
    }
    RetentionSuffices(es, now, pool, tolerance, expires);
  }

  lemma {:induction false} EveryRunInv(es: seq<Event>, pool: int, tolerance: int, expires: int -> int)
    requires Legal(es, pool, tolerance, expires)
    ensures Inv(Run(es, pool, tolerance), tolerance, expires)
  {
    if es != [] {
      var front, e := es[..|es| - 1], es[|es| - 1];
      EveryRunInv(front, pool, tolerance, expires);
      var w := Run(front, pool, tolerance);
      match e
      case Runs(c) => RunOneInv(w, c, pool, tolerance, expires);
      case Crash => PendingInv(w, None, tolerance, expires);
      case Cleanup(now) =>
        assert Prompt(front, tolerance);
        RetentionSuffices(front, now, pool, tolerance, expires);
        CleanupInv(w, now, tolerance, expires);
    }
  }

  // --------------------------------------------------------- stored before sent

  /** b was stored as the result of j when at most n results had been sent. */
  ghost predicate StoredBy(stores: seq<Store>, j: int, b: Jobs.Result, n: int) {
    exists k :: 0 <= k < |stores| && stores[k].job == j && stores[k].body == b && stores[k].sent <= n
  }

  ghost predicate Journaled(w: State) {
    && (forall i :: 0 <= i < |w.sent| ==> StoredBy(w.stores, w.sent[i].job, w.sent[i].body, i))
    && (forall j :: j in w.journal && w.journal[j].result.Some? ==> StoredBy(w.stores, j, w.journal[j].result.value, |w.sent|))
    && (w.pending.Some? && w.pending.value.Publication? ==>
          StoredBy(w.stores, w.pending.value.d.job, w.pending.value.body, |w.sent|))
  }

  lemma {:induction false} StoredLater(stores: seq<Store>, more: seq<Store>, j: int, b: Jobs.Result, n: int, m: int)
    requires StoredBy(stores, j, b, n) && n <= m
    ensures StoredBy(stores + more, j, b, m)
  {
    var k :| 0 <= k < |stores| && stores[k].job == j && stores[k].body == b && stores[k].sent <= n;
    assert (stores + more)[k] == stores[k];
  }

  lemma {:induction false} PublishJournaled(w: State, d: Delivery, body: Jobs.Result, now: int, answer: Answer)
    requires Journaled(w) && StoredBy(w.stores, d.job, body, |w.sent|)
    ensures Journaled(Publish(w, d, body, now, answer))
  {
    var w' := Publish(w, d, body, now, answer);
    assert w'.stores == w.stores && w.stores + [] == w.stores && w'.journal == w.journal;
    forall j | j in w'.journal && w'.journal[j].result.Some? ensures StoredBy(w'.stores, j, w'.journal[j].result.value, |w'.sent|) {
      StoredLater(w.stores, [], j, w.journal[j].result.value, |w.sent|, |w'.sent|);
    }
    StoredLater(w.stores, [], d.job, body, |w.sent|, |w'.sent|);
  }

  lemma {:induction false} StoreJournaled(w: State, d: Delivery, body: Jobs.Result, now: int)
    requires Journaled(w)
    ensures Journaled(StoreResult(w, d, body, now))
    ensures StoredBy(StoreResult(w, d, body, now).stores, d.job, body, |w.sent|)
  {
    var w' := StoreResult(w, d, body, now);
    var one := [Store(d.job, body, |w.sent|)];
    assert w'.stores == w.stores + one && w'.stores[|w.stores|] == one[0];
    forall i | 0 <= i < |w'.sent| ensures StoredBy(w'.stores, w'.sent[i].job, w'.sent[i].body, i) {
      StoredLater(w.stores, one, w.sent[i].job, w.sent[i].body, i, i);
    }
    forall j | j in w'.journal && w'.journal[j].result.Some? ensures StoredBy(w'.stores, j, w'.journal[j].result.value, |w'.sent|) {
      if j != d.job { StoredLater(w.stores, one, j, w.journal[j].result.value, |w.sent|, |w.sent|); }
    }
    if w.pending.Some? && w.pending.value.Publication? {
      StoredLater(w.stores, one, w.pending.value.d.job, w.pending.value.body, |w.sent|, |w.sent|);
    }
  }

  lemma {:induction false} HandleJournaled(w: State, d: Delivery, c: Call, pool: int, tolerance: int)
    requires Journaled(w)
    ensures Journaled(Handle(w, d, c, pool, tolerance))
  {
    if Stored(w, d).Some? {
      PublishJournaled(w, d, Stored(w, d).value, c.now, c.answer);
    } else if !TooLate(d, c.now, tolerance) && !Conflicts(w, d) {
      var w1 := Accept(w, d, c.now);
      assert Journaled(w1);
      if c.run.Some? && c.storeOk {
        var body := Signed(d, pool, c.run.value);
        StoreJournaled(w1, d, body, c.stored);
        PublishJournaled(StoreResult(w1, d, body, c.stored), d, body, c.now, c.answer);
      }
    }
  }

  lemma {:induction false} EveryRunJournaled(es: seq<Event>, pool: int, tolerance: int)
    ensures Journaled(Run(es, pool, tolerance))
  {
    if es != [] {
      var w, e := Run(es[..|es| - 1], pool, tolerance), es[|es| - 1];
      EveryRunJournaled(es[..|es| - 1], pool, tolerance);
      match e
      case Runs(c) =>
        if w.pending.Some? {
          if w.pending.value.Publication? { PublishJournaled(w, w.pending.value.d, w.pending.value.body, c.now, c.answer); }
        } else if c.pulled.Some? {
          HandleJournaled(w, c.pulled.value, c, pool, tolerance);
        }
      case Crash =>
      case Cleanup(now) =>
    }
  }

  // ------------------------------------------------------- what results report

  /** Call e pulled job j in time, ran it and reported in body what the engine measured. */
  predicate Reports(e: Event, pool: int, tolerance: int, j: int, body: Jobs.Result) {
    && e.Runs? && e.call.pulled.Some? && e.call.run.Some?
    && var d, x := e.call.pulled.value, e.call.run.value;
       && d.job == j && e.call.now <= d.expires + tolerance
       && body.authentic && body.pool == pool && body.hash == d.hash && body.at == d.at
       && body.ok == x.ok && body.id == x.id && body.attempt == x.attempt
       && body.started == x.started && body.completed == x.completed
  }

  ghost predicate Reported(es: seq<Event>, pool: int, tolerance: int, j: int, body: Jobs.Result) {
    exists i :: 0 <= i < |es| && Reports(es[i], pool, tolerance, j, body)
  }

  lemma {:induction false} StepStores(w: State, e: Event, pool: int, tolerance: int)
    ensures var stores := Step(w, e, pool, tolerance).stores;
            || stores == w.stores
            || (|stores| == |w.stores| + 1 && stores[..|w.stores|] == w.stores &&
                Reports(e, pool, tolerance, stores[|w.stores|].job, stores[|w.stores|].body))
  {
  }

  lemma {:induction false} StoresReport(es: seq<Event>, pool: int, tolerance: int, k: nat)
    requires k < |Run(es, pool, tolerance).stores|
    ensures var x := Run(es, pool, tolerance).stores[k]; Reported(es, pool, tolerance, x.job, x.body)
  {
    if es != [] {
      var n := |es| - 1;
      var w, x := Run(es[..n], pool, tolerance), Run(es, pool, tolerance).stores[k];
      StepStores(w, es[n], pool, tolerance);
      if k < |w.stores| {
        StoresReport(es[..n], pool, tolerance, k);
        var i :| 0 <= i < n && Reports(es[..n][i], pool, tolerance, x.job, x.body);
        assert Reports(es[i], pool, tolerance, x.job, x.body);
      }
    }
  }

  // ------------------------------------------------------ what one call answers

  /** From w to w' body was sent, unless the queue refused it, and the message of d deleted,
      once it was sent; anything short of that is kept to be tried again. */
  predicate Tried(w: State, w': State, d: Delivery, body: Jobs.Result, c: Call) {
    && w'.sent == (if c.answer == SendFailed(false) then w.sent else w.sent + [Sent(d.job, body)])
    && w'.deleted == (if c.answer.SendFailed? then w.deleted else w.deleted + [Deletion(d, c.now, |w'.sent|)])
    && w'.pending == (if c.answer == Done then None else Some(Publication(d, body)))
  }

  /** From w to w' the message of d was deleted, or is kept to be tried again. */
  predicate GivenUp(w: State, w': State, d: Delivery, c: Call) {
    w' == w.(clock := w'.clock, deleted := w.deleted + [Deletion(d, c.now, |w.sent|)],
             pending := if c.answer == Done then None else Some(Expiry(d)))
  }

  predicate Repeats(w: State, w': State, d: Delivery, body: Jobs.Result, c: Call) {
    Tried(w, w', d, body, c) && w'.journal == w.journal && w'.stores == w.stores
  }

  /** A pulled job with a stored result is answered with it, one past its expiry is given up,
      one journaled with another snapshot is left alone; any other is executed, and its
      result journaled and sent when the engine and the journal succeed. */
  ghost predicate PulledAnswer(w: State, w': State, d: Delivery, c: Call, pool: int, tolerance: int) {
    if d.job in w.journal && w.journal[d.job].hash == d.hash && w.journal[d.job].result.Some? then
      Repeats(w, w', d, w.journal[d.job].result.value, c)
    else if c.now > d.expires + tolerance then GivenUp(w, w', d, c)
    else if d.job in w.journal && w.journal[d.job].hash != d.hash then w' == w.(clock := w'.clock)
    else if c.run.None? || !c.storeOk then w' == w.(clock := w'.clock, journal := w.journal[d.job := Entry(d.hash, None, c.now)])
    else
      && |w'.stores| == |w.stores| + 1 && w'.stores[..|w.stores|] == w.stores
      && var body := w'.stores[|w.stores|].body;
         && w'.stores[|w.stores|] == Store(d.job, body, |w.sent|) && Reports(Runs(c), pool, tolerance, d.job, body)
         && w'.journal == w.journal[d.job := Entry(d.hash, Some(body), c.stored)] && Tried(w, w', d, body, c)
  }

  lemma {:induction false} PublishTries(w: State, d: Delivery, body: Jobs.Result, c: Call)
    requires body.hash == d.hash
    ensures Repeats(w, Publish(w, d, body, c.now, c.answer), d, body, c)
  {
  }

  lemma {:induction false} HandleAnswers(w: State, d: Delivery, c: Call, pool: int, tolerance: int)
    requires w.pending.None? && c.pulled == Some(d) && (d.job in w.journal ==> EntryOk(w, d.job))
    ensures PulledAnswer(w, Handle(w, d, c, pool, tolerance), d, c, pool, tolerance)
  {
    if Stored(w, d).Some? {
      PublishTries(w, d, Stored(w, d).value, c);
    } else if !TooLate(d, c.now, tolerance) && !Conflicts(w, d) && c.run.Some? && c.storeOk {
      var w1, body := Accept(w, d, c.now), Signed(d, pool, c.run.value);
      PublishTries(StoreResult(w1, d, body, c.stored), d, body, c);
      assert StoreResult(w1, d, body, c.stored).journal == w.journal[d.job := Entry(d.hash, Some(body), c.stored)];
    }
  }

  /** What a call does after any run: what an earlier one left unfinished comes first, then
      what the queue delivers; a crash only loses what was unfinished. */
  lemma {:induction false} CallExact(es: seq<Event>, c: Call, pool: int, tolerance: int, expires: int -> int)
    requires Legal(es, pool, tolerance, expires)
    ensures var w := Run(es, pool, tolerance);
            var w' := Step(w, Runs(c), pool, tolerance);
            match w.pending
            case Some(Publication(d, body)) => Repeats(w, w', d, body, c)
            case Some(Expiry(d)) => GivenUp(w, w', d, c)
            case None =>
              if c.pulled.None? then w' == w.(clock := w'.clock) else PulledAnswer(w, w', c.pulled.value, c, pool, tolerance)
    ensures var w := Run(es, pool, tolerance); Step(w, Crash, pool, tolerance) == w.(pending := None)
  {
    EveryRunInv(es, pool, tolerance, expires);
    var w := Run(es, pool, tolerance);
    if w.pending.Some? && w.pending.value.Publication? {
      PublishTries(w, w.pending.value.d, w.pending.value.body, c);
    } else if w.pending.None? && c.pulled.Some? {
      HandleAnswers(w, c.pulled.value, c, pool, tolerance);
    }
  }

  // ----------------------------------------------------------- main theorems

  /** Every result on the queue reports, for its job, what the engine measured in one call
      of the run, with that job's snapshot and slot and the worker's pool. */
  lemma {:induction false} SentReportsMeasurement(es: seq<Event>, pool: int, tolerance: int, i: nat)
    requires i < |Run(es, pool, tolerance).sent|
    ensures var x := Run(es, pool, tolerance).sent[i]; Reported(es, pool, tolerance, x.job, x.body)
  {
    JournaledBeforeSent(es, pool, tolerance, i);
    var w := Run(es, pool, tolerance);
    var k :| 0 <= k < |w.stores| && w.stores[k].job == w.sent[i].job && w.stores[k].body == w.sent[i].body && w.stores[k].sent <= i;
    StoresReport(es, pool, tolerance, k);
  }

  /** Across crashes, redeliveries, failed sends and cleanups a worker puts only identical
      results of a job on the queue, the stored one while the journal has the row; */
  lemma {:induction false} IdenticalResults(es: seq<Event>, pool: int, tolerance: int, expires: int -> int, i: nat, k: nat)
    requires Legal(es, pool, tolerance, expires)
    requires i < |Run(es, pool, tolerance).sent| && k < |Run(es, pool, tolerance).sent|
    requires Run(es, pool, tolerance).sent[i].job == Run(es, pool, tolerance).sent[k].job
    ensures var w := Run(es, pool, tolerance);
            && w.sent[i] == w.sent[k]
            && var j := w.sent[i].job;
               if j in w.journal && w.journal[j].result.Some? then w.journal[j].result == Some(w.sent[i].body)
               else w.clock > expires(j) + tolerance
  {
    EveryRunInv(es, pool, tolerance, expires);
    var w := Run(es, pool, tolerance);
    assert Only(w, w.sent[i].job, w.sent[i].body, tolerance, expires);
  }

  /** every result on the queue was committed to the journal before it was sent the first
      time, in every run whatsoever; */
  lemma {:induction false} JournaledBeforeSent(es: seq<Event>, pool: int, tolerance: int, i: nat)
    requires i < |Run(es, pool, tolerance).sent|
    ensures var w := Run(es, pool, tolerance);
            exists k :: 0 <= k < |w.stores| && w.stores[k].job == w.sent[i].job && w.stores[k].body == w.sent[i].body && w.stores[k].sent <= i
  {
    EveryRunJournaled(es, pool, tolerance);
    var w := Run(es, pool, tolerance);
    assert StoredBy(w.stores, w.sent[i].job, w.sent[i].body, i);
  }

  /** and a job message is only deleted after its result went out or the job ran out. */
  lemma {:induction false} DeletedAfterSent(es: seq<Event>, pool: int, tolerance: int, expires: int -> int, k: nat)
    requires Legal(es, pool, tolerance, expires) && k < |Run(es, pool, tolerance).deleted|
    ensures var w := Run(es, pool, tolerance);
            var x := w.deleted[k];
            || (exists i :: 0 <= i < x.sent && i < |w.sent| && w.sent[i].job == x.d.job && w.sent[i].body.hash == x.d.hash)
            || x.now > x.d.expires + tolerance
  {
    EveryRunInv(es, pool, tolerance, expires);
    var w := Run(es, pool, tolerance);
    assert Justified(w, w.deleted[k], tolerance);
  }

  /** A job that runs out later than the retention period allows: it is executed at t, its
      row is forgotten as soon as it can be, and a redelivery executes it again. */
  function LongJob(d: Delivery, t: int, x: Execution, y: Execution): seq<Event> {
    var later := ForgottenFrom(t);
    [Runs(Call(Some(d), t, Some(x), t, true, Done)), Cleanup(later), Runs(Call(Some(d), later, Some(y), later, true, Done))]
  }

  /** And they are needed: any other job can put two different results on the queue. */
  lemma {:induction false} LongJobAnswersTwice(d: Delivery, t: int, x: Execution, y: Execution, pool: int, tolerance: int)
    requires t >= 0 && !InTime(d, t, tolerance) && x.id != y.id
    ensures InOrder(LongJob(d, t, x, y), pool, tolerance, (_: int) => d.expires)
    ensures var w := Run(LongJob(d, t, x, y), pool, tolerance);
            |w.sent| == 2 && w.sent[0].job == w.sent[1].job == d.job && w.sent[0].body != w.sent[1].body
  {
    var es, expires := LongJob(d, t, x, y), (_: int) => d.expires;
    RunSnoc([], es[0], pool, tolerance, expires);
    RunSnoc([] + [es[0]], es[1], pool, tolerance, expires);
    RunSnoc([] + [es[0]] + [es[1]], es[2], pool, tolerance, expires);
    assert es == [] + [es[0]] + [es[1]] + [es[2]];
    var w1 := Step(START, es[0], pool, tolerance);
    assert w1.journal == map[d.job := Entry(d.hash, Some(Signed(d, pool, x)), t)] && w1.clock == t;
    var w2 := Step(w1, es[1], pool, tolerance);
    ForgottenIff(w1.journal[d.job], ForgottenFrom(t));
    assert w2.journal == map[];
  }

  lemma {:induction false} RunSnoc(es: seq<Event>, e: Event, pool: int, tolerance: int, expires: int -> int)
    ensures Run(es + [e], pool, tolerance) == Step(Run(es, pool, tolerance), e, pool, tolerance)
    ensures InOrder(es + [e], pool, tolerance, expires) <==> InOrder(es, pool, tolerance, expires) && Timely(Run(es, pool, tolerance), e, expires)
  {
    assert (es + [e])[..|es|] == es;
  }

  // -------------------------------------------------------------- the worker

  class WorkerProcess {
    const pool: int
    const tolerance: int
    var clock: int
    var journal: map<int, Entry>
    var pending: Option<Pending>
    var sent: seq<Sent>
    var deleted: seq<Deletion>
    ghost var stores: seq<Store>

    constructor (pool: int, tolerance: int)
      ensures Now() == START && this.pool == pool && this.tolerance == tolerance
    {
      this.pool, this.tolerance := pool, tolerance;
      clock, journal, pending, sent, deleted, stores := 0, map[], None, [], [], [];
    }

    ghost function Now(): State
      reads this
    {
      State(clock, journal, pending, sent, deleted, stores)
    }

    /** Send the result, then delete the job message; ok as the source's nil error. */
    method PublishResultAndAcknowledge(d: Delivery, body: Jobs.Result, now: int, answer: Answer) returns (ok: bool)
      modifies this`sent, this`deleted
      ensures Now() == Publish(old(Now()), d, body, now, answer).(pending := pending)
      ensures ok <==> body.hash == d.hash && answer == Done
    {
      if body.hash != d.hash { return false; }
      if answer == SendFailed(false) { return false; }
      sent := sent + [Sent(d.job, body)];
      if answer.SendFailed? { return false; }
      deleted := deleted + [Deletion(d, now, |sent|)];
      ok := answer == Done;
    }

    method AcceptJob(d: Delivery, now: int) returns (ok: bool)
      modifies this`journal
      ensures ok <==> !Conflicts(old(Now()), d)
      ensures Now() == if ok then Accept(old(Now()), d, now) else old(Now())
    {
      if d.job !in journal {
        journal := journal[d.job := Entry(d.hash, None, now)];
      } else if journal[d.job].hash == d.hash {
        journal := journal[d.job := journal[d.job].(updated := now)];
      } else {
        return false;
      }
      ok := true;
    }

    method RunOnce(c: Call)
      modifies this
      ensures Now() == Step(old(Now()), Runs(c), pool, tolerance)
    {
      clock := Later(c.now, c.stored);
      if pending.Some? {
        match pending.value {
          case Publication(d, body) =>
            var ok := PublishResultAndAcknowledge(d, body, c.now, c.answer);
            if ok { pending := None; }
          case Expiry(d) =>
            deleted := deleted + [Deletion(d, c.now, |sent|)];
            if c.answer == Done { pending := None; }
        }
        return;
      }
      if c.pulled.None? { return; }
      var d := c.pulled.value;
      if d.job in journal && journal[d.job].hash == d.hash && journal[d.job].result.Some? {
        var stored := journal[d.job].result.value;
        var ok := PublishResultAndAcknowledge(d, stored, c.now, c.answer);
        if !ok { pending := Some(Publication(d, stored)); }
        return;
      }
      if c.now > d.expires + tolerance {
        deleted := deleted + [Deletion(d, c.now, |sent|)];
        if c.answer != Done { pending := Some(Expiry(d)); }
        return;
      }
      var accepted := AcceptJob(d, c.now);
      if !accepted || c.run.None? || !c.storeOk { return; }
      var body := Signed(d, pool, c.run.value);
      journal := journal[d.job := Entry(d.hash, Some(body), c.stored)];
      stores := stores + [Store(d.job, body, |sent|)];
      var ok := PublishResultAndAcknowledge(d, body, c.now, c.answer);
      if !ok { pending := Some(Publication(d, body)); }
    }

    method CleanupJournal(now: int)
      modifies this
      ensures Now() == Step(old(Now()), Cleanup(now), pool, tolerance)
    {
      var before := now - RETENTION;
      journal := map j | j in journal && !Forgotten(journal[j], before) :: journal[j];
      clock := now;
    }
  }
}
