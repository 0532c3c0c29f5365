/** Threshold incidents (internal/incident/service.go) on top of the ordered
    state: one monitor with its single `consecutive_failures` rule. */
module Incidents {
  import opened Positions
  import opened Evaluation
  import opened RunLength

  datatype Status = Open | Resolved
  datatype Kind = AutomaticRecovery | ManualResolution | LateCorrection

  datatype Incident = Incident(status: Status, startedAt: int, openedAt: int, acknowledged: bool, kind: Option<Kind>)

  /** incident_events is unique on (incident_id, event_key). */
  datatype Key = OpenedKey | AcknowledgedKey | ResolvedKey
  datatype EventRef = EventRef(incident: int, key: Key)
  datatype Entry = Opened | Acknowledged | Closed(kind: Kind)

  datatype Book = Book(incidents: map<int, Incident>, events: map<EventRef, Entry>)

  datatype Rule = Rule(enabled: bool, limits: Limits)

  /** The evaluator falls back to its built-in thresholds when the rule is disabled. */
  function Thresholds(rule: Rule): Limits {
    if rule.enabled then rule.limits else Limits(3, 2)
  }

  predicate IsOpen(b: Book, i: int) {
    i in b.incidents && b.incidents[i].status == Open
  }

  ghost predicate HasOpen(b: Book) {
    exists i :: IsOpen(b, i)
  }

  /** The partial unique index on open incidents. */
  ghost predicate AtMostOneOpen(b: Book) {
    forall i, j :: IsOpen(b, i) && IsOpen(b, j) ==> i == j
  }

  function Upsert(events: map<EventRef, Entry>, ref: EventRef, entry: Entry): map<EventRef, Entry> {
    if ref in events then events else events[ref := entry]
  }

  /** The oldest of the `failure` newest evaluation times, or now without any. */
  function StartedAt(v: View, failure: int, now: int): int {
    var l := Ordered(v.evals.Keys);
    if l == [] || failure <= 0 then now
    else l[if |l| >= failure then |l| - failure else 0].at
  }

  function OpenIncident(b: Book, id: int, startedAt: int, now: int): Book {
    if id in b.incidents then b
    else Book(b.incidents[id := Incident(Open, startedAt, now, false, None)],
              Upsert(b.events, EventRef(id, OpenedKey), Opened))
  }

  function ResolveIncident(b: Book, id: int, kind: Kind): Book {
    if id !in b.incidents || b.incidents[id].status != Open then b
    else Book(b.incidents[id := b.incidents[id].(status := Resolved, kind := Some(kind))],
              Upsert(b.events, EventRef(id, ResolvedKey), Closed(kind)))
  }

  /** LockOpenIncident, then resolve what it found. */
  ghost function ResolveOpen(b: Book, kind: Kind): Book {
    if HasOpen(b) then var id :| IsOpen(b, id); ResolveIncident(b, id, kind) else b
  }

  ghost function Apply(b: Book, v: View, rule: Rule, corrected: bool, id: int, now: int): Book {
    if !rule.enabled then b
    else if v.now.state == Down then
      if HasOpen(b) then b else OpenIncident(b, id, StartedAt(v, rule.limits.failure, now), now)
    else if corrected then ResolveOpen(b, LateCorrection)
    else if v.now.state == Healthy then ResolveOpen(b, AutomaticRecovery)
    else b
  }

  function Acknowledge(b: Book, id: int): Book {
    if id !in b.incidents || b.incidents[id].status != Open || b.incidents[id].acknowledged then b
    else Book(b.incidents[id := b.incidents[id].(acknowledged := true)],
              Upsert(b.events, EventRef(id, AcknowledgedKey), Acknowledged))
  }

  /** The incident tables of a monitor, as the service updates them. */
  class IncidentService {
    var incidents: map<int, Incident>
    var events: map<EventRef, Entry>

    constructor ()
      ensures Now() == Book(map[], map[])
    {
      incidents, events := map[], map[];
    }

    function Now(): Book
      reads this
    {
      Book(incidents, events)
    }

    method InsertEvent(ref: EventRef, entry: Entry)
      modifies this`events
      ensures events == Upsert(old(events), ref, entry)
    {
      if ref !in events { events := events[ref := entry]; }
    }

    method ApplyEvaluation(v: View, rule: Rule, corrected: bool, id: int, now: int)
      requires AtMostOneOpen(Now())
      modifies this
      ensures Now() == Apply(old(Now()), v, rule, corrected, id, now)
    {
      if !rule.enabled { return; }
      ghost var b := Now();
      if openId :| openId in incidents && incidents[openId].status == Open {
        assert IsOpen(b, openId);
        if v.now.state != Down && (corrected || v.now.state == Healthy) {
          var kind := if corrected then LateCorrection else AutomaticRecovery;
          incidents := incidents[openId := incidents[openId].(status := Resolved, kind := Some(kind))];
          InsertEvent(EventRef(openId, ResolvedKey), Closed(kind));
        }
      } else {
        assert !HasOpen(b);
        if v.now.state == Down && id !in incidents {
          incidents := incidents[id := Incident(Open, StartedAt(v, rule.limits.failure, now), now, false, None)];
          InsertEvent(EventRef(id, OpenedKey), Opened);
        }
      }
    }

    method AcknowledgeIncident(id: int) returns (found: bool)
      modifies this
      ensures Now() == Acknowledge(old(Now()), id)
      ensures found == IsOpen(old(Now()), id)
    {
      found := id in incidents && incidents[id].status == Open;
      if found && !incidents[id].acknowledged {
        incidents := incidents[id := incidents[id].(acknowledged := true)];
        InsertEvent(EventRef(id, AcknowledgedKey), Acknowledged);
      }
    }

    method ResolveManually(id: int) returns (found: bool)
      modifies this
      ensures Now() == ResolveIncident(old(Now()), id, ManualResolution)
      ensures found == IsOpen(old(Now()), id)
    {
      found := id in incidents && incidents[id].status == Open;
      if found {
        incidents := incidents[id := incidents[id].(status := Resolved, kind := Some(ManualResolution))];
        InsertEvent(EventRef(id, ResolvedKey), Closed(ManualResolution));
      }
    }
  }

  // -------------------------------------------------------------------- state

  /** At most one open incident; one opened event each; one resolved event
      exactly when resolved; one acknowledged event exactly when acknowledged. */
  ghost predicate Sound(b: Book) {
    && AtMostOneOpen(b)
    && (forall e :: e in b.events ==> e.incident in b.incidents)
    && (forall i :: i in b.incidents ==> SoundEntry(b, i))
  }

  ghost predicate SoundEntry(b: Book, i: int)
    requires i in b.incidents
  {
    var r := EventRef(i, ResolvedKey);
    && EventRef(i, OpenedKey) in b.events && b.events[EventRef(i, OpenedKey)] == Opened
    && (r in b.events <==> b.incidents[i].status == Resolved)
    && (b.incidents[i].kind.Some? <==> b.incidents[i].status == Resolved)
    && (r in b.events && b.incidents[i].kind.Some? ==> b.events[r] == Closed(b.incidents[i].kind.value))
    && (EventRef(i, AcknowledgedKey) in b.events <==> b.incidents[i].acknowledged)
    && (EventRef(i, AcknowledgedKey) in b.events ==> b.events[EventRef(i, AcknowledgedKey)] == Acknowledged)
  }

  /** Nothing is deleted, and resolved incidents and recorded events never change. */
  ghost predicate Extends(b: Book, b': Book) {
    && (forall i :: i in b.incidents ==> i in b'.incidents)
    && (forall i :: i in b.incidents && b.incidents[i].status == Resolved ==> b'.incidents[i] == b.incidents[i])
    && (forall e :: e in b.events ==> e in b'.events && b'.events[e] == b.events[e])
  }

  lemma OpenSound(b: Book, id: int, startedAt: int, now: int)
    requires Sound(b) && !HasOpen(b)
    ensures var b' := OpenIncident(b, id, startedAt, now); Sound(b') && Extends(b, b')
  {
    var b' := OpenIncident(b, id, startedAt, now);
    assert forall i :: IsOpen(b', i) && i != id ==> IsOpen(b, i);
    forall i | i in b'.incidents ensures SoundEntry(b', i) {
      assert i in b.incidents ==> SoundEntry(b, i);
    }
  }

  lemma ResolveSound(b: Book, id: int, kind: Kind)
    requires Sound(b)
    ensures var b' := ResolveIncident(b, id, kind);
            Sound(b') && Extends(b, b') && (IsOpen(b, id) ==> !HasOpen(b'))
  {
    var b' := ResolveIncident(b, id, kind);
    assert forall i :: IsOpen(b', i) ==> IsOpen(b, i);
    forall i | i in b'.incidents ensures SoundEntry(b', i) {
      assert SoundEntry(b, i);
    }
  }

  lemma AcknowledgeSound(b: Book, id: int)
    requires Sound(b)
    ensures var b' := Acknowledge(b, id); Sound(b') && Extends(b, b')
  {
    var b' := Acknowledge(b, id);
    assert forall i :: IsOpen(b', i) <==> IsOpen(b, i);
    forall i | i in b'.incidents ensures SoundEntry(b', i) {
      assert SoundEntry(b, i);
    }
  }

  /** What one evaluation does to the book. */
  lemma ApplySound(b: Book, v: View, rule: Rule, corrected: bool, id: int, now: int)
    requires Sound(b) && id !in b.incidents
    ensures var b' := Apply(b, v, rule, corrected, id, now); Sound(b') && Extends(b, b')
    ensures var b' := Apply(b, v, rule, corrected, id, now);
            rule.enabled && v.now.state == Down ==> HasOpen(b')
    ensures var b' := Apply(b, v, rule, corrected, id, now);
            rule.enabled && (v.now.state == Healthy || (corrected && v.now.state != Down)) ==> !HasOpen(b')
    ensures var b' := Apply(b, v, rule, corrected, id, now);
            id in b'.incidents ==>
              && v.now.state == Down && rule.enabled && !HasOpen(b)
              && b'.incidents[id] == Incident(Open, StartedAt(v, rule.limits.failure, now), now, false, None)
  {
    var b' := Apply(b, v, rule, corrected, id, now);
    if rule.enabled && v.now.state == Down {
      if !HasOpen(b) {
        OpenSound(b, id, StartedAt(v, rule.limits.failure, now), now);
        assert IsOpen(b', id);
      }
    } else if HasOpen(b) {
      forall o, k | IsOpen(b, o)
        ensures var c := ResolveIncident(b, o, k); Sound(c) && Extends(b, c) && !HasOpen(c) && id !in c.incidents
      {
        ResolveSound(b, o, k);
      }
    }
  }

  /** An open incident outlasts an evaluation that leaves the monitor down, or neither healthy nor corrected. */
  predicate Outlasts(v: View, rule: Rule, corrected: bool) {
    !rule.enabled || v.now.state == Down || (v.now.state != Healthy && !corrected)
  }

  /** What one evaluation leaves alone, and what it closes and how. */
  lemma {:induction false} ApplyExact(b: Book, v: View, rule: Rule, corrected: bool, id: int, now: int)
    requires Sound(b) && id !in b.incidents
    ensures var b' := Apply(b, v, rule, corrected, id, now);
            Outlasts(v, rule, corrected) && !(rule.enabled && v.now.state == Down && !HasOpen(b)) ==> b' == b
    ensures var b' := Apply(b, v, rule, corrected, id, now);
            var kind := if corrected then LateCorrection else AutomaticRecovery;
            forall i :: IsOpen(b, i) ==>
              if Outlasts(v, rule, corrected) then IsOpen(b', i)
              else b'.incidents == b.incidents[i := b.incidents[i].(status := Resolved, kind := Some(kind))]
  {
    if !Outlasts(v, rule, corrected) {
      forall i, k | IsOpen(b, i) ensures ResolveOpen(b, k) == ResolveIncident(b, i, k) {
        assert HasOpen(b);
      }
    }
  }

  // --------------------------------------------------------------------- runs

  /** A monitor's ordered state together with its incidents. */
  datatype Monitor = Monitor(view: View, book: Book)

  const NEW := Monitor(EMPTY, Book(map[], map[]))

  /** Result: an accepted scheduled result; id is the UUID an incident opened here would get. */
  datatype Event =
    | Result(p: Pos, ok: bool, inWindow: bool, id: int, now: int)
    | Tick
    | Ack(incident: int)
    | Resolve(incident: int)

  ghost function Step(m: Monitor, e: Event, rule: Rule): Monitor {
    match e
    case Result(p, ok, inWindow, id, now) =>
      if p in m.view.raw || id in m.book.incidents then m else
        var view := Evaluation.Step(m.view, Accepted(p, ok, inWindow), Thresholds(rule));
        if !inWindow then m.(view := view)
        else Monitor(view, Apply(m.book, view, rule, IsCorrection(m.view, Some(p)), id, now))
    case Tick => m.(view := Evaluation.Step(m.view, Timer, Thresholds(rule)))
    case Ack(incident) => m.(book := Acknowledge(m.book, incident))
    case Resolve(incident) => m.(book := ResolveIncident(m.book, incident, ManualResolution))
  }

  ghost function Run(es: seq<Event>, rule: Rule): Monitor {
    if es == [] then NEW else Step(Run(es[..|es| - 1], rule), es[|es| - 1], rule)
  }

  ghost predicate Good(m: Monitor, rule: Rule) {
    Consistent(m.view, Thresholds(rule)) && Sound(m.book)
  }

  lemma {:induction false} StepGood(m: Monitor, e: Event, rule: Rule)
    requires Good(m, rule)
    ensures Good(Step(m, e, rule), rule)
    ensures Extends(m.book, Step(m, e, rule).book)
  {
    match e
    case Result(p, ok, inWindow, id, now) =>
      if p !in m.view.raw && id !in m.book.incidents {
        StepKeeps(m.view, Accepted(p, ok, inWindow), Thresholds(rule));
        var view := Evaluation.Step(m.view, Accepted(p, ok, inWindow), Thresholds(rule));
        ApplySound(m.book, view, rule, IsCorrection(m.view, Some(p)), id, now);
      }
    case Tick => StepKeeps(m.view, Timer, Thresholds(rule));
    case Ack(incident) => AcknowledgeSound(m.book, incident);
    case Resolve(incident) => ResolveSound(m.book, incident, ManualResolution);
  }

  /** In every run the book is sound. */
  lemma {:induction false} EveryRunGood(es: seq<Event>, rule: Rule)
    ensures Good(Run(es, rule), rule)
  {
    if es == [] {
      Evaluation.EveryRunIsAFold([], Thresholds(rule));
    } else {
      EveryRunGood(es[..|es| - 1], rule);
      StepGood(Run(es[..|es| - 1], rule), es[|es| - 1], rule);
    }
  }

  /** In every run the state is the fold with the rule's thresholds, or with three failures
      and two successes while the rule is disabled. */
  lemma {:induction false} StateFollowsRule(es: seq<Event>, rule: Rule)
    ensures var view := Run(es, rule).view;
            view == Folded(view.raw, view.evals.Keys, if rule.enabled then rule.limits else Limits(3, 2))
  {
    EveryRunGood(es, rule);
  }

  /** Resolved is absorbing, and events stay as written, however the run goes on. */
  lemma {:induction false} ResolvedForever(es: seq<Event>, more: seq<Event>, rule: Rule)
    ensures Extends(Run(es, rule).book, Run(es + more, rule).book)
  {
    if more == [] {
      assert es + more == es;
    } else {
      var front, e := more[..|more| - 1], more[|more| - 1];
      ResolvedForever(es, front, rule);
      RunSnoc(es + front, e, rule);
      assert es + more == (es + front) + [e];
      EveryRunGood(es + front, rule);
      StepGood(Run(es + front, rule), e, rule);
      ExtendsTransitive(Run(es, rule).book, Run(es + front, rule).book, Run(es + more, rule).book);
    }
  }

  lemma {:induction false} RunSnoc(es: seq<Event>, e: Event, rule: Rule)
    ensures Run(es + [e], rule) == Step(Run(es, rule), e, rule)
  {
    assert (es + [e])[..|es|] == es;
  }

  lemma ExtendsTransitive(a: Book, b: Book, c: Book)
    requires Extends(a, b) && Extends(b, c)
    ensures Extends(a, c)
  {
  }

  /** Right after an in-window acceptance under an enabled rule: down means one open
      incident; healthy, or corrected and not down, means none; and an incident open before
      is still open exactly when the monitor is down, or not healthy without a correction. */
  lemma {:induction false} AfterAcceptance(es: seq<Event>, e: Event, rule: Rule)
    requires e.Result? && e.inWindow && rule.enabled
    requires e.p !in Run(es, rule).view.raw && e.id !in Run(es, rule).book.incidents
    ensures var m := Step(Run(es, rule), e, rule);
            && AtMostOneOpen(m.book)
            && (m.view.now.state == Down ==> HasOpen(m.book))
            && (m.view.now.state == Healthy ==> !HasOpen(m.book))
            && (IsCorrection(Run(es, rule).view, Some(e.p)) && m.view.now.state != Down ==> !HasOpen(m.book))
    ensures var m, corrected := Step(Run(es, rule), e, rule), IsCorrection(Run(es, rule).view, Some(e.p));
            forall i :: IsOpen(Run(es, rule).book, i) ==>
              (IsOpen(m.book, i) <==> m.view.now.state == Down || (m.view.now.state != Healthy && !corrected))
  {
    var m := Run(es, rule);
    EveryRunGood(es, rule);
    StepGood(m, e, rule);
    var view := Evaluation.Step(m.view, Accepted(e.p, e.ok, true), Thresholds(rule));
    ApplySound(m.book, view, rule, IsCorrection(m.view, Some(e.p)), e.id, e.now);
    ApplyExact(m.book, view, rule, IsCorrection(m.view, Some(e.p)), e.id, e.now);
  }

  // ------------------------------------------------- how an incident was closed

  /** Event e closes incident i of m as kind. */
  ghost predicate Closes(m: Monitor, e: Event, rule: Rule, i: int, kind: Kind) {
    IsOpen(m.book, i) &&
    match e
    case Resolve(incident) => incident == i && kind == ManualResolution
    case Result(p, _, inWindow, id, _) =>
      && p !in m.view.raw && id !in m.book.incidents && inWindow
      && var corrected := IsCorrection(m.view, Some(p));
         && !Outlasts(Step(m, e, rule).view, rule, corrected)
         && kind == if corrected then LateCorrection else AutomaticRecovery
    case _ => false
  }

  predicate ClosedAs(b: Book, i: int, kind: Kind) {
    i in b.incidents && b.incidents[i].status == Resolved && b.incidents[i].kind == Some(kind)
  }

  predicate IsAcknowledged(b: Book, i: int) {
    i in b.incidents && b.incidents[i].acknowledged
  }

  lemma {:induction false} ApplyClosed(b: Book, v: View, rule: Rule, corrected: bool, id: int, now: int, i: int, kind: Kind)
    requires Sound(b) && id !in b.incidents
    ensures var b' := Apply(b, v, rule, corrected, id, now);
            ClosedAs(b', i, kind) <==>
              ClosedAs(b, i, kind) ||
              (IsOpen(b, i) && !Outlasts(v, rule, corrected) && kind == if corrected then LateCorrection else AutomaticRecovery)
    ensures var b' := Apply(b, v, rule, corrected, id, now); IsAcknowledged(b', i) <==> IsAcknowledged(b, i)
  {
    assert i in b.incidents ==> SoundEntry(b, i);
    ApplySound(b, v, rule, corrected, id, now);
    ApplyExact(b, v, rule, corrected, id, now);
    if HasOpen(b) {
      var o :| IsOpen(b, o);
      assert Outlasts(v, rule, corrected) ==> Apply(b, v, rule, corrected, id, now) == b;
    }
  }

  lemma {:induction false} StepClosed(m: Monitor, e: Event, rule: Rule, i: int, kind: Kind)
    requires Good(m, rule)
    ensures ClosedAs(Step(m, e, rule).book, i, kind) <==> ClosedAs(m.book, i, kind) || Closes(m, e, rule, i, kind)
  {
    assert i in m.book.incidents ==> SoundEntry(m.book, i);
    if e.Result? && e.p !in m.view.raw && e.id !in m.book.incidents && e.inWindow {
      var view := Evaluation.Step(m.view, Accepted(e.p, e.ok, true), Thresholds(rule));
      ApplyClosed(m.book, view, rule, IsCorrection(m.view, Some(e.p)), e.id, e.now, i, kind);
    }
  }

  ghost predicate ClosesAt(es: seq<Event>, k: nat, rule: Rule, i: int, kind: Kind)
    requires k < |es|
  {
    Closes(Run(es[..k], rule), es[k], rule, i, kind)
  }

  /** In every run an incident is resolved as a kind exactly when some event closed it so:
      a manual resolution while it was open, a late correction that left the monitor not
      down, or an acceptance that left it healthy. */
  lemma {:induction false} ResolvedIff(es: seq<Event>, rule: Rule, i: int, kind: Kind)
    ensures ClosedAs(Run(es, rule).book, i, kind) <==> exists k :: 0 <= k < |es| && ClosesAt(es, k, rule, i, kind)
  {
    if es != [] {
      var n := |es| - 1;
      ResolvedIff(es[..n], rule, i, kind);
      EveryRunGood(es[..n], rule);
      StepClosed(Run(es[..n], rule), es[n], rule, i, kind);
      assert ClosesAt(es, n, rule, i, kind) <==> Closes(Run(es[..n], rule), es[n], rule, i, kind);
      forall k | 0 <= k < n ensures ClosesAt(es[..n], k, rule, i, kind) <==> ClosesAt(es, k, rule, i, kind) {
        assert es[..n][..k] == es[..k];
      }
    }
  }

  /** An acknowledgement of incident i while it was open. */
  ghost predicate AcksAt(es: seq<Event>, k: nat, rule: Rule, i: int)
    requires k < |es|
  {
    es[k] == Ack(i) && IsOpen(Run(es[..k], rule).book, i)
  }

  lemma {:induction false} StepAcknowledged(m: Monitor, e: Event, rule: Rule, i: int)
    requires Good(m, rule)
    ensures IsAcknowledged(Step(m, e, rule).book, i) <==> IsAcknowledged(m.book, i) || (e == Ack(i) && IsOpen(m.book, i))
  {
    if e.Result? && e.p !in m.view.raw && e.id !in m.book.incidents && e.inWindow {
      var view := Evaluation.Step(m.view, Accepted(e.p, e.ok, true), Thresholds(rule));
      ApplyClosed(m.book, view, rule, IsCorrection(m.view, Some(e.p)), e.id, e.now, i, LateCorrection);
    }
  }

  /** In every run an incident is acknowledged exactly when it was while it was open. */
  lemma {:induction false} AcknowledgedIff(es: seq<Event>, rule: Rule, i: int)
    ensures IsAcknowledged(Run(es, rule).book, i) <==> exists k :: 0 <= k < |es| && AcksAt(es, k, rule, i)
  {
    if es != [] {
      var n := |es| - 1;
      AcknowledgedIff(es[..n], rule, i);
      EveryRunGood(es[..n], rule);
      StepAcknowledged(Run(es[..n], rule), es[n], rule, i);
      assert AcksAt(es, n, rule, i) <==> es[n] == Ack(i) && IsOpen(Run(es[..n], rule).book, i);
      forall k | 0 <= k < n ensures AcksAt(es[..n], k, rule, i) <==> AcksAt(es, k, rule, i) {
        assert es[..n][..k] == es[..k];
      }
    }
  }

  // ------------------------------------------------------ when an incident starts

  /** The design dates an incident from its first qualifying failure. An incident
      opened by e starts at the F-th newest evaluation (F the failure threshold);
      all evaluations from there on failed exactly when the newest one did. */
  lemma {:induction false} IncidentStart(es: seq<Event>, e: Event, rule: Rule, m: Monitor, m': Monitor, l: seq<Pos>)
    requires Positive(rule.limits) && e.Result? && m == Run(es, rule) && m' == Step(m, e, rule)
    requires e.p !in m.view.raw && e.id !in m.book.incidents && e.id in m'.book.incidents
    requires l == Ordered(m'.view.evals.Keys)
    ensures |l| >= rule.limits.failure && m'.book.incidents[e.id].startedAt == l[|l| - rule.limits.failure].at
    ensures !Ok(m'.view.raw, l[|l| - 1]) <==> forall i :: |l| - rule.limits.failure <= i < |l| ==> !Ok(m'.view.raw, l[i])
  {
    EveryRunGood(es, rule);
    assert Good(m', rule) by { StepGood(m, e, rule); }
    OpenedBy(m, e, rule);
    DownStart(m', rule, l, e.now);
  }

  /** StartedAt of a monitor that is down. */
  lemma {:induction false} DownStart(m: Monitor, rule: Rule, l: seq<Pos>, now: int)
    requires Positive(rule.limits) && rule.enabled && Good(m, rule) && m.view.now.state == Down && l == Ordered(m.view.evals.Keys)
    ensures |l| >= rule.limits.failure && StartedAt(m.view, rule.limits.failure, now) == l[|l| - rule.limits.failure].at
    ensures !Ok(m.view.raw, l[|l| - 1]) <==> forall i :: |l| - rule.limits.failure <= i < |l| ==> !Ok(m.view.raw, l[i])
  {
    DownSuffixFailed(m.view.raw, l, rule.limits);
  }

  /** An incident that a result opens: the monitor is down under an enabled rule, and it starts at StartedAt. */
  lemma {:induction false} OpenedBy(m: Monitor, e: Event, rule: Rule)
    requires Good(m, rule) && e.Result? && e.p !in m.view.raw && e.id !in m.book.incidents
    requires e.id in Step(m, e, rule).book.incidents
    ensures var m' := Step(m, e, rule);
            && rule.enabled && m'.view.now.state == Down
            && m'.book.incidents[e.id].startedAt == StartedAt(m'.view, rule.limits.failure, e.now)
  {
    var view := Evaluation.Step(m.view, Accepted(e.p, e.ok, e.inWindow), Thresholds(rule));
    assert e.inWindow && Step(m, e, rule) == Monitor(view, Apply(m.book, view, rule, IsCorrection(m.view, Some(e.p)), e.id, e.now));
    ApplySound(m.book, view, rule, IsCorrection(m.view, Some(e.p)), e.id, e.now);
  }

  lemma {:induction false} TwoResults(p: Pos, q: Pos, raw: map<Pos, bool>)
    requires After(q, p) && raw == map[p := false, q := true]
    ensures Ordered({p}) == [p] && Ordered({p, q}) == [p, q]
    ensures Fold(raw, [p, q], Limits(1, 2)) == Counters(Down, 0, 1)
    ensures Fold(map[p := false], [p], Limits(1, 2)) == Counters(Down, 1, 0)
  {
    OrderedPair(p, q);
    FoldOne(raw, p, Limits(1, 2));
    FoldOne(map[p := false], p, Limits(1, 2));
    FoldNext(raw, [p], q, Limits(1, 2));
    assert [p] + [q] == [p, q];
  }

  lemma {:induction false} OrderedPair(p: Pos, q: Pos)
    requires After(q, p)
    ensures Ordered({p}) == [p] && Ordered({p, q}) == [p, q]
  {
    assert SetOf([]) == {} && [] + [p] == [p] && [p] + [q] == [p, q];
    SortedSnoc([], p);
    OrderedIs([p], {p});
    SortedSnoc([p], q);
    assert {p} + {q} == {p, q};
    OrderedIs([p, q], {p, q});
  }

  lemma {:induction false} OrderedIs(l: seq<Pos>, s: set<Pos>)
    requires Sorted(l) && SetOf(l) == s
    ensures Ordered(s) == l
  {
    OrderedSpec(s);
    SortedUnique(Ordered(s), l);
  }

  lemma FoldOne(raw: map<Pos, bool>, p: Pos, lim: Limits)
    ensures Fold(raw, [p], lim) == Advance(START, Ok(raw, p), lim)
  {
    assert [p][..0] == [];
  }

  lemma FoldNext(raw: map<Pos, bool>, l: seq<Pos>, p: Pos, lim: Limits)
    ensures Fold(raw, l + [p], lim) == Advance(Fold(raw, l, lim), Ok(raw, p), lim)
  {
    assert (l + [p])[..|l|] == l;
  }

  /** The ordered state after a failure, and after a success that follows it. */
  lemma {:induction false} FailureThenSuccess(p: Pos, q: Pos)
    requires After(q, p)
    ensures var lim := Limits(1, 2);
            var v := Evaluation.Step(EMPTY, Accepted(p, false, true), lim);
            var w := Evaluation.Step(v, Accepted(q, true, true), lim);
            && v.raw == map[p := false] && v.now.state == Down
            && w.raw == map[p := false, q := true] && w.now.state == Down
            && w.evals.Keys == {p, q}
  {
    var lim := Limits(1, 2);
    TwoResults(p, q, map[p := false, q := true]);
    EveryRunIsAFold([], lim);
    var v := Evaluation.Step(EMPTY, Accepted(p, false, true), lim);
    StepKeeps(EMPTY, Accepted(p, false, true), lim);
    InWindowStep(EMPTY, Accepted(p, false, true), lim);
    assert v.raw.Keys == {p};
    StepKeeps(v, Accepted(q, true, true), lim);
    InWindowStep(v, Accepted(q, true, true), lim);
    assert Evaluation.Step(v, Accepted(q, true, true), lim).raw.Keys == {p, q};
  }

  /** And that can fail: a failure opens an incident, an operator resolves it, and
      a first success, not yet a recovery, opens a second one dated at the success. */
  lemma {:induction false} SuccessCanOpenIncident(p: Pos, q: Pos, first: int, second: int, now: int)
    requires After(q, p) && first != second
    ensures var rule := Rule(true, Limits(1, 2));
            var m1 := Step(NEW, Result(p, false, true, first, now), rule);
            var m2 := Step(m1, Resolve(first), rule);
            var m3 := Step(m2, Result(q, true, true, second, now), rule);
            && IsOpen(m1.book, first) && IsOpen(m3.book, second)
            && m3.book.incidents[second].startedAt == q.at && Ok(m3.view.raw, q)
  {
    var rule := Rule(true, Limits(1, 2));
    FailureThenSuccess(p, q);
    TwoResults(p, q, map[p := false, q := true]);
    var m1 := Step(NEW, Result(p, false, true, first, now), rule);
    assert !HasOpen(NEW.book);
    DownOpens(NEW, Result(p, false, true, first, now), rule);
    var m2 := Step(m1, Resolve(first), rule);
    assert m2.book == ResolveIncident(m1.book, first, ManualResolution) && m2.book.incidents.Keys == {first};
    assert !HasOpen(m2.book);
    DownOpens(m2, Result(q, true, true, second, now), rule);
  }

  /** A result that leaves the monitor down opens an incident when none is open. */
  lemma {:induction false} DownOpens(m: Monitor, e: Event, rule: Rule)
    requires e.Result? && e.inWindow && rule.enabled && e.p !in m.view.raw && e.id !in m.book.incidents && !HasOpen(m.book)
    requires Evaluation.Step(m.view, Accepted(e.p, e.ok, true), Thresholds(rule)).now.state == Down
    ensures var m' := Step(m, e, rule);
            && m'.view == Evaluation.Step(m.view, Accepted(e.p, e.ok, true), Thresholds(rule))
            && m'.book == OpenIncident(m.book, e.id, StartedAt(m'.view, rule.limits.failure, e.now), e.now)
  {
  }
}
