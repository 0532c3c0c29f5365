/** Ordered monitor evaluation (internal/reliability/evaluation.go): the observed
    state is kept incrementally, with rollback and replay when a late result
    arrives. One monitor; every query of the source filters on its id. */
module Evaluation {
  import opened Positions

  datatype Observed = Unknown | Healthy | Degraded | Down

  datatype Counters = Counters(state: Observed, failures: int, successes: int)

  /** Alert thresholds; the table constraints keep both at least 1. */
  datatype Limits = Limits(failure: int, recovery: int)

  predicate Positive(lim: Limits) {
    lim.failure >= 1 && lim.recovery >= 1
  }

  const START := Counters(Unknown, 0, 0)

  function Advance(c: Counters, ok: bool, lim: Limits): Counters {
    if ok then
      if c.state == Down then
        if c.successes + 1 >= lim.recovery then Counters(Healthy, 0, 0)
        else Counters(Down, 0, c.successes + 1)
      else Counters(Healthy, 0, 0)
    else
      var failures := if c.failures < lim.failure then c.failures + 1 else c.failures;
      if failures >= lim.failure then Counters(Down, lim.failure, 0)
      else Counters(Degraded, failures, 0)
  }

  /** One row of monitor_result_evaluations. */
  datatype Row = Row(ok: bool, after: Counters)

  /** Accepted scheduled results (raw), evaluation rows and the state row of a monitor. */
  datatype View = View(raw: map<Pos, bool>, evals: map<Pos, Row>, now: Counters, last: Option<Pos>)

  const EMPTY := View(map[], map[], START, None)

  predicate Ok(raw: map<Pos, bool>, p: Pos) {
    p in raw && raw[p]
  }

  // ---------------------------------------------------------------- reference

  /** The reference meaning: a plain fold over a listing of results. */
  function Fold(raw: map<Pos, bool>, l: seq<Pos>, lim: Limits): Counters {
    if l == [] then START
    else Advance(Fold(raw, l[..|l| - 1], lim), Ok(raw, l[|l| - 1]), lim)
  }

  /** The table a fold leaves behind: each result with the state right after it. */
  function Rows(raw: map<Pos, bool>, l: seq<Pos>, lim: Limits): map<Pos, Row> {
    if l == [] then map[]
    else Rows(raw, l[..|l| - 1], lim)[l[|l| - 1] := Row(Ok(raw, l[|l| - 1]), Fold(raw, l, lim))]
  }

  function Listed(raw: map<Pos, bool>, l: seq<Pos>, lim: Limits): View {
    View(raw, Rows(raw, l, lim), Fold(raw, l, lim), LastOf(l))
  }

  /** The view that folding the results s from scratch, in order, would leave. */
  function Folded(raw: map<Pos, bool>, s: set<Pos>, lim: Limits): View {
    Listed(raw, Ordered(s), lim)
  }

  // ----------------------------------------------------------------- the code

  function Baseline(evals: map<Pos, Row>, p: Pos): (Counters, Option<Pos>) {
    var before := Below(evals.Keys, p);
    if before == {} then (START, None)
    else var g := Greatest(before); (evals[g].after, Some(g))
  }

  function DeleteFrom(evals: map<Pos, Row>, p: Pos): map<Pos, Row> {
    map q | q in evals && After(p, q) :: evals[q]
  }

  function ListFrom(raw: map<Pos, bool>, p: Pos): seq<Pos> {
    Ordered(FromOn(raw.Keys, p))
  }

  function ListAfter(raw: map<Pos, bool>, p: Pos): seq<Pos> {
    Ordered(Above(raw.Keys, p))
  }

  function ListAll(raw: map<Pos, bool>): seq<Pos> {
    Ordered(raw.Keys)
  }

  predicate IsCorrection(v: View, accepted: Option<Pos>) {
    accepted.Some? && v.last.Some? && !After(accepted.value, v.last.value)
  }

  /** The view the replay loop starts from. */
  function ReplayStart(v: View, accepted: Option<Pos>): View {
    if IsCorrection(v, accepted) then
      var base := Baseline(v.evals, accepted.value);
      View(v.raw, DeleteFrom(v.evals, accepted.value), base.0, base.1)
    else v
  }

  /** The results the replay loop goes through. */
  function Todo(v: View, accepted: Option<Pos>): seq<Pos> {
    if IsCorrection(v, accepted) then ListFrom(v.raw, accepted.value)
    else if v.last.Some? then ListAfter(v.raw, v.last.value)
    else ListAll(v.raw)
  }

  function Replay(v: View, todo: seq<Pos>, lim: Limits): View {
    if todo == [] then v else
      var w := Replay(v, todo[..|todo| - 1], lim);
      var p := todo[|todo| - 1];
      var c := Advance(w.now, Ok(v.raw, p), lim);
      View(v.raw, w.evals[p := Row(Ok(v.raw, p), c)], c, Some(p))
  }

  function EvaluateTx(v: View, accepted: Option<Pos>, lim: Limits): View {
    Replay(ReplayStart(v, accepted), Todo(v, accepted), lim)
  }

  /** The rows and the state row, as the source updates them in place. */
  class MonitorState {
    var raw: map<Pos, bool>
    var evals: map<Pos, Row>
    var observed: Observed
    var failures: int
    var successes: int
    var lastObserved: Option<Pos>

    constructor ()
      ensures Now() == EMPTY
    {
      raw, evals, lastObserved := map[], map[], None;
      observed, failures, successes := Unknown, 0, 0;
    }

    function Now(): View
      reads this
    {
      View(raw, evals, Counters(observed, failures, successes), lastObserved)
    }

    /** The baseline and the results to replay. */
    method RollBack(accepted: Option<Pos>) returns (corrected: bool, results: seq<Pos>)
      modifies this
      ensures Now() == ReplayStart(old(Now()), accepted)
      ensures corrected == IsCorrection(old(Now()), accepted)
      ensures results == Todo(old(Now()), accepted)
    {
      corrected := accepted.Some? && lastObserved.Some? && !After(accepted.value, lastObserved.value);
      if corrected {
        var base := Baseline(evals, accepted.value);
        evals := DeleteFrom(evals, accepted.value);
        results := ListFrom(raw, accepted.value);
        observed, failures, successes, lastObserved := base.0.state, base.0.failures, base.0.successes, base.1;
      } else if lastObserved.Some? {
        results := ListAfter(raw, lastObserved.value);
      } else {
        results := ListAll(raw);
      }
    }

    method ReplayResults(results: seq<Pos>, lim: Limits)
      modifies this
      ensures Now() == Replay(old(Now()), results, lim)
    {
      for i := 0 to |results|
        invariant raw == old(raw)
        invariant Now() == Replay(old(Now()), results[..i], lim)
      {
        var p := results[i];
        var c := Advance(Counters(observed, failures, successes), Ok(raw, p), lim);
        observed, failures, successes := c.state, c.failures, c.successes;
        evals := evals[p := Row(Ok(raw, p), c)];
        lastObserved := Some(p);
        assert results[..i + 1][..i] == results[..i];
      }
      assert results[..|results|] == results;
    }

    method Evaluate(accepted: Option<Pos>, lim: Limits) returns (corrected: bool)
      modifies this
      ensures Now() == EvaluateTx(old(Now()), accepted, lim)
      ensures corrected == IsCorrection(old(Now()), accepted)
    {
      var results;
      corrected, results := RollBack(accepted);
      ReplayResults(results, lim);
    }

    /** InsertAcceptedHealthCheck for a new scheduled result, then EvaluateAcceptedTx. */
    method Accept(p: Pos, ok: bool, inWindow: bool, lim: Limits) returns (corrected: bool)
      requires p !in raw
      modifies this
      ensures Now() == Step(old(Now()), Accepted(p, ok, inWindow), lim)
      ensures corrected == (inWindow && IsCorrection(old(Now()), Some(p)))
    {
      raw := raw[p := ok];
      corrected := false;
      if inWindow {
        corrected := Evaluate(Some(p), lim);
      }
    }
  }

  // --------------------------------------------------------------------- runs

  /** inWindow: the result arrived no later than its expiry plus ten minutes. */
  datatype Event = Accepted(p: Pos, ok: bool, inWindow: bool) | Timer

  function Step(v: View, e: Event, lim: Limits): View {
    match e
    case Accepted(p, ok, inWindow) =>
      if p in v.raw then v
      else if inWindow then EvaluateTx(v.(raw := v.raw[p := ok]), Some(p), lim)
      else v.(raw := v.raw[p := ok])
    case Timer => EvaluateTx(v, None, lim)
  }

  function Run(es: seq<Event>, lim: Limits): View {
    if es == [] then EMPTY else Step(Run(es[..|es| - 1], lim), es[|es| - 1], lim)
  }

  /** The positions that have an evaluation row after a call. */
  function NextEvaluated(v: View, accepted: Option<Pos>): set<Pos> {
    if v.last.None? then v.raw.Keys
    else if IsCorrection(v, accepted) then
      Below(v.evals.Keys, accepted.value) + FromOn(v.raw.Keys, accepted.value)
    else v.evals.Keys + Above(v.raw.Keys, v.last.value)
  }

  /** The view is what folding the evaluated results in order would leave. */
  ghost predicate Consistent(v: View, lim: Limits) {
    && v.evals.Keys <= v.raw.Keys
    && v == Folded(v.raw, v.evals.Keys, lim)
  }

  // -------------------------------------------------------------- proof of it

  lemma {:induction false} RowsAt(raw: map<Pos, bool>, l: seq<Pos>, lim: Limits, i: nat)
    requires Sorted(l) && i < |l|
    ensures l[i] in Rows(raw, l, lim)
    ensures Rows(raw, l, lim)[l[i]] == Row(Ok(raw, l[i]), Fold(raw, l[..i + 1], lim))
  {
    var l' := l[..|l| - 1];
    if i < |l| - 1 {
      RowsAt(raw, l', lim, i);
      assert l'[..i + 1] == l[..i + 1];
      assert l[i] != l[|l| - 1];
    } else {
      assert l[..i + 1] == l;
    }
  }

  lemma {:induction false} RowsKeys(raw: map<Pos, bool>, l: seq<Pos>, lim: Limits)
    ensures Rows(raw, l, lim).Keys == SetOf(l)
  {
    if l != [] {
      RowsKeys(raw, l[..|l| - 1], lim);
      assert l == l[..|l| - 1] + [l[|l| - 1]];
    }
  }

  lemma {:induction false} FoldedKeys(raw: map<Pos, bool>, s: set<Pos>, lim: Limits)
    ensures Folded(raw, s, lim).evals.Keys == s
  {
    OrderedSpec(s);
    RowsKeys(raw, Ordered(s), lim);
  }

  /** Only the outcomes of the listed results matter. */
  lemma {:induction false} FoldFrame(raw: map<Pos, bool>, raw': map<Pos, bool>, l: seq<Pos>, lim: Limits)
    requires forall p :: p in SetOf(l) ==> Ok(raw, p) == Ok(raw', p)
    ensures Fold(raw, l, lim) == Fold(raw', l, lim)
    ensures Rows(raw, l, lim) == Rows(raw', l, lim)
  {
    if l != [] {
      assert l[|l| - 1] in SetOf(l);
      assert SetOf(l[..|l| - 1]) <= SetOf(l);
      FoldFrame(raw, raw', l[..|l| - 1], lim);
    }
  }

  /** Replaying on top of a fold is folding the concatenation. */
  lemma {:induction false} ReplayListed(raw: map<Pos, bool>, done: seq<Pos>, todo: seq<Pos>, lim: Limits)
    ensures Replay(Listed(raw, done, lim), todo, lim) == Listed(raw, done + todo, lim)
  {
    if todo == [] {
      assert done + todo == done;
    } else {
      var todo' := todo[..|todo| - 1];
      ReplayListed(raw, done, todo', lim);
      assert (done + todo)[..|done + todo| - 1] == done + todo';
    }
  }

  lemma {:induction false} ReplayFolds(raw: map<Pos, bool>, done: set<Pos>, todo: set<Pos>, lim: Limits)
    requires Precedes(done, todo)
    ensures Replay(Folded(raw, done, lim), Ordered(todo), lim) == Folded(raw, done + todo, lim)
  {
    OrderedSplit(done, todo);
    ReplayListed(raw, Ordered(done), Ordered(todo), lim);
  }

  /** Rolling back to a position leaves the rows before it, */
  lemma {:induction false} RollbackRows(raw: map<Pos, bool>, low: seq<Pos>, high: seq<Pos>, lim: Limits, p: Pos)
    requires Sorted(low) && Sorted(low + high)
    requires forall q :: q in SetOf(low) ==> After(p, q)
    requires forall q :: q in SetOf(high) ==> !After(p, q)
    ensures DeleteFrom(Rows(raw, low + high, lim), p) == Rows(raw, low, lim)
  {
    var rows, kept := Rows(raw, low + high, lim), Rows(raw, low, lim);
    RowsKeys(raw, low + high, lim);
    RowsKeys(raw, low, lim);
    assert SetOf(low + high) == SetOf(low) + SetOf(high);
    assert DeleteFrom(rows, p).Keys == kept.Keys;
    forall q | q in kept ensures DeleteFrom(rows, p)[q] == kept[q] { SameRowInPrefix(raw, low, high, lim, q); }
  }

  /** A row depends only on the results up to it. */
  lemma {:induction false} SameRowInPrefix(raw: map<Pos, bool>, low: seq<Pos>, high: seq<Pos>, lim: Limits, q: Pos)
    requires Sorted(low) && Sorted(low + high) && q in SetOf(low)
    ensures q in Rows(raw, low, lim) && q in Rows(raw, low + high, lim)
    ensures Rows(raw, low + high, lim)[q] == Rows(raw, low, lim)[q]
  {
    var i :| 0 <= i < |low| && low[i] == q;
    RowsAt(raw, low + high, lim, i);
    RowsAt(raw, low, lim, i);
    assert (low + high)[i] == q && (low + high)[..i + 1] == low[..i + 1];
  }

  /** and the newest of those carries their fold. */
  lemma {:induction false} BaselineIsFold(raw: map<Pos, bool>, low: seq<Pos>, high: seq<Pos>, lim: Limits, p: Pos)
    requires Sorted(low) && Sorted(low + high)
    requires forall q :: q in SetOf(low) ==> After(p, q)
    requires forall q :: q in SetOf(high) ==> !After(p, q)
    ensures Baseline(Rows(raw, low + high, lim), p) == (Fold(raw, low, lim), LastOf(low))
  {
    var l := low + high;
    var before := Below(Rows(raw, l, lim).Keys, p);
    assert before == SetOf(low) by {
      RowsKeys(raw, l, lim);
      assert SetOf(l) == SetOf(low) + SetOf(high);
    }
    if low == [] {
      assert before == {};
    } else {
      var n := |low| - 1;
      SortedLast(low);
      assert low[n] in before && Greatest(before) == low[n];
      RowsAt(raw, l, lim, n);
      assert l[n] == low[n] && l[..n + 1] == low;
    }
  }

  lemma {:induction false} RollbackFolds(v: View, p: Pos, lim: Limits)
    requires Consistent(v, lim)
    ensures var base := Baseline(v.evals, p);
            View(v.raw, DeleteFrom(v.evals, p), base.0, base.1)
            == Folded(v.raw, Below(v.evals.Keys, p), lim)
  {
    var low, high := Below(v.evals.Keys, p), FromOn(v.evals.Keys, p);
    assert v.evals.Keys == low + high;
    OrderedSplit(low, high);
    OrderedSpec(low);
    OrderedSpec(high);
    OrderedSpec(low + high);
    RollbackRows(v.raw, Ordered(low), Ordered(high), lim, p);
    BaselineIsFold(v.raw, Ordered(low), Ordered(high), lim, p);
  }

  /** The state row points at the newest evaluated result. */
  lemma {:induction false} LastIsGreatest(v: View, lim: Limits)
    requires Consistent(v, lim)
    ensures v.last.None? <==> v.evals.Keys == {}
    ensures v.last.Some? ==> v.last.value in v.evals
    ensures v.last.Some? ==> forall q :: q in v.evals && q != v.last.value ==> After(v.last.value, q)
  {
    OrderedSpec(v.evals.Keys);
    var l := Ordered(v.evals.Keys);
    if l != [] {
      assert l[|l| - 1] in SetOf(l);
    }
  }

  /** Every evaluation leaves the fold of exactly NextEvaluated. */
  lemma {:induction false} EvaluateFolds(v: View, accepted: Option<Pos>, lim: Limits)
    requires Consistent(v, lim)
    ensures EvaluateTx(v, accepted, lim) == Folded(v.raw, NextEvaluated(v, accepted), lim)
  {
    LastIsGreatest(v, lim);
    if IsCorrection(v, accepted) {
      RollbackFolds(v, accepted.value, lim);
      ReplayFolds(v.raw, Below(v.evals.Keys, accepted.value), FromOn(v.raw.Keys, accepted.value), lim);
    } else if v.last.Some? {
      ReplayFolds(v.raw, v.evals.Keys, Above(v.raw.Keys, v.last.value), lim);
    } else {
      ReplayFolds(v.raw, {}, v.raw.Keys, lim);
      assert {} + v.raw.Keys == v.raw.Keys;
    }
  }

  lemma {:induction false} EvaluateKeeps(v: View, accepted: Option<Pos>, lim: Limits)
    requires Consistent(v, lim)
    ensures Consistent(EvaluateTx(v, accepted, lim), lim)
    ensures EvaluateTx(v, accepted, lim).raw == v.raw
    ensures EvaluateTx(v, accepted, lim).evals.Keys == NextEvaluated(v, accepted)
  {
    EvaluateFolds(v, accepted, lim);
    FoldedKeys(v.raw, NextEvaluated(v, accepted), lim);
  }

  /** Accepting a raw result does not disturb the evaluated ones. */
  lemma {:induction false} RawInsertKeeps(v: View, p: Pos, ok: bool, lim: Limits)
    requires Consistent(v, lim) && p !in v.raw
    ensures Consistent(v.(raw := v.raw[p := ok]), lim)
  {
    OrderedSpec(v.evals.Keys);
    FoldFrame(v.raw, v.raw[p := ok], Ordered(v.evals.Keys), lim);
  }

  lemma {:induction false} StepKeeps(v: View, e: Event, lim: Limits)
    requires Consistent(v, lim)
    ensures Consistent(Step(v, e, lim), lim)
    ensures Step(v, e, lim).raw ==
            if e.Accepted? && e.p !in v.raw then v.raw[e.p := e.ok] else v.raw
  {
    match e
    case Accepted(p, ok, inWindow) =>
      if p !in v.raw {
        RawInsertKeeps(v, p, ok, lim);
        if inWindow { EvaluateKeeps(v.(raw := v.raw[p := ok]), Some(p), lim); }
      }
    case Timer => EvaluateKeeps(v, None, lim);
  }

  // ------------------------------------------------------------ main theorems

  /** In every run, late results included, the table and the state row are the
      fold of the evaluated results in (scheduled_at, job_id) order. */
  lemma {:induction false} EveryRunIsAFold(es: seq<Event>, lim: Limits)
    ensures Consistent(Run(es, lim), lim)
  {
    if es == [] {
      assert EMPTY.evals.Keys == {};
    } else {
      EveryRunIsAFold(es[..|es| - 1], lim);
      StepKeeps(Run(es[..|es| - 1], lim), es[|es| - 1], lim);
    }
  }

  /** Each row is Advance of the row right before it in order. */
  ghost predicate ChainedAt(v: View, lim: Limits, l: seq<Pos>, i: nat)
    requires i < |l| && SetOf(l) == v.evals.Keys
  {
    assert l[i] in SetOf(l) && (i > 0 ==> l[i - 1] in SetOf(l));
    && v.evals[l[i]].ok == Ok(v.raw, l[i])
    && v.evals[l[i]].after == Advance(if i == 0 then START else v.evals[l[i - 1]].after, Ok(v.raw, l[i]), lim)
  }

  lemma {:induction false} RowChain(raw: map<Pos, bool>, l: seq<Pos>, lim: Limits, i: nat)
    requires Sorted(l) && i < |l|
    ensures l[i] in Rows(raw, l, lim) && (i > 0 ==> l[i - 1] in Rows(raw, l, lim))
    ensures Rows(raw, l, lim)[l[i]] ==
            Row(Ok(raw, l[i]), Advance(if i == 0 then START else Rows(raw, l, lim)[l[i - 1]].after, Ok(raw, l[i]), lim))
  {
    RowsAt(raw, l, lim, i);
    assert l[..i + 1][..i] == l[..i] && l[..i + 1][i] == l[i];
    if i > 0 { RowsAt(raw, l, lim, i - 1); }
  }

  lemma {:induction false} ConsistentChain(v: View, lim: Limits, l: seq<Pos>, i: nat)
    requires Consistent(v, lim) && l == Ordered(v.evals.Keys) && i < |l|
    ensures SetOf(l) == v.evals.Keys && ChainedAt(v, lim, l, i)
  {
    OrderedSpec(v.evals.Keys);
    RowChain(v.raw, l, lim, i);
  }

  lemma {:induction false} ConsistentState(v: View, lim: Limits, l: seq<Pos>)
    requires Consistent(v, lim) && l == Ordered(v.evals.Keys)
    ensures v.last.Some? ==> v.last.value in v.evals
    ensures v.now == if v.last.None? then START else v.evals[v.last.value].after
  {
    OrderedSpec(v.evals.Keys);
    if l != [] {
      RowsAt(v.raw, l, lim, |l| - 1);
      assert l[..|l| - 1 + 1] == l;
    }
  }

  /** The evaluation chain of every run: rows follow one another by Advance, the
      state row is the last row, and the last position is the table's greatest. */
  lemma {:induction false} EvaluationChain(es: seq<Event>, lim: Limits, l: seq<Pos>)
    requires l == Ordered(Run(es, lim).evals.Keys)
    ensures Sorted(l) && SetOf(l) == Run(es, lim).evals.Keys <= Run(es, lim).raw.Keys
    ensures forall i :: 0 <= i < |l| ==> ChainedAt(Run(es, lim), lim, l, i)
    ensures Run(es, lim).last == LastOf(l)
    ensures Run(es, lim).last.Some? ==> Run(es, lim).last.value in Run(es, lim).evals
    ensures Run(es, lim).now == if l == [] then START else Run(es, lim).evals[Run(es, lim).last.value].after
  {
    var v := Run(es, lim);
    EveryRunIsAFold(es, lim);
    OrderedSpec(v.evals.Keys);
    ConsistentState(v, lim, l);
    forall i | 0 <= i < |l| ensures ChainedAt(v, lim, l, i) {
      ConsistentChain(v, lim, l, i);
    }
  }

  predicate AllInWindow(es: seq<Event>) {
    forall e :: e in es && e.Accepted? ==> e.inWindow
  }

  lemma {:induction false} InWindowStep(v: View, e: Event, lim: Limits)
    requires Consistent(v, lim) && v.evals.Keys == v.raw.Keys
    requires e.Accepted? ==> e.inWindow
    ensures Step(v, e, lim).evals.Keys == Step(v, e, lim).raw.Keys
  {
    LastIsGreatest(v, lim);
    match e
    case Accepted(p, ok, _) =>
      if p !in v.raw {
        var v' := v.(raw := v.raw[p := ok]);
        RawInsertKeeps(v, p, ok, lim);
        EvaluateKeeps(v', Some(p), lim);
        assert NextEvaluated(v', Some(p)) == v'.raw.Keys;
      }
    case Timer =>
      EvaluateKeeps(v, None, lim);
      assert NextEvaluated(v, None) == v.raw.Keys;
  }

  /** Incremental evaluation refines the fold: when every result arrives inside
      its correction window, in any order and mixed with timer evaluations, the
      table and the state row equal a fold over all accepted results. */
  lemma {:induction false} InWindowRunsFoldEverything(es: seq<Event>, lim: Limits)
    requires AllInWindow(es)
    ensures Run(es, lim) == Folded(Run(es, lim).raw, Run(es, lim).raw.Keys, lim)
    ensures Run(es, lim).evals.Keys == Run(es, lim).raw.Keys
  {
    EveryRunIsAFold(es, lim);
    if es != [] {
      var front := es[..|es| - 1];
      InWindowRunsFoldEverything(front, lim);
      EveryRunIsAFold(front, lim);
      assert es[|es| - 1] in es;
      InWindowStep(Run(front, lim), es[|es| - 1], lim);
    }
  }

  predicate OncePerPosition(es: seq<Event>) {
    forall i, j :: 0 <= i < j < |es| && es[i].Accepted? && es[j].Accepted? ==> es[i].p != es[j].p
  }

  predicate Arrived(es: seq<Event>, p: Pos, ok: bool) {
    exists e :: e in es && e.Accepted? && e.p == p && e.ok == ok
  }

  predicate Holds(raw: map<Pos, bool>, p: Pos, ok: bool) {
    p in raw && raw[p] == ok
  }

  lemma {:induction false} RunRaw(es: seq<Event>, lim: Limits, p: Pos, ok: bool)
    requires OncePerPosition(es)
    ensures Holds(Run(es, lim).raw, p, ok) <==> Arrived(es, p, ok)
  {
    if es != [] {
      var front, last := es[..|es| - 1], es[|es| - 1];
      assert es == front + [last];
      assert last in es;
      RunRaw(front, lim, p, ok);
      RunRaw(front, lim, p, !ok);
      EveryRunIsAFold(front, lim);
      StepKeeps(Run(front, lim), last, lim);
      if last.Accepted? {
        assert forall e :: e in front && e.Accepted? ==> e.p != last.p;
      }
      assert Arrived(es, p, ok) <==> Arrived(front, p, ok) || (last.Accepted? && last.p == p && last.ok == ok);
    }
  }

  /** Arrival order does not matter: any two orders of the same in-window
      arrivals end in the same table and the same state row. */
  lemma {:induction false} ArrivalOrderIsIrrelevant(es: seq<Event>, es': seq<Event>, lim: Limits)
    requires AllInWindow(es) && AllInWindow(es') && OncePerPosition(es) && OncePerPosition(es')
    requires forall p, ok :: Arrived(es, p, ok) <==> Arrived(es', p, ok)
    ensures Run(es, lim) == Run(es', lim)
  {
    InWindowRunsFoldEverything(es, lim);
    InWindowRunsFoldEverything(es', lim);
    var raw, raw' := Run(es, lim).raw, Run(es', lim).raw;
    forall p, ok ensures Holds(raw, p, ok) <==> Holds(raw', p, ok) {
      RunRaw(es, lim, p, ok);
      RunRaw(es', lim, p, ok);
    }
    SameHolds(raw, raw');
  }

  lemma {:induction false} SameHolds(raw: map<Pos, bool>, raw': map<Pos, bool>)
    requires forall p, ok :: Holds(raw, p, ok) <==> Holds(raw', p, ok)
    ensures raw == raw'
  {
    forall p ensures p in raw <==> p in raw' {
      if p in raw { assert Holds(raw, p, raw[p]); }
      if p in raw' { assert Holds(raw', p, raw'[p]); }
    }
    forall p | p in raw ensures raw[p] == raw'[p] {
      assert Holds(raw, p, raw[p]);
    }
  }

  /** The design says a result beyond the window does not rewrite state. A timer
      evaluation does fold it in, exactly when nothing newer was evaluated yet. */
  lemma {:induction false} LateResultCountsIffNewest(es: seq<Event>, p: Pos, ok: bool, lim: Limits)
    requires p !in Run(es, lim).raw
    ensures var v := Run(es, lim);
            var w := Step(Step(v, Accepted(p, ok, false), lim), Timer, lim);
            p in w.evals <==> v.last.None? || After(p, v.last.value)
    ensures var v := Run(es, lim);
            var w, t := Step(Step(v, Accepted(p, ok, false), lim), Timer, lim), Step(v, Timer, lim);
            w == t.(raw := w.raw) <==> v.last.Some? && !After(p, v.last.value)
  {
    var v := Run(es, lim);
    EveryRunIsAFold(es, lim);
    LateThenTimer(v, p, ok, lim);
  }

  lemma {:induction false} LateThenTimer(v: View, p: Pos, ok: bool, lim: Limits)
    requires Consistent(v, lim) && p !in v.raw
    ensures var w, t := EvaluateTx(v.(raw := v.raw[p := ok]), None, lim), EvaluateTx(v, None, lim);
            && (p in w.evals <==> v.last.None? || After(p, v.last.value))
            && (w == t.(raw := w.raw) <==> p !in w.evals)
  {
    var v' := v.(raw := v.raw[p := ok]);
    RawInsertKeeps(v, p, ok, lim);
    EvaluateKeeps(v', None, lim);
    EvaluateKeeps(v, None, lim);
    var w, t := EvaluateTx(v', None, lim), EvaluateTx(v, None, lim);
    assert p !in t.evals;
    if p !in w.evals {
      assert w.evals.Keys == t.evals.Keys;
      SameKeysSameFold(w, t, v.raw, p, ok, lim);
    }
  }

  lemma {:induction false} SameKeysSameFold(w: View, t: View, raw: map<Pos, bool>, p: Pos, ok: bool, lim: Limits)
    requires Consistent(w, lim) && Consistent(t, lim) && w.evals.Keys == t.evals.Keys
    requires t.raw == raw && w.raw == raw[p := ok] && p !in raw
    ensures w == t.(raw := w.raw)
  {
    OrderedSpec(t.evals.Keys);
    FoldFrame(t.raw, w.raw, Ordered(t.evals.Keys), lim);
  }

  /** For instance, the only result of a monitor, arriving beyond its window. */
  lemma {:induction false} LateResultRewritesState(p: Pos, lim: Limits, es: seq<Event>)
    requires es == [Accepted(p, true, false), Timer]
    ensures Run(es, lim).now.state == Healthy
  {
    var v := Step(EMPTY, es[0], lim);
    assert es[..|es| - 1] == [es[0]];
    assert [es[0]][..0] == [];
    assert Run([es[0]], lim) == v;
    EveryRunIsAFold([es[0]], lim);
    EvaluateFolds(v, None, lim);
    assert NextEvaluated(v, None) == {p};
    assert Ordered({p}) == [p] by {
      OrderedSpec({p});
      assert SetOf([p]) == {p};
      SortedUnique(Ordered({p}), [p]);
    }
    assert Fold(v.raw, [p], lim) == Advance(Fold(v.raw, [p][..0], lim), true, lim);
  }

  // ------------------------------------------------ what becomes of a late result

  /** Whether the event evaluates, that is, rewrites the table. */
  predicate Evaluates(v: View, e: Event) {
    e.Timer? || (e.inWindow && e.p !in v.raw)
  }

  /** p has no row and something newer has: only a correction from before p could add one. */
  ghost predicate Skipped(v: View, p: Pos) {
    p !in v.evals && v.last.Some? && After(v.last.value, p)
  }

  /** p has no row and is newer than all rows: the next evaluation adds one. */
  ghost predicate Awaited(v: View, p: Pos) {
    p in v.raw && p !in v.evals && (v.last.None? || After(p, v.last.value))
  }

  /** While in-window results are newer than p, p keeps its row, stays skipped, or gets its
      row at the next evaluation. */
  lemma {:induction false} FateStep(v: View, e: Event, p: Pos, lim: Limits)
    requires Consistent(v, lim) && p in v.raw && (Evaluates(v, e) && e.Accepted? ==> After(e.p, p))
    ensures var v' := Step(v, e, lim);
            && (p in v.evals ==> p in v'.evals)
            && (Skipped(v, p) ==> Skipped(v', p))
            && (Awaited(v, p) ==> if Evaluates(v, e) then p in v'.evals else Awaited(v', p))
  {
    if Evaluates(v, e) {
      var u, accepted := v, None;
      if e.Accepted? {
        u, accepted := v.(raw := v.raw[e.p := e.ok]), Some(e.p);
        RawInsertKeeps(v, e.p, e.ok, lim);
      }
      EvaluatedFate(u, accepted, p, lim);
    }
  }

  lemma {:induction false} EvaluatedFate(v: View, accepted: Option<Pos>, p: Pos, lim: Limits)
    requires Consistent(v, lim) && p in v.raw && (accepted.Some? ==> accepted.value in v.raw && After(accepted.value, p))
    ensures var v' := EvaluateTx(v, accepted, lim);
            && (p in v.evals || Awaited(v, p) ==> p in v'.evals)
            && (Skipped(v, p) ==> Skipped(v', p))
  {
    var v' := EvaluateTx(v, accepted, lim);
    EvaluateKeeps(v, accepted, lim);
    LastIsGreatest(v, lim);
    LastIsGreatest(v', lim);
    if Skipped(v, p) {
      var newest := if IsCorrection(v, accepted) then accepted.value else v.last.value;
      assert newest in v'.evals && After(newest, p);
    }
  }

  /** With a free window flag a skipped result can come back: a correction from before it replays it. */
  lemma {:induction false} CorrectionRevivesSkipped(es: seq<Event>, p: Pos, q: Pos, okP: bool, okQ: bool, lim: Limits)
    requires p !in Run(es, lim).raw && q !in Run(es, lim).raw && After(p, q)
    requires Run(es, lim).last.Some? && !After(p, Run(es, lim).last.value)
    ensures var v := Step(Step(Run(es, lim), Accepted(p, okP, false), lim), Timer, lim);
            p !in v.evals && p in Step(v, Accepted(q, okQ, true), lim).evals
  {
    var v0 := Run(es, lim);
    EveryRunIsAFold(es, lim);
    SkippedByTimer(v0, p, okP, lim);
    CorrectionReplays(Step(Step(v0, Accepted(p, okP, false), lim), Timer, lim), q, okQ, p, lim);
  }

  /** A late result older than the newest row is skipped, and the timer leaves it so. */
  lemma {:induction false} SkippedByTimer(v: View, p: Pos, ok: bool, lim: Limits)
    requires Consistent(v, lim) && p !in v.raw && v.last.Some? && !After(p, v.last.value)
    ensures var w := Step(Step(v, Accepted(p, ok, false), lim), Timer, lim);
            Consistent(w, lim) && Skipped(w, p) && w.raw == v.raw[p := ok]
  {
    LastIsGreatest(v, lim);
    var v1 := Step(v, Accepted(p, ok, false), lim);
    StepKeeps(v, Accepted(p, ok, false), lim);
    assert Skipped(v1, p);
    EvaluatedFate(v1, None, p, lim);
    StepKeeps(v1, Timer, lim);
  }

  /** A correction from before a skipped result gives it a row. */
  lemma {:induction false} CorrectionReplays(v: View, q: Pos, ok: bool, p: Pos, lim: Limits)
    requires Consistent(v, lim) && p in v.raw && Skipped(v, p) && q !in v.raw && After(p, q)
    ensures p in Step(v, Accepted(q, ok, true), lim).evals
  {
    var w := v.(raw := v.raw[q := ok]);
    RawInsertKeeps(v, q, ok, lim);
    EvaluateKeeps(w, Some(q), lim);
    assert IsCorrection(w, Some(q));
  }
}
