/** The closed form of advanceObservedState folded over a history: only the last
    run of failures and the run of successes after it matter. */
module RunLength {
  import opened Positions
  import opened Evaluation

  /** How many results at the end of l succeeded. */
  function OkRun(raw: map<Pos, bool>, l: seq<Pos>): (n: nat)
    ensures n <= |l|
  {
    if l == [] || !Ok(raw, l[|l| - 1]) then 0 else 1 + OkRun(raw, l[..|l| - 1])
  }

  /** How many results at the end of l failed. */
  function FailRun(raw: map<Pos, bool>, l: seq<Pos>): (n: nat)
    ensures n <= |l|
  {
    if l == [] || Ok(raw, l[|l| - 1]) then 0 else 1 + FailRun(raw, l[..|l| - 1])
  }

  /** The run of failures right before the trailing successes. */
  function LastFailRun(raw: map<Pos, bool>, l: seq<Pos>): nat {
    FailRun(raw, l[..|l| - OkRun(raw, l)])
  }

  /** FailRun is the longest all-failed suffix. */
  lemma {:induction false} FailRunIsLongest(raw: map<Pos, bool>, l: seq<Pos>, k: nat)
    requires k <= |l|
    ensures k <= FailRun(raw, l) <==> forall i :: |l| - k <= i < |l| ==> !Ok(raw, l[i])
  {
    if k > 0 {
      var l' := l[..|l| - 1];
      FailRunIsLongest(raw, l', k - 1);
      assert !Ok(raw, l[|l| - 1]) ==>
          ((forall i :: |l| - k <= i < |l| ==> !Ok(raw, l[i])) <==>
           (forall i :: |l'| - (k - 1) <= i < |l'| ==> !Ok(raw, l'[i])));
    }
  }

  function Closed(f: nat, s: nat, lim: Limits): Counters {
    if f >= lim.failure && s < lim.recovery then Counters(Down, if s == 0 then lim.failure else 0, s)
    else if s > 0 then Counters(Healthy, 0, 0)
    else if f > 0 then Counters(Degraded, f, 0)
    else START
  }

  /** The folded state is a function of the two run lengths. */
  lemma {:induction false} ClosedForm(raw: map<Pos, bool>, l: seq<Pos>, lim: Limits)
    requires Positive(lim)
    ensures Fold(raw, l, lim) == Closed(LastFailRun(raw, l), OkRun(raw, l), lim)
  {
    if l != [] {
      var l' := l[..|l| - 1];
      ClosedForm(raw, l', lim);
      if Ok(raw, l[|l| - 1]) {
        assert l[..|l| - OkRun(raw, l)] == l'[..|l'| - OkRun(raw, l')];
      } else {
        assert l[..|l|] == l && l'[..|l'|] == l';
        assert LastFailRun(raw, l) == 1 + FailRun(raw, l');
        assert OkRun(raw, l') > 0 ==> FailRun(raw, l') == 0;
      }
    }
  }

  lemma {:induction false} DownIff(raw: map<Pos, bool>, l: seq<Pos>, lim: Limits)
    requires Positive(lim)
    ensures Fold(raw, l, lim).state == Down
        <==> LastFailRun(raw, l) >= lim.failure && OkRun(raw, l) < lim.recovery
  {
    ClosedForm(raw, l, lim);
  }

  /** Down with a failed newest result: the newest `failure` results all failed;
      and that is the only way they can all have failed. */
  lemma {:induction false} DownSuffixFailed(raw: map<Pos, bool>, l: seq<Pos>, lim: Limits)
    requires Positive(lim) && Fold(raw, l, lim).state == Down
    ensures |l| >= lim.failure
    ensures !Ok(raw, l[|l| - 1]) <==> forall i :: |l| - lim.failure <= i < |l| ==> !Ok(raw, l[i])
  {
    DownIff(raw, l, lim);
    assert l[..|l|] == l;
    FailRunIsLongest(raw, l, lim.failure);
  }
}
