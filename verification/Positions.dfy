/** The order in which results are evaluated: (scheduled_at, job_id), and the
    `ORDER BY scheduled_at, job_id` listing of a set of positions. */
module Positions {

  datatype Option<+T> = None | Some(value: T)

  /** A result's place in monitor history. Job identifiers are UUIDs; only their order matters. */
  datatype Pos = Pos(at: int, job: int)

  predicate After(left: Pos, right: Pos) {
    left.at > right.at || (left.at == right.at && left.job > right.job)
  }

  predicate Sorted(l: seq<Pos>) {
    forall i, j :: 0 <= i < j < |l| ==> After(l[j], l[i])
  }

  function SetOf(l: seq<Pos>): set<Pos> {
    set p | p in l
  }

  function LastOf(l: seq<Pos>): Option<Pos> {
    if l == [] then None else Some(l[|l| - 1])
  }

  // The row comparisons (scheduled_at, job_id) <, >=, > of the queries.

  function Below(s: set<Pos>, p: Pos): set<Pos> {
    set q | q in s && After(p, q)
  }

  function FromOn(s: set<Pos>, p: Pos): set<Pos> {
    set q | q in s && !After(p, q)
  }

  function Above(s: set<Pos>, p: Pos): set<Pos> {
    set q | q in s && After(q, p)
  }

  ghost predicate Precedes(low: set<Pos>, high: set<Pos>) {
    forall p, q :: p in low && q in high ==> After(q, p)
  }

  lemma {:induction false} GreatestExists(s: set<Pos>)
    requires s != {}
    ensures exists m :: m in s && forall q :: q in s && q != m ==> After(m, q)
  {
    var x :| x in s;
    if s == {x} {
      assert forall q :: q in s && q != x ==> After(x, q);
    } else {
      GreatestExists(s - {x});
      var m :| m in s - {x} && forall q :: q in s - {x} && q != m ==> After(m, q);
      var g := if After(x, m) then x else m;
      assert forall q :: q in s && q != g ==> After(g, q) by {
        forall q | q in s && q != g ensures After(g, q) {
          assert q == x || q in s - {x};
        }
      }
    }
  }

  function Greatest(s: set<Pos>): (m: Pos)
    requires s != {}
    ensures m in s && forall q :: q in s && q != m ==> After(m, q)
  {
    GreatestExists(s);
    var m :| m in s && forall q :: q in s && q != m ==> After(m, q);
    m
  }

  /** The rows of a query with `ORDER BY scheduled_at, job_id`. */
  function Ordered(s: set<Pos>): seq<Pos> {
    if s == {} then [] else
      var m := Greatest(s);
      Ordered(s - {m}) + [m]
  }

  lemma {:induction false} SortedSnoc(l: seq<Pos>, m: Pos)
    requires Sorted(l) && forall q :: q in SetOf(l) ==> After(m, q)
    ensures Sorted(l + [m]) && SetOf(l + [m]) == SetOf(l) + {m}
  {
    forall i | 0 <= i < |l| ensures After(m, l[i]) { assert l[i] in SetOf(l); }
  }

  lemma {:induction false} OrderedSpec(s: set<Pos>)
    ensures Sorted(Ordered(s)) && SetOf(Ordered(s)) == s && |Ordered(s)| == |s|
    ensures var l := Ordered(s);
            forall i, j :: 0 <= i < j < |l| ==> l[i].at < l[j].at || (l[i].at == l[j].at && l[i].job < l[j].job)
  {
    if s != {} {
      var m := Greatest(s);
      OrderedSpec(s - {m});
      SortedSnoc(Ordered(s - {m}), m);
    }
  }

  /** The last row is the greatest, and dropping it drops it from the set. */
  lemma {:induction false} SortedLast(l: seq<Pos>)
    requires Sorted(l) && l != []
    ensures var m := l[|l| - 1];
            && m in SetOf(l) && SetOf(l[..|l| - 1]) == SetOf(l) - {m}
            && forall q :: q in SetOf(l) && q != m ==> After(m, q)
  {
    var m, l' := l[|l| - 1], l[..|l| - 1];
    assert l == l' + [m];
  }

  /** A listing is determined by its elements. */
  lemma {:induction false} SortedUnique(l: seq<Pos>, r: seq<Pos>)
    requires Sorted(l) && Sorted(r) && SetOf(l) == SetOf(r)
    ensures l == r
  {
    assert r != [] ==> r[0] in SetOf(r);
    assert l != [] ==> l[0] in SetOf(l);
    if l != [] && r != [] {
      SortedLast(l);
      SortedLast(r);
      SortedUnique(l[..|l| - 1], r[..|r| - 1]);
      assert l == l[..|l| - 1] + [l[|l| - 1]] && r == r[..|r| - 1] + [r[|r| - 1]];
    }
  }

  lemma {:induction false} SortedConcat(l: seq<Pos>, r: seq<Pos>)
    requires Sorted(l) && Sorted(r) && Precedes(SetOf(l), SetOf(r))
    ensures Sorted(l + r) && SetOf(l + r) == SetOf(l) + SetOf(r)
  {
    forall i, j | 0 <= i < j < |l + r| ensures After((l + r)[j], (l + r)[i]) {
      if i < |l| <= j { assert (l + r)[i] in SetOf(l) && (l + r)[j] in SetOf(r); }
    }
  }

  /** Cutting a listing. */
  lemma {:induction false} OrderedSplit(low: set<Pos>, high: set<Pos>)
    requires Precedes(low, high)
    ensures Ordered(low + high) == Ordered(low) + Ordered(high)
  {
    OrderedSpec(low);
    OrderedSpec(high);
    OrderedSpec(low + high);
    SortedConcat(Ordered(low), Ordered(high));
    SortedUnique(Ordered(low + high), Ordered(low) + Ordered(high));
  }
}
