/** Induction over a run of a deterministic transition function. */
module Invariants {
  ghost predicate Steps<S, E>(next: (S, E) -> S, ss: seq<S>, es: seq<E>) {
    |ss| == |es| + 1 && forall i :: 0 <= i < |es| ==> ss[i + 1] == next(ss[i], es[i])
  }

  /** What holds at `j` and is kept by every step holds from there on. */
  lemma {:induction false} Holds<S(!new), E(!new)>(
      next: (S, E) -> S, inv: S -> bool, ss: seq<S>, es: seq<E>, j: nat, k: nat)
    requires Steps(next, ss, es) && j <= k < |ss| && inv(ss[j])
    requires forall s, e :: e in es && inv(s) ==> inv(next(s, e))
    ensures inv(ss[k])
  {
    if j < k {
      Holds(next, inv, ss, es, j, k - 1);
      assert es[k - 1] in es && ss[k - 1 + 1] == next(ss[k - 1], es[k - 1]);
    }
  }

  /** A sequence that only grows at its end keeps each element where it was appended. */
  lemma {:induction false} Appended<T>(log: nat -> seq<T>, added: nat -> T, n: nat, i: nat)
    requires log(0) == [] && forall k :: 0 <= k < n ==> log(k + 1) == log(k) + [added(k)]
    requires i < n
    ensures |log(n)| == n && log(n)[i] == added(i)
  {
    assert log(n - 1 + 1) == log(n - 1) + [added(n - 1)];
    if n == 1 {
      assert log(n - 1) == [];
    } else if i < n - 1 {
      Appended(log, added, n - 1, i);
    } else {
      Appended(log, added, n - 1, 0);
    }
  }

  // ----- Counting by hand -----

  /** Where in a sequence something holds. */
  ghost function Places<T>(xs: seq<T>, p: T -> bool): set<int> {
    set i | 0 <= i < |xs| && p(xs[i])
  }

  lemma OneMorePlace<T>(xs: seq<T>, p: T -> bool)
    requires xs != []
    ensures |Places(xs, p)| == |Places(xs[..|xs| - 1], p)| + if p(xs[|xs| - 1]) then 1 else 0
  {
    var n := |xs| - 1;
    assert Places(xs, p) == Places(xs[..n], p) + if p(xs[n]) then {n} else {};
  }
}
