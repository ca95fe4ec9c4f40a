/** A stable sort, standing for Python's built-in one. */
module Sorting {
  ghost predicate TotalPreorder<T(!new)>(leq: (T, T) -> bool) {
    && (forall x, y :: leq(x, y) || leq(y, x))
    && (forall x, y, z :: leq(x, y) && leq(y, z) ==> leq(x, z))
  }

  ghost predicate Ascending<T>(leq: (T, T) -> bool, xs: seq<T>) {
    forall i, j :: 0 <= i < j < |xs| ==> leq(xs[i], xs[j])
  }

  function Insert<T>(leq: (T, T) -> bool, x: T, xs: seq<T>): seq<T> {
    if xs == [] then [x]
    else if leq(x, xs[0]) then [x] + xs
    else [xs[0]] + Insert(leq, x, xs[1..])
  }

  function Sort<T>(leq: (T, T) -> bool, xs: seq<T>): seq<T> {
    if xs == [] then [] else Insert(leq, xs[0], Sort(leq, xs[1..]))
  }

  lemma {:induction false} InsertAdds<T>(leq: (T, T) -> bool, x: T, xs: seq<T>)
    ensures multiset(Insert(leq, x, xs)) == multiset{x} + multiset(xs)
  {
    if xs != [] && !leq(x, xs[0]) {
      InsertAdds(leq, x, xs[1..]);
      assert xs == [xs[0]] + xs[1..];
    }
  }

  lemma PrependKeeps<T(!new)>(leq: (T, T) -> bool, y: T, ys: seq<T>)
    requires Ascending(leq, ys) && forall z :: z in ys ==> leq(y, z)
    ensures Ascending(leq, [y] + ys)
  {
    var all := [y] + ys;
    forall i, j | 0 <= i < j < |all| ensures leq(all[i], all[j]) {
      assert all[j] == ys[j - 1];
    }
  }

  lemma FirstIsLeast<T(!new)>(leq: (T, T) -> bool, xs: seq<T>, z: T)
    requires TotalPreorder(leq) && Ascending(leq, xs) && z in xs
    ensures leq(xs[0], z)
  {
    var i :| 0 <= i < |xs| && xs[i] == z;
    assert leq(z, z);
  }

  lemma {:induction false} InsertKeeps<T(!new)>(leq: (T, T) -> bool, x: T, xs: seq<T>)
    requires TotalPreorder(leq) && Ascending(leq, xs)
    ensures Ascending(leq, Insert(leq, x, xs))
  {
    if xs == [] {
    } else if leq(x, xs[0]) {
      forall z | z in xs ensures leq(x, z) {
        FirstIsLeast(leq, xs, z);
      }
      PrependKeeps(leq, x, xs);
    } else {
      InsertKeeps(leq, x, xs[1..]);
      InsertAdds(leq, x, xs[1..]);
      var rest := Insert(leq, x, xs[1..]);
      forall z | z in rest ensures leq(xs[0], z) {
        assert z in multiset(rest);
        if z != x {
          FirstIsLeast(leq, xs, z);
        }
      }
      PrependKeeps(leq, xs[0], rest);
    }
  }

  lemma {:induction false} SortSorts<T(!new)>(leq: (T, T) -> bool, xs: seq<T>)
    requires TotalPreorder(leq)
    ensures Ascending(leq, Sort(leq, xs))
    ensures multiset(Sort(leq, xs)) == multiset(xs)
  {
    if xs != [] {
      SortSorts(leq, xs[1..]);
      InsertKeeps(leq, xs[0], Sort(leq, xs[1..]));
      InsertAdds(leq, xs[0], Sort(leq, xs[1..]));
      assert xs == [xs[0]] + xs[1..];
    }
  }
}
