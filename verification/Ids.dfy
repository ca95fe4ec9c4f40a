/** Row identifiers. UUIDv7 values (section 5.7 of RFC 9562) are ordered by creation, so a natural
    number stands for one, and `ORDER BY id` is the ascending order of numbers. */
module Ids {
  type Id = nat

  lemma {:induction false} LeastBelow(ids: set<Id>, y: Id) returns (m: Id)
    requires y in ids
    ensures m in ids && forall x :: x in ids ==> m <= x
    decreases y
  {
    if x :| x in ids && x < y {
      m := LeastBelow(ids, x);
    } else {
      m := y;
    }
  }

  lemma HasLeast(ids: set<Id>)
    requires ids != {}
    ensures exists m :: m in ids && forall x :: x in ids ==> m <= x
  {
    var y :| y in ids;
    var m := LeastBelow(ids, y);
  }

  function Least(ids: set<Id>): (m: Id)
    requires ids != {}
    ensures m in ids && forall x :: x in ids ==> m <= x
  {
    HasLeast(ids);
    var m :| m in ids && forall x :: x in ids ==> m <= x;
    m
  }

  lemma {:induction false} GreatestAbove(ids: set<Id>, y: Id) returns (m: Id)
    requires y in ids
    ensures m in ids && forall x :: x in ids ==> x <= m
    decreases |ids|
  {
    if x :| x in ids && x > y {
      m := GreatestAbove(ids - {y}, x);
      forall z | z in ids ensures z <= m {
        assert z == y || z in ids - {y};
      }
    } else {
      m := y;
    }
  }

  lemma HasGreatest(ids: set<Id>)
    requires ids != {}
    ensures exists m :: m in ids && forall x :: x in ids ==> x <= m
  {
    var y :| y in ids;
    var m := GreatestAbove(ids, y);
  }

  function Greatest(ids: set<Id>): (m: Id)
    requires ids != {}
    ensures m in ids && forall x :: x in ids ==> x <= m
  {
    HasGreatest(ids);
    var m :| m in ids && forall x :: x in ids ==> x <= m;
    m
  }

  /** `ORDER BY id`. */
  function InOrder(ids: set<Id>): (s: seq<Id>)
    ensures forall x :: x in s <==> x in ids
    ensures forall i, j :: 0 <= i < j < |s| ==> s[i] < s[j]
    ensures |s| == |ids|
    decreases |ids|
  {
    if ids == {} then []
    else
      var m := Least(ids);
      [m] + InOrder(ids - {m})
  }

  /** In ascending order the greatest of the smaller elements stands just before. */
  lemma GreatestBelow(s: seq<Id>, k: nat, below: set<Id>)
    requires k < |s| && forall i, j :: 0 <= i < j < |s| ==> s[i] < s[j]
    requires forall x :: x in below <==> x in s && x < s[k]
    ensures if k == 0 then below == {} else below != {} && Greatest(below) == s[k - 1]
  {
    if below != {} {
      var g := Greatest(below);
      var j :| 0 <= j < |s| && s[j] == g;
      assert j < k;
    }
    if k > 0 {
      assert s[k - 1] in below;
    }
  }

  /** `ORDER BY id LIMIT limit`. */
  function FirstInOrder(ids: set<Id>, limit: nat): (s: seq<Id>)
    ensures forall x :: x in s ==> x in ids
    ensures forall i, j :: 0 <= i < j < |s| ==> s[i] < s[j]
    ensures |s| == if |ids| < limit then |ids| else limit
    ensures |ids| <= limit ==> forall x :: x in ids ==> x in s
    ensures forall x, y :: x in ids && x !in s && y in s ==> y < x
  {
    var all := InOrder(ids);
    assert forall x :: x in ids ==> exists i :: 0 <= i < |all| && all[i] == x;
    if |all| <= limit then all else all[..limit]
  }

  function Members(s: seq<Id>): set<Id> {
    set x | x in s
  }
}
