/** Strings in code-point order and `sorted(set)`. */
module Words {
  predicate Less(a: string, b: string) {
    if b == [] then false
    else if a == [] then true
    else a[0] < b[0] || (a[0] == b[0] && Less(a[1..], b[1..]))
  }

  /** Where two strings first differ decides. */
  lemma {:induction false} FirstDifference(a: string, b: string, k: nat)
    requires k < |a| && k < |b| && a[..k] == b[..k] && a[k] < b[k]
    ensures Less(a, b)
  {
    if k > 0 {
      assert a[0] == a[..k][0] == b[..k][0] == b[0];
      assert a[1..][..k - 1] == a[..k][1..] == b[..k][1..] == b[1..][..k - 1];
      FirstDifference(a[1..], b[1..], k - 1);
    }
  }

  lemma {:induction false} Irreflexive(a: string)
    ensures !Less(a, a)
  {
    if a != [] {
      Irreflexive(a[1..]);
    }
  }

  lemma {:induction false} Trichotomy(a: string, b: string)
    ensures Less(a, b) || a == b || Less(b, a)
  {
    if a != [] && b != [] && a[0] == b[0] {
      Trichotomy(a[1..], b[1..]);
      assert a == [a[0]] + a[1..] && b == [b[0]] + b[1..];
    }
  }

  lemma {:induction false} Transitive(a: string, b: string, c: string)
    requires Less(a, b) && Less(b, c)
    ensures Less(a, c)
  {
    if a != [] && a[0] == b[0] && b[0] == c[0] {
      Transitive(a[1..], b[1..], c[1..]);
    }
  }

  lemma Asymmetric(a: string, b: string)
    requires Less(a, b)
    ensures !Less(b, a) && a != b
  {
    Irreflexive(a);
    if Less(b, a) {
      Transitive(a, b, a);
    }
  }

  predicate Smallest(m: string, ws: set<string>) {
    m in ws && forall w :: w in ws && w != m ==> Less(m, w)
  }

  lemma {:induction false} HasSmallest(ws: set<string>)
    requires ws != {}
    ensures exists m :: Smallest(m, ws)
  {
    var y :| y in ws;
    var rest := ws - {y};
    assert ws == rest + {y};
    if rest == {} {
      assert Smallest(y, ws);
    } else {
      HasSmallest(rest);
      var m :| Smallest(m, rest);
      Trichotomy(y, m);
      if Less(y, m) {
        forall w | w in ws && w != y ensures Less(y, w) {
          if w != m {
            Transitive(y, m, w);
          }
        }
        assert Smallest(y, ws);
      } else {
        assert Smallest(m, ws);
      }
    }
  }

  lemma OneSmallest(ws: set<string>, a: string, b: string)
    requires Smallest(a, ws) && Smallest(b, ws)
    ensures a == b
  {
    if a != b {
      Asymmetric(a, b);
    }
  }

  function First(ws: set<string>): (m: string)
    requires ws != {}
    ensures Smallest(m, ws)
  {
    HasSmallest(ws);
    assert forall a, b :: Smallest(a, ws) && Smallest(b, ws) ==> a == b by {
      forall a, b | Smallest(a, ws) && Smallest(b, ws) ensures a == b {
        OneSmallest(ws, a, b);
      }
    }
    var m :| Smallest(m, ws);
    m
  }

  /** Strictly ascending, hence without repetition. */
  ghost predicate Ascending(s: seq<string>) {
    forall i, j :: 0 <= i < j < |s| ==> Less(s[i], s[j])
  }

  function Elements(s: seq<string>): set<string> {
    set w | w in s
  }

  lemma Prepend(m: string, rest: seq<string>)
    requires Ascending(rest) && forall w :: w in Elements(rest) ==> Less(m, w)
    ensures Ascending([m] + rest) && Elements([m] + rest) == {m} + Elements(rest)
  {
    var all := [m] + rest;
    forall i, j | 0 <= i < j < |all| ensures Less(all[i], all[j]) {
      assert all[j] in Elements(rest);
    }
  }

  function Sorted(ws: set<string>): (s: seq<string>)
    ensures Elements(s) == ws && Ascending(s)
    ensures s == [] <==> ws == {}
    decreases |ws|
  {
    if ws == {} then []
    else
      var m := First(ws);
      var rest := Sorted(ws - {m});
      Prepend(m, rest);
      [m] + rest
  }

  lemma EmptyIff(s: seq<string>)
    ensures s == [] <==> Elements(s) == {}
  {
    assert s != [] ==> s[0] in Elements(s);
  }

  /** There is only one way to sort a set. */
  lemma {:induction false} SortedIsUnique(a: seq<string>, b: seq<string>)
    requires Ascending(a) && Ascending(b) && Elements(a) == Elements(b)
    ensures a == b
  {
    if a == [] {
      EmptyIff(a);
      EmptyIff(b);
    } else {
      assert a[0] in Elements(a) && a[0] in Elements(b);
      var i :| 0 <= i < |b| && b[i] == a[0];
      assert b[0] in Elements(b) && b[0] in Elements(a);
      var j :| 0 <= j < |a| && a[j] == b[0];
      if i > 0 && j > 0 {
        Asymmetric(a[0], b[0]);
      }
      RestElements(a);
      RestElements(b);
      SortedIsUnique(a[1..], b[1..]);
    }
  }

  lemma RestElements(a: seq<string>)
    requires a != [] && Ascending(a)
    ensures Elements(a[1..]) == Elements(a) - {a[0]} && Ascending(a[1..])
  {
    Irreflexive(a[0]);
    assert a == [a[0]] + a[1..];
  }

  lemma SortedAgain(s: seq<string>)
    requires Ascending(s)
    ensures Sorted(Elements(s)) == s
  {
    SortedIsUnique(Sorted(Elements(s)), s);
  }
}
