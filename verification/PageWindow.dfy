/** Cutting a fetched page down to the windows around its matches
    (src/app/infra/candidate_extraction.py, `_window_page_text`). The spans of the two regular
    expressions are inputs. */
module PageWindow {
  import Sorting
  import Utf8

  const WINDOW_CONTEXT_CHARS: nat := 150
  const PAGE_DATA_MAX_BYTES: nat := 16 * 1024

  datatype Span = Span(start: nat, end: nat) {
    predicate Within(length: nat) {
      start <= end <= length
    }

    predicate Contains(p: int) {
      start <= p < end
    }

    predicate Encloses(inner: Span) {
      start <= inner.start && inner.end <= end
    }
  }

  /** Python's order on pairs. */
  predicate Before(a: Span, b: Span) {
    a.start < b.start || (a.start == b.start && a.end <= b.end)
  }

  /** A match with its surrounding characters, kept inside the page. */
  function Context(m: Span, length: nat): Span {
    Span(if m.start < WINDOW_CONTEXT_CHARS then 0 else m.start - WINDOW_CONTEXT_CHARS,
         if length < m.end + WINDOW_CONTEXT_CHARS then length else m.end + WINDOW_CONTEXT_CHARS)
  }

  ghost predicate Covers(spans: seq<Span>, p: int) {
    exists i :: 0 <= i < |spans| && spans[i].Contains(p)
  }

  ghost predicate CoversInContext(matches: seq<Span>, length: nat, p: int) {
    exists i :: 0 <= i < |matches| && Context(matches[i], length).Contains(p)
  }

  ghost predicate Separated(windows: seq<Span>) {
    forall i, j :: 0 <= i < j < |windows| ==> windows[i].end < windows[j].start
  }

  /** The windows are in order and strictly apart, cover exactly what the matches' contexts cover,
      and leave no match torn. */
  ghost predicate Merges(windows: seq<Span>, matches: seq<Span>, length: nat) {
    && Separated(windows)
    && (forall i :: 0 <= i < |windows| ==> windows[i].Within(length))
    && (forall p :: Covers(windows, p) <==> CoversInContext(matches, length, p))
    && (forall m :: m in matches ==> exists i :: 0 <= i < |windows| && windows[i].Encloses(m))
  }

  /** Each match lies whole in one window and in no other. */
  lemma MatchInOneWindow(windows: seq<Span>, matches: seq<Span>, length: nat, m: Span)
    requires Merges(windows, matches, length) && m in matches && m.start <= m.end
    ensures exists i :: 0 <= i < |windows| && windows[i].Encloses(m)
                        && forall j :: 0 <= j < |windows| && windows[j].Encloses(m) ==> j == i
  {
    var i :| 0 <= i < |windows| && windows[i].Encloses(m);
    assert forall j :: 0 <= j < |windows| && windows[j].Encloses(m) ==> j == i;
  }

  lemma CoversFirst(a: seq<Span>, p: int)
    requires a != [] && a[0].Contains(p)
    ensures Covers(a, p)
  {
  }

  lemma EndIsFree(a: seq<Span>)
    requires a != [] && Separated(a) && (forall i :: 0 <= i < |a| ==> a[i].start < a[i].end)
    ensures !Covers(a, a[0].end)
  {
  }

  lemma CoversRest(a: seq<Span>, p: int)
    requires Separated(a) && a != [] && (forall i :: 0 <= i < |a| ==> a[i].start < a[i].end)
    ensures Covers(a[1..], p) <==> Covers(a, p) && p >= a[0].end
  {
    if Covers(a[1..], p) {
      var i :| 0 <= i < |a[1..]| && a[1..][i].Contains(p);
      assert a[i + 1].Contains(p);
    }
    if Covers(a, p) && p >= a[0].end {
      var i :| 0 <= i < |a| && a[i].Contains(p);
      assert a[1..][i - 1].Contains(p);
    }
  }

  lemma SameFirst(a: seq<Span>, b: seq<Span>)
    requires a != [] && b != []
    requires Separated(a) && (forall i :: 0 <= i < |a| ==> a[i].start < a[i].end)
    requires Separated(b) && (forall i :: 0 <= i < |b| ==> b[i].start < b[i].end)
    requires forall p :: Covers(a, p) <==> Covers(b, p)
    ensures b[0].start <= a[0].start
    ensures b[0].start == a[0].start ==> b[0].end >= a[0].end
  {
    CoversFirst(a, a[0].start);
    var i :| 0 <= i < |b| && b[i].Contains(a[0].start);
    if b[0].start == a[0].start && b[0].end < a[0].end {
      CoversFirst(a, b[0].end);
      EndIsFree(b);
    }
  }

  lemma SameRest(a: seq<Span>, b: seq<Span>)
    requires a != [] && b != [] && a[0] == b[0]
    requires Separated(a) && (forall i :: 0 <= i < |a| ==> a[i].start < a[i].end)
    requires Separated(b) && (forall i :: 0 <= i < |b| ==> b[i].start < b[i].end)
    requires forall p :: Covers(a, p) <==> Covers(b, p)
    ensures forall p :: Covers(a[1..], p) <==> Covers(b[1..], p)
  {
    forall p ensures Covers(a[1..], p) <==> Covers(b[1..], p) {
      CoversRest(a, p);
      CoversRest(b, p);
    }
  }

  /** What is covered determines the windows: there is only one way to merge. */
  lemma {:induction false} MergeIsUnique(a: seq<Span>, b: seq<Span>)
    requires Separated(a) && (forall i :: 0 <= i < |a| ==> a[i].start < a[i].end)
    requires Separated(b) && (forall i :: 0 <= i < |b| ==> b[i].start < b[i].end)
    requires forall p :: Covers(a, p) <==> Covers(b, p)
    ensures a == b
  {
    if a != [] {
      CoversFirst(a, a[0].start);
    }
    if b != [] {
      CoversFirst(b, b[0].start);
    }
    if a != [] && b != [] {
      SameFirst(a, b);
      SameFirst(b, a);
      SameRest(a, b);
      MergeIsUnique(a[1..], b[1..]);
      assert a == [a[0]] + a[1..] && b == [b[0]] + b[1..];
    }
  }

  // ----- One step of the merge -----

  function Absorb(windows: seq<Span>, w: Span): seq<Span> {
    if windows != [] && w.start <= windows[|windows| - 1].end then
      var last := windows[|windows| - 1];
      windows[|windows| - 1 := Span(last.start, if last.end < w.end then w.end else last.end)]
    else windows + [w]
  }

  lemma AbsorbSeparates(windows: seq<Span>, w: Span, length: nat)
    requires Separated(windows) && w.Within(length)
    requires forall i :: 0 <= i < |windows| ==> windows[i].Within(length)
    requires windows != [] ==> windows[|windows| - 1].start <= w.start
    ensures Separated(Absorb(windows, w))
    ensures forall i :: 0 <= i < |Absorb(windows, w)| ==> Absorb(windows, w)[i].Within(length)
    ensures var last := |Absorb(windows, w)| - 1; last >= 0 && Absorb(windows, w)[last].start <= w.start
  {
    var after := Absorb(windows, w);
    forall i, j | 0 <= i < j < |after| ensures after[i].end < after[j].start {
      if j == |windows| {
        if i < |windows| - 1 {
          assert windows[i].end < windows[|windows| - 1].start;
        }
      } else {
        assert windows[i].end < windows[j].start;
      }
    }
  }

  lemma AbsorbCovers(windows: seq<Span>, w: Span, p: int)
    requires Separated(windows)
    requires windows != [] ==> windows[|windows| - 1].start <= w.start
    requires w.start <= w.end
    ensures Covers(Absorb(windows, w), p) <==> Covers(windows, p) || w.Contains(p)
  {
    var after := Absorb(windows, w);
    var last := |after| - 1;
    if Covers(windows, p) {
      var i :| 0 <= i < |windows| && windows[i].Contains(p);
      assert after[i].Contains(p);
    }
    if w.Contains(p) {
      assert after[last].Contains(p);
    }
    if Covers(after, p) {
      var i :| 0 <= i < |after| && after[i].Contains(p);
      assert i < last ==> windows[i].Contains(p);
      assert |after| == |windows| && i == last ==> windows[i].Contains(p) || w.Contains(p);
    }
  }

  lemma AbsorbEncloses(windows: seq<Span>, w: Span, m: Span)
    requires windows != [] ==> windows[|windows| - 1].start <= w.start
    requires w.Encloses(m) || exists i :: 0 <= i < |windows| && windows[i].Encloses(m)
    ensures exists i :: 0 <= i < |Absorb(windows, w)| && Absorb(windows, w)[i].Encloses(m)
  {
    var after := Absorb(windows, w);
    if w.Encloses(m) {
      assert after[|after| - 1].Encloses(m);
    } else {
      var i :| 0 <= i < |windows| && windows[i].Encloses(m);
      assert after[i].Encloses(m);
    }
  }

  // ----- The whole cut -----

  function Joined(page: string, windows: seq<Span>): string
    requires forall i :: 0 <= i < |windows| ==> windows[i].Within(|page|)
  {
    if windows == [] then ""
    else
      assert windows[0].Within(|page|);
      if |windows| == 1 then page[windows[0].start..windows[0].end]
    else page[windows[0].start..windows[0].end] + " ... " + Joined(page, windows[1..])
  }

  /** The windows' texts one after the other, with dots between two of them. */
  lemma {:induction false} JoinedAppends(page: string, windows: seq<Span>, w: Span)
    requires (forall i :: 0 <= i < |windows| ==> windows[i].Within(|page|)) && w.Within(|page|)
    ensures forall i :: 0 <= i < |windows + [w]| ==> (windows + [w])[i].Within(|page|)
    ensures Joined(page, windows + [w]) ==
            Joined(page, windows) + (if windows == [] then "" else " ... ") + page[w.start..w.end]
  {
    if |windows| > 1 {
      JoinedAppends(page, windows[1..], w);
      assert (windows + [w])[1..] == windows[1..] + [w];
      assert windows[0].Within(|page|);
    }
  }

  /** The position is at most 150 characters away from a match. */
  ghost predicate Near(matches: seq<Span>, p: int) {
    exists i :: 0 <= i < |matches| && matches[i].start - 150 <= p < matches[i].end + 150
  }

  lemma CoversTheNear(matches: seq<Span>, length: nat)
    requires forall m :: m in matches ==> m.Within(length)
    ensures forall p :: CoversInContext(matches, length, p) <==> 0 <= p < length && Near(matches, p)
  {
    forall i, p | 0 <= i < |matches|
      ensures Context(matches[i], length).Contains(p)
              <==> 0 <= p < length && matches[i].start - 150 <= p < matches[i].end + 150
    {
      assert matches[i] in matches;
    }
  }

  /** The loop over the matches in order, growing the last window in place. */
  method MergedWindows(sorted: seq<Span>, length: nat) returns (windows: seq<Span>)
    requires Sorting.Ascending(Before, sorted)
    requires forall m :: m in sorted ==> m.Within(length)
    ensures Merges(windows, sorted, length)
  {
    windows := [];
    for i := 0 to |sorted|
      invariant Merges(windows, sorted[..i], length)
      invariant windows != [] ==> i > 0 && windows[|windows| - 1].start <= Context(sorted[i - 1], length).start
    {
      var window := Context(sorted[i], length);
      assert i > 0 ==> Before(sorted[i - 1], sorted[i]);
      MergesNext(windows, sorted[..i], sorted[i], length);
      assert sorted[..i + 1] == sorted[..i] + [sorted[i]];
      if windows != [] && window.start <= windows[|windows| - 1].end {
        var last := windows[|windows| - 1];
        windows := windows[|windows| - 1 := Span(last.start, if last.end < window.end then window.end else last.end)];
      } else {
        windows := windows + [window];
      }
    }
    assert sorted[..|sorted|] == sorted;
  }

  /** The page text sent to the router: what the merged windows show, cut to the byte cap. */
  method WindowPageText(page: string, matches: seq<Span>, maxBytes: nat := PAGE_DATA_MAX_BYTES)
    returns (text: string, ghost windows: seq<Span>)
    requires forall m :: m in matches ==> m.Within(|page|)
    ensures Merges(windows, matches, |page|)
    ensures forall p :: Covers(windows, p) <==> 0 <= p < |page| && Near(matches, p)
    ensures matches == [] ==> Utf8.LongestFit(text, page, maxBytes)
    ensures matches != [] ==> Utf8.LongestFit(text, Joined(page, windows), maxBytes)
  {
    var sorted := Sorting.Sort(Before, matches);
    Sorting.SortSorts(Before, matches);
    CoversTheNear(matches, |page|);
    if sorted == [] {
      assert |multiset(matches)| == 0;
      Utf8.TruncateFits(page, maxBytes);
      return Utf8.Truncate(page, maxBytes), [];
    }
    forall m | m in sorted ensures m.Within(|page|) {
      assert m in multiset(sorted);
    }
    var merged := MergedWindows(sorted, |page|);
    MergesReordered(merged, sorted, matches, |page|);
    var shown := Joined(page, merged);
    Utf8.TruncateFits(shown, maxBytes);
    return Utf8.Truncate(shown, maxBytes), merged;
  }

  lemma MergesNext(windows: seq<Span>, done: seq<Span>, m: Span, length: nat)
    requires Merges(windows, done, length) && m.Within(length)
    requires windows != [] ==> windows[|windows| - 1].start <= Context(m, length).start
    ensures var after := Absorb(windows, Context(m, length));
            Merges(after, done + [m], length) && after[|after| - 1].start <= Context(m, length).start
  {
    var w := Context(m, length);
    var after := Absorb(windows, w);
    AbsorbSeparates(windows, w, length);
    forall p ensures Covers(after, p) <==> CoversInContext(done + [m], length, p) {
      AbsorbCovers(windows, w, p);
      if CoversInContext(done, length, p) {
        var i :| 0 <= i < |done| && Context(done[i], length).Contains(p);
        assert Context((done + [m])[i], length).Contains(p);
      }
      if w.Contains(p) {
        assert Context((done + [m])[|done|], length).Contains(p);
      }
    }
    forall k | k in done + [m] ensures exists i :: 0 <= i < |after| && after[i].Encloses(k) {
      AbsorbEncloses(windows, w, k);
    }
  }

  lemma MergesReordered(windows: seq<Span>, sorted: seq<Span>, matches: seq<Span>, length: nat)
    requires Merges(windows, sorted, length) && multiset(sorted) == multiset(matches)
    ensures Merges(windows, matches, length)
  {
    forall m ensures m in matches <==> m in sorted {
      assert m in multiset(matches) <==> m in multiset(sorted);
    }
    forall p ensures CoversInContext(sorted, length, p) <==> CoversInContext(matches, length, p) {
      if CoversInContext(sorted, length, p) {
        var i :| 0 <= i < |sorted| && Context(sorted[i], length).Contains(p);
        assert sorted[i] in matches;
      }
      if CoversInContext(matches, length, p) {
        var i :| 0 <= i < |matches| && Context(matches[i], length).Contains(p);
        assert matches[i] in sorted;
      }
    }
  }
}
