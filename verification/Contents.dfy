/** When two submitted texts count as the same content (src/app/domain/ingestion.py,
    src/app/infra/ingestion.py, src/app/infra/agent_integration.py). */
module Contents {
  import opened Wrappers
  import opened Ids
  import opened Database
  import opened Ingestion

  /** No two texts share a digest. */
  ghost predicate Injective(lib: Library) {
    forall a, b :: lib.digest(a) == lib.digest(b) ==> a == b
  }

  predicate OneLine(text: string) {
    '\n' !in text
  }

  /** What `prepare_candidate` compares of an excerpt. */
  function Body(lib: Library, e: Excerpt): string {
    lib.strip(if e.text.Some? then e.text.value else "")
  }

  lemma JoinedAlike(a: string, b: string, x: string, y: string)
    requires a + "\n" + b == x + "\n" + y
    ensures |a| == |x| ==> a == x && b == y
    ensures OneLine(a) && OneLine(x) ==> |a| == |x|
  {
    var left, right := a + "\n" + b, x + "\n" + y;
    assert left[|a|] == '\n' && right[|x|] == '\n';
    assert left[..|a|] == a && right[..|x|] == x;
    assert left[|a| + 1..] == b && right[|x| + 1..] == y;
  }

  /** Two texts sent for one page that share a hash are the same text exactly when their titles are of one
      length, which titles of one line always are. */
  lemma SameHashIff(lib: Library, url: Url, title: Title, excerpt: Excerpt, url': Url, title': Title, excerpt': Excerpt)
    requires Injective(lib) && lib.canonical(url).Ok? && lib.canonical(url') == lib.canonical(url)
    ensures var p, q := Prepare(lib, url, title, excerpt).value, Prepare(lib, url', title', excerpt').value;
            var sameText := p.title == q.title && Body(lib, excerpt) == Body(lib, excerpt');
            && (sameText ==> p.hash == q.hash)
            && (p.hash == q.hash ==> (sameText <==> |p.title.text| == |q.title.text|))
            && (OneLine(p.title.text) && OneLine(q.title.text) ==> (p.hash == q.hash <==> sameText))
  {
    var p, q := Prepare(lib, url, title, excerpt).value, Prepare(lib, url', title', excerpt').value;
    var u, b, c := p.url.text, Body(lib, excerpt), Body(lib, excerpt');
    var left, right := p.title.text + "\n" + b, q.title.text + "\n" + c;
    assert u + "\n" + p.title.text + "\n" + b == (u + "\n") + left;
    assert u + "\n" + q.title.text + "\n" + c == (u + "\n") + right;
    if p.hash == q.hash {
      assert ((u + "\n") + left)[|u| + 1..] == left && ((u + "\n") + right)[|u| + 1..] == right;
      JoinedAlike(p.title.text, b, q.title.text, c);
    }
  }

  /** A title of two lines, and its first line alone with the second one in front of the excerpt. */
  lemma SplitTitleSameHash(lib: Library, url: Url, line: string, rest: string, body: string)
    requires lib.canonical(url).Ok? && rest != "" && body != ""
    requires lib.strip(line + "\n" + rest) == line + "\n" + rest && lib.strip(body) == body
    requires lib.strip(line) == line && lib.strip(rest + "\n" + body) == rest + "\n" + body
    ensures var p := Prepare(lib, url, Title(line + "\n" + rest), Excerpt(Some(body))).value;
            var q := Prepare(lib, url, Title(line), Excerpt(Some(rest + "\n" + body))).value;
            p.url == q.url && p.hash == q.hash && p.title != q.title
  {
    var u := lib.canonical(url).value.text + "\n";
    assert u + (line + "\n" + rest) + "\n" + body == u + line + "\n" + (rest + "\n" + body);
    assert |line + "\n" + rest| > |line|;
  }

  /** The second text is taken for the first one and never becomes a discovery. */
  lemma OtherTextIsRepeated(lib: Library, tie: TieBreak, s: Shelf, a: Arrival, began: Time, r: FeedRecord,
                            line: string, rest: string, body: string)
    requires lib.canonical(r.url).Ok? && Active(s, r.source) && rest != "" && body != ""
    requires lib.strip(line + "\n" + rest) == line + "\n" + rest && lib.strip(body) == body
    requires lib.strip(line) == line && lib.strip(rest + "\n" + body) == rest + "\n" + body
    requires a.record == FeedRecord(r.source, r.url, Title(line + "\n" + rest), Excerpt(Some(body)))
    requires r.title == Title(line) && r.excerpt == Excerpt(Some(rest + "\n" + body))
    ensures Judge(lib, ImportOne(lib, tie, s, a, began), r).Repeated?
  {
    SplitTitleSameHash(lib, r.url, line, rest, body);
    OneIsDealt(lib, tie, s, a, began, ImportOne(lib, tie, s, a, began));
  }
}
