/** Concrete crawls over a two-page site, with the quote key left abstract: only the
    distinctness of the keys involved is assumed of it. */
module Scenarios {
  import opened Wrappers
  import opened Hashing
  import opened Jobs
  import opened Crawler
  import opened CrawlProperties

  const Base := "http://q.test"

  /** urljoin for absolute paths on `Base`. */
  function UrlJoin(base: string, path: string): string {
    base + path
  }

  const Page1Url := "http://q.test/"
  const Page2Url := "http://q.test/page/2/"

  /** Page 1: two quotes, one author match (so the second quote falls back to its own,
      absent, author), and a `rel=next` link to page 2. */
  const Page1 := Page([QuoteNode("q1", None, None), QuoteNode("q2", None, None)], ["Albert"],
                      None, Some(Link(Some("/page/2/"), None, Some("Next"))), [], None, None)

  /** Page 2: one quote and no next link. */
  const Page2 := Page([QuoteNode("q3", None, None)], ["Marie"], None, None, [], None, None)

  /** The quotes site with a page budget of `n`. */
  function QuotesSite(n: nat): Site {
    Site(Base, "", ".author", "", n)
  }

  const EmptyTables := Tables([], [], [])

  const Web2 := map[Page1Url := Served(Page1), Page2Url := Served(Page2)]

  function Row1(key: KeyFn): QuoteRow { QuoteRow("q1", Some("Albert"), Page1Url, key("q1", Some("Albert"))) }
  function Row2(key: KeyFn): QuoteRow { QuoteRow("q2", None, Page1Url, key("q2", None)) }
  function Row3(key: KeyFn): QuoteRow { QuoteRow("q3", Some("Marie"), Page2Url, key("q3", Some("Marie"))) }

  /** The three keys differ. */
  predicate DistinctKeys(key: KeyFn) {
    && key("q1", Some("Albert")) != key("q2", None)
    && key("q3", Some("Marie")) != key("q1", Some("Albert"))
    && key("q3", Some("Marie")) != key("q2", None)
  }

  lemma JoinPaths()
    ensures UrlJoin(Base, "/") == Page1Url && UrlJoin(Base, "/page/2/") == Page2Url
  {
    assert Base + "/" == Page1Url;
    assert Base + "/page/2/" == Page2Url;
  }

  lemma Page1Candidates(key: KeyFn, n: nat)
    requires DistinctKeys(key)
    ensures ProcessFrom(QuotesSite(n), Page1, Page1Url, key, PageAcc(EmptyTables, 0, 0), 0)
         == PageAcc(Tables([Row1(key), Row2(key)], ["Albert"], []), 2, 0)
  {
    var c1 := SaveCandidate(EmptyTables, Page1.quoteNodes[0], Some("Albert"), Page1Url, key);
    assert c1 == CandidateResult(Tables([Row1(key)], ["Albert"], []), 1, 0);
    assert HashSet([Row1(key)]) == {key("q1", Some("Albert"))} by {
      HashSetAppend([], Row1(key));
    }
    var c2 := SaveCandidate(c1.tables, Page1.quoteNodes[1], None, Page1Url, key);
    assert c2 == CandidateResult(Tables([Row1(key), Row2(key)], ["Albert"], []), 1, 0);
  }

  lemma Page2Candidates(key: KeyFn, n: nat)
    requires DistinctKeys(key)
    ensures ProcessFrom(QuotesSite(n), Page2, Page2Url, key, PageAcc(Tables([Row1(key), Row2(key)], ["Albert"], []), 0, 0), 0)
         == PageAcc(Tables([Row1(key), Row2(key), Row3(key)], ["Albert", "Marie"], []), 1, 0)
  {
    assert HashSet([Row1(key), Row2(key)]) == {key("q1", Some("Albert")), key("q2", None)} by {
      HashSetAppend([], Row1(key));
      HashSetAppend([Row1(key)], Row2(key));
      assert [Row1(key)] + [Row2(key)] == [Row1(key), Row2(key)];
    }
  }

  /** The loop state after page 1. */
  function AfterPage1(key: KeyFn): CrawlState {
    CrawlState(Tables([Row1(key), Row2(key)], ["Albert"], []), JobRow(Running, true, false, 1, 2, 0),
               0, 0, 0, Some(Page2Url), [Page1Url], [Page1Url])
  }

  /** The loop state after page 2. */
  function AfterPage2(key: KeyFn): CrawlState {
    CrawlState(Tables([Row1(key), Row2(key), Row3(key)], ["Albert", "Marie"], []),
               JobRow(Running, true, false, 2, 3, 0), 0, 0, 0, None, [Page1Url, Page2Url], [Page1Url, Page2Url])
  }

  lemma Page1Step(key: KeyFn, n: nat)
    requires DistinctKeys(key)
    ensures PageStep(QuotesSite(n), Web2, key, UrlJoin, InitialState(QuotesSite(n), UrlJoin, EmptyTables, NewJob))
         == Continue(AfterPage1(key))
  {
    JoinPaths();
    Page1Candidates(key, n);
  }

  lemma Page2Step(key: KeyFn, n: nat)
    requires DistinctKeys(key)
    ensures PageStep(QuotesSite(n), Web2, key, UrlJoin, AfterPage1(key)) == Continue(AfterPage2(key))
  {
    Page2Candidates(key, n);
  }

  /** Two pages, three quotes, no errors: the job ends SUCCESS with three quotes saved. */
  lemma TwoPagesSucceed(key: KeyFn)
    requires DistinctKeys(key)
    ensures var r := Crawl(QuotesSite(10), Web2, key, UrlJoin, EmptyTables, NewJob);
      && r.row.status == Success && r.row.fetched == 2 && r.row.saved == 3 && r.row.errors == 0
      && r.raised == None && r.requested == [Page1Url, Page2Url] && r.tables.errors == []
      && r.tables.quotes == [Row1(key), Row2(key), Row3(key)]
      && r.tables.authors == ["Albert", "Marie"]
  {
    var s0 := InitialState(QuotesSite(10), UrlJoin, EmptyTables, NewJob);
    Page1Step(key, 10);
    Page2Step(key, 10);
    RunPagesNext(QuotesSite(10), Web2, key, UrlJoin, s0, 10);
    RunPagesNext(QuotesSite(10), Web2, key, UrlJoin, AfterPage1(key), 9);
    RunPagesEnd(QuotesSite(10), Web2, key, UrlJoin, AfterPage2(key), 8);
  }

  /** The same two pages with scrape_site as written: three quotes are stored and
      counted, yet the fresh job ends FAILED. */
  lemma TwoPagesFailAsWritten(key: KeyFn)
    requires DistinctKeys(key)
    ensures var w := CrawlAsWritten(QuotesSite(10), Web2, key, UrlJoin, EmptyTables, NewJob);
      && w.row.status == Failed && w.row.saved == 3 && w.row.errors == 0 && w.raised == None
      && w.tables.quotes == [Row1(key), Row2(key), Row3(key)]
  {
    TwoPagesSucceed(key);
    AsWrittenOnlyStatusDiffers(QuotesSite(10), Web2, key, UrlJoin, EmptyTables, NewJob);
  }

  /** The same crawl run again on what the first run stored saves nothing and
      leaves the quote table as it was. */
  lemma RerunSavesNothing(key: KeyFn, row2: JobRow)
    requires DistinctKeys(key)
    ensures var r1 := Crawl(QuotesSite(10), Web2, key, UrlJoin, EmptyTables, NewJob);
      var r2 := Crawl(QuotesSite(10), Web2, key, UrlJoin, r1.tables, row2);
      r2.tables.quotes == [Row1(key), Row2(key), Row3(key)] && r2.row.saved == row2.saved
  {
    TwoPagesSucceed(key);
    CrawlTwiceAddsNothing(QuotesSite(10), Web2, key, UrlJoin, EmptyTables, NewJob, row2);
  }

  /** With a budget of one page, page 2 is never requested although page 1
      links to it. */
  lemma OnePageBudget(key: KeyFn)
    requires DistinctKeys(key)
    ensures var r := Crawl(QuotesSite(1), Web2, key, UrlJoin, EmptyTables, NewJob);
      && r.requested == [Page1Url] && r.pages == [Page1Url] && r.row.fetched == 1 && r.row.saved == 2
      && r.row.status == Success && r.raised == None
  {
    var s0 := InitialState(QuotesSite(1), UrlJoin, EmptyTables, NewJob);
    Page1Step(key, 1);
    RunPagesNext(QuotesSite(1), Web2, key, UrlJoin, s0, 1);
    RunPagesEnd(QuotesSite(1), Web2, key, UrlJoin, AfterPage1(key), 0);
  }

  /** The first GET times out. One network error is recorded, nothing is
      fetched or saved, and the job ends FAILED without raising. */
  lemma FirstFetchTimesOut(key: KeyFn)
    ensures var r := Crawl(QuotesSite(10), map[Page1Url := Unreachable("timeout")], key, UrlJoin, EmptyTables, NewJob);
      && r.row.status == Failed && r.row.fetched == 0 && r.row.saved == 0 && r.row.errors == 1
      && r.tables.errors == [ErrorRow(Some(Page1Url), "network", "timeout")] && r.tables.quotes == []
      && r.requested == [Page1Url] && r.pages == [] && r.raised == None
  {
    JoinPaths();
  }

  /** A page whose quote has no author anywhere. */
  const Anonymous := Page([QuoteNode("q4", None, None)], [], None, None, [], None, None)

  /** An author selector that matches nothing stores the quote without an
      author, and creates no author. */
  lemma NoAuthorMatch(key: KeyFn)
    ensures var r := Crawl(QuotesSite(10), map[Page1Url := Served(Anonymous)], key, UrlJoin, EmptyTables, NewJob);
      && r.tables.quotes == [QuoteRow("q4", None, Page1Url, key("q4", None))] && r.tables.authors == []
      && r.row.status == Success && r.row.saved == 1
  {
    JoinPaths();
  }

  /** A page with no quotes whose next link points back at itself. */
  const Loop := Page([], [], None, Some(Link(Some("/"), None, None)), [], None, None)

  const LoopWeb := map[Page1Url := Served(Loop)]

  /** One visit of the self-linked page. */
  function Revisited(s: CrawlState): CrawlState {
    s.(row := Incremented(s.row, 1, 0, 0), requested := s.requested + [Page1Url], pages := s.pages + [Page1Url])
  }

  lemma LoopStep(key: KeyFn, n: nat, s: CrawlState)
    requires s.next == Some(Page1Url) && s.fetched == 0 && s.saved == 0 && s.errors == 0
    ensures PageStep(QuotesSite(n), LoopWeb, key, UrlJoin, s) == Continue(Revisited(s))
  {
    JoinPaths();
  }

  /** `k` copies of `url`. */
  function Repeat(url: string, k: nat): (r: seq<string>)
    ensures |r| == k && forall j :: 0 <= j < k ==> r[j] == url
  {
    if k == 0 then [] else [url] + Repeat(url, k - 1)
  }

  /** From the self-linked page pending, the loop spends its whole budget on that page. */
  lemma {:induction false} SelfLinkLoop(key: KeyFn, n: nat, s: CrawlState, k: nat)
    requires s.next == Some(Page1Url) && s.fetched == 0 && s.saved == 0 && s.errors == 0
    ensures var e := RunPages(QuotesSite(n), LoopWeb, key, UrlJoin, s, k);
      && e.Completed? && e.state.requested == s.requested + Repeat(Page1Url, k)
      && e.state.row == Incremented(s.row, k, 0, 0) && e.state.tables == s.tables
      && e.state.fetched == 0 && e.state.saved == 0 && e.state.errors == 0
    decreases k
  {
    if k == 0 {
      RunPagesEnd(QuotesSite(n), LoopWeb, key, UrlJoin, s, k);
      assert s.requested + Repeat(Page1Url, 0) == s.requested;
    } else {
      LoopStep(key, n, s);
      RunPagesNext(QuotesSite(n), LoopWeb, key, UrlJoin, s, k);
      SelfLinkLoop(key, n, Revisited(s), k - 1);
      IncrementedTwice(s.row, 1, 0, 0, k - 1, 0, 0);
      assert s.requested + [Page1Url] + Repeat(Page1Url, k - 1) == s.requested + Repeat(Page1Url, k);
    }
  }

  /** Nothing stops a page that links to itself from being fetched again: every page of
      the budget is spent on it, and with no quote saved the job ends FAILED. */
  lemma SelfLinkIsRefetched(key: KeyFn, n: nat)
    ensures var r := Crawl(QuotesSite(n), LoopWeb, key, UrlJoin, EmptyTables, NewJob);
      r.requested == Repeat(Page1Url, n) && r.row.fetched == n && r.row.status == Failed
  {
    JoinPaths();
    var s0 := InitialState(QuotesSite(n), UrlJoin, EmptyTables, NewJob);
    SelfLinkLoop(key, n, s0, n);
    assert [] + Repeat(Page1Url, n) == Repeat(Page1Url, n);
  }

  lemma PairPieces(x: char, y: char)
    ensures [x] + "  " + [y] == [x, ' ', ' ', y] && [x] + " " + [y] == [x, ' ', y]
  {
  }

  lemma PairCollapsed(x: char, y: char)
    requires !IsSpace(x) && !IsSpace(y)
    ensures Collapsed([x, ' ', y])
  {
    var c := [x, ' ', y];
    assert !DoubleSpaceAt(c, 0) && !DoubleSpaceAt(c, 1);
  }

  lemma PairLower(x: char, y: char)
    ensures Lower([x, ' ', y]) == [LowerChar(x), ' ', LowerChar(y)]
  {
    var l := Lower([x, ' ', y]);
    assert |l| == 3 && l[0] == LowerChar(x) && l[1] == LowerChar(' ') && l[2] == LowerChar(y);
  }

  /** Two one-letter words separated by a double space normalise to the lowered pair
      with a single space. */
  lemma DoubleSpacedPair(x: char, y: char)
    requires !IsSpace(x) && !IsSpace(y)
    ensures NormText(Some([x, ' ', ' ', y])) == [LowerChar(x), ' ', LowerChar(y)]
  {
    PairPieces(x, y);
    NormTextRunReplaced([x], "  ", " ", [y]);
    PairCollapsed(x, y);
    NormTextOfCollapsed([x, ' ', y]);
    PairLower(x, y);
  }

  /** The normaliser keeps the words and changes only whitespace runs and letter case:
      "A  b" normalises to "a b", and texts with different words keep different payloads. */
  lemma WhitespaceRunCollapses()
    ensures NormText(Some("A  b")) == "a b"
    ensures Payload(Some("a  b"), None) != Payload(Some("c  d"), None)
  {
    DoubleSpacedPair('A', 'b');
    DoubleSpacedPair('a', 'b');
    DoubleSpacedPair('c', 'd');
    assert Payload(Some("a  b"), None)[0] == 'a';
    assert Payload(Some("c  d"), None)[0] == 'c';
  }

  /** compute_quote_hash lowercases the author: names that differ only in letter case
      give the same key. */
  lemma CaseVariantKeys(sha256: string -> string, text: string, a: string, b: string)
    requires Lower(a) == Lower(b)
    ensures QuoteKey(sha256)(text, Some(a)) == QuoteKey(sha256)(text, Some(b))
  {
    KeyIgnoresCase(text, a, sha256);
    KeyIgnoresCase(text, b, sha256);
  }

  /** Author rows are matched by exact name while the key ignores the author's case: the
      same quote credited to two such names (say "Albert", then "ALBERT") is stored once,
      and both names become Author rows. */
  lemma CaseVariantAuthors(key: KeyFn, text: string, a: string, b: string, url: string)
    requires key(text, Some(a)) == key(text, Some(b)) && a != b && a != "" && b != ""
    ensures var node := QuoteNode(text, None, None);
      var r1 := SaveCandidate(EmptyTables, node, Some(a), url, key);
      var r2 := SaveCandidate(r1.tables, node, Some(b), url, key);
      r1.saved == 1 && r2.saved == 0 && |r2.tables.quotes| == 1 && r2.tables.authors == [a, b]
  {
    var r1 := SaveCandidate(EmptyTables, QuoteNode(text, None, None), Some(a), url, key);
    assert r1.tables.quotes == [QuoteRow(text, Some(a), url, key(text, Some(a)))];
    assert r1.tables.quotes[0].hash == key(text, Some(a));
  }
}
