/** What a crawl promises, proved on the page-loop specification of module Crawler:
    the job's counters account for the rows written, the status follows from them, the
    fetch budget is respected, and the store stays free of duplicate quotes. */
module CrawlProperties {
  import opened Wrappers
  import opened Jobs
  import opened Crawler

  // ---------------------------------------------------------------------------
  // Accounting

  /** The counters of `s` (flushed into the row plus still pending in the locals) count
      the pages fetched and the rows written since the crawl started on `t0` and `row0`. */
  predicate Accounts(t0: Tables, row0: JobRow, s: CrawlState) {
    && t0.quotes <= s.tables.quotes && t0.errors <= s.tables.errors
    && s.row.fetched + s.fetched == row0.fetched + |s.pages|
    && s.row.saved + s.saved == row0.saved + |s.tables.quotes| - |t0.quotes|
    && s.row.errors + s.errors == row0.errors + |s.tables.errors| - |t0.errors|
    && s.row.status == Running && s.row.started && s.row.finished == row0.finished
    && s.pages <= s.requested && |s.requested| <= |s.pages| + 1
  }

  /** Between two pages nothing is pending: every fetched page has been flushed. */
  predicate Quiet(s: CrawlState) {
    s.fetched == 0 && s.saved == 0 && s.errors == 0 && s.pages == s.requested
  }

  lemma PageStepAccounts(site: Site, web: Web, key: KeyFn, urljoin: (string, string) -> string,
                         t0: Tables, row0: JobRow, s: CrawlState)
    requires Truthy(s.next) && Accounts(t0, row0, s) && Quiet(s)
    ensures var o := PageStep(site, web, key, urljoin, s);
      && Accounts(t0, row0, o.state)
      && |o.state.requested| == |s.requested| + 1 && s.requested <= o.state.requested
      && (o.Continue? ==> Quiet(o.state))
      && (o.Fatal? ==> o.state.saved == 0 && o.state.errors == 0 && o.state.pages == o.state.requested)
  {
  }

  /** The page loop keeps the accounting, issues at most one GET per iteration, and
      leaves nothing pending but the fetch of a page whose parsing raised. */
  lemma {:induction false} RunPagesAccounts(site: Site, web: Web, key: KeyFn, urljoin: (string, string) -> string,
                                            t0: Tables, row0: JobRow, s: CrawlState, k: nat)
    requires Accounts(t0, row0, s) && Quiet(s)
    ensures var e := LoopExit(site, web, key, urljoin, s, k);
      && Accounts(t0, row0, e.state)
      && s.requested <= e.state.requested && |e.state.requested| <= |s.requested| + k
      && (e.Raised? ==> e.state.saved == 0 && e.state.errors == 0 && e.state.pages == e.state.requested)
    decreases k
  {
    if k > 0 && Truthy(s.next) {
      PageStepAccounts(site, web, key, urljoin, t0, row0, s);
      var o := PageStep(site, web, key, urljoin, s);
      if o.Continue? {
        RunPagesAccounts(site, web, key, urljoin, t0, row0, o.state, k - 1);
      }
    }
  }

  /** A crawl's job row: it was started and finished, its counters grew by the pages
      fetched and the quote and error rows written, its status is FAILED when the crawl
      raised and otherwise follows from the stored counters; at most `max_pages` GETs were
      issued, and a raised error is the last error row. */
  lemma CrawlAccounting(site: Site, web: Web, key: KeyFn, urljoin: (string, string) -> string,
                        t: Tables, row: JobRow)
    ensures var r := Crawl(site, web, key, urljoin, t, row);
      && t.quotes <= r.tables.quotes && t.errors <= r.tables.errors
      && r.row.fetched == row.fetched + |r.pages|
      && r.row.saved == row.saved + (|r.tables.quotes| - |t.quotes|)
      && r.row.errors == row.errors + (|r.tables.errors| - |t.errors|)
      && r.row.started && r.row.finished
      && r.row.status == (if r.raised.Some? then Failed else FinishedStatus(true, r.row.saved, r.row.errors))
      && |r.requested| <= site.maxPages
      && r.pages <= r.requested && |r.requested| <= |r.pages| + 1
      && (r.raised.Some? ==>
            r.pages == r.requested && r.tables.errors[|r.tables.errors| - 1] == ErrorRow(None, "fatal", r.raised.value))
  {
    var s0 := InitialState(site, urljoin, t, row);
    RunPagesAccounts(site, web, key, urljoin, t, row, s0, site.maxPages);
  }

  // ---------------------------------------------------------------------------
  // Idempotent storage

  /** The keys of the candidates a crawl from `next` with `k` pages left visits and does
      not fail on. It depends on the web alone, not on what is stored. */
  function VisitKeys(site: Site, web: Web, key: KeyFn, urljoin: (string, string) -> string,
                     next: Option<string>, k: nat): set<string>
  {
    KeysAlong(site, web, key, urljoin, next, k)
  }

  function KeysAlong(site: Site, web: Web, key: KeyFn, urljoin: (string, string) -> string,
                     next: Option<string>, k: nat): set<string>
    decreases k
  {
    if k == 0 || !Truthy(next) then {}
    else
      match FetchUrl(web, next.value)
      case Unreachable(_) => {}
      case Served(page) =>
        if page.parseFailure.Some? then {}
        else
          PageKeysFrom(site, page, 0, key)
            + (if page.linkFailure.Some? then {} else KeysAlong(site, web, key, urljoin, NextUrl(site, page, urljoin), k - 1))
  }

  lemma PageStepKeys(site: Site, web: Web, key: KeyFn, urljoin: (string, string) -> string, s: CrawlState)
    requires Truthy(s.next)
    ensures HashSet(PageStep(site, web, key, urljoin, s).state.tables.quotes)
         == HashSet(s.tables.quotes) + VisitKeys(site, web, key, urljoin, s.next, 1)
  {
    match FetchUrl(web, s.next.value)
    case Unreachable(_) =>
    case Served(page) =>
      if page.parseFailure.None? {
        var s1 := s.(fetched := s.fetched + 1, requested := s.requested + [s.next.value], pages := s.pages + [s.next.value]);
        ProcessFromStore(site, page, s.next.value, key, PageAcc(s1.tables, s1.saved, s1.errors), 0);
      }
  }

  lemma PageStepValid(site: Site, web: Web, key: KeyFn, urljoin: (string, string) -> string, s: CrawlState)
    requires Truthy(s.next) && ValidTables(s.tables)
    ensures ValidTables(PageStep(site, web, key, urljoin, s).state.tables)
  {
    match FetchUrl(web, s.next.value)
    case Unreachable(_) =>
    case Served(page) =>
      if page.parseFailure.None? {
        var s1 := s.(fetched := s.fetched + 1, requested := s.requested + [s.next.value], pages := s.pages + [s.next.value]);
        ProcessFromStore(site, page, s.next.value, key, PageAcc(s1.tables, s1.saved, s1.errors), 0);
      }
  }

  /** A page loop with budget left visits the keys of its first page, and those of the
      rest of the loop when the first step continues. */
  lemma VisitKeysStep(site: Site, web: Web, key: KeyFn, urljoin: (string, string) -> string, s: CrawlState, k: nat)
    requires Truthy(s.next) && k > 0
    ensures var o := PageStep(site, web, key, urljoin, s);
      VisitKeys(site, web, key, urljoin, s.next, k)
        == VisitKeys(site, web, key, urljoin, s.next, 1)
           + (if o.Continue? then VisitKeys(site, web, key, urljoin, o.state.next, k - 1) else {})
  {
  }

  lemma RunPagesEnd(site: Site, web: Web, key: KeyFn, urljoin: (string, string) -> string, s: CrawlState, k: nat)
    requires k == 0 || !Truthy(s.next)
    ensures LoopExit(site, web, key, urljoin, s, k) == Completed(s)
    ensures VisitKeys(site, web, key, urljoin, s.next, k) == {}
  {
  }

  lemma RunPagesLast(site: Site, web: Web, key: KeyFn, urljoin: (string, string) -> string, s: CrawlState, k: nat)
    requires Truthy(s.next) && k > 0 && !PageStep(site, web, key, urljoin, s).Continue?
    ensures LoopExit(site, web, key, urljoin, s, k).state == PageStep(site, web, key, urljoin, s).state
  {
  }

  lemma RunPagesNext(site: Site, web: Web, key: KeyFn, urljoin: (string, string) -> string, s: CrawlState, k: nat)
    requires Truthy(s.next) && k > 0 && PageStep(site, web, key, urljoin, s).Continue?
    ensures LoopExit(site, web, key, urljoin, s, k)
         == LoopExit(site, web, key, urljoin, PageStep(site, web, key, urljoin, s).state, k - 1)
  {
  }

  lemma UnionChain(a: set<string>, b: set<string>, c: set<string>, x: set<string>, y: set<string>)
    requires b == a + x && c == b + y
    ensures c == a + (x + y)
  {
  }

  /** The visited keys of a loop whose first step continues, from those of the rest. */
  lemma {:induction false} KeysAfterContinue(site: Site, web: Web, key: KeyFn, urljoin: (string, string) -> string,
                                             s: CrawlState, k: nat)
    requires Truthy(s.next) && k > 0 && PageStep(site, web, key, urljoin, s).Continue?
    ensures HashSet(LoopExit(site, web, key, urljoin, s, k).state.tables.quotes)
         == HashSet(s.tables.quotes) + VisitKeys(site, web, key, urljoin, s.next, k)
    decreases k, 1
  {
    var s' := PageStep(site, web, key, urljoin, s).state;
    PageStepKeys(site, web, key, urljoin, s);
    KeysRest(site, web, key, urljoin, s, s', k);
    VisitKeysStep(site, web, key, urljoin, s, k);
    RunPagesNext(site, web, key, urljoin, s, k);
  }

  /** The keys stored by the rest of the loop after a page that stored the keys of the
      pending URL's page. */
  lemma {:induction false} KeysRest(site: Site, web: Web, key: KeyFn, urljoin: (string, string) -> string,
                                    s: CrawlState, s': CrawlState, k: nat)
    requires k > 0
    requires HashSet(s'.tables.quotes) == HashSet(s.tables.quotes) + VisitKeys(site, web, key, urljoin, s.next, 1)
    ensures HashSet(LoopExit(site, web, key, urljoin, s', k - 1).state.tables.quotes)
         == HashSet(s.tables.quotes)
            + (VisitKeys(site, web, key, urljoin, s.next, 1) + VisitKeys(site, web, key, urljoin, s'.next, k - 1))
    decreases k, 0
  {
    RunPagesKeys(site, web, key, urljoin, s', k - 1);
    UnionChain(HashSet(s.tables.quotes), HashSet(s'.tables.quotes),
               HashSet(LoopExit(site, web, key, urljoin, s', k - 1).state.tables.quotes),
               VisitKeys(site, web, key, urljoin, s.next, 1), VisitKeys(site, web, key, urljoin, s'.next, k - 1));
  }

  /** The visited keys of a loop whose first step is its last. */
  lemma KeysAfterLast(site: Site, web: Web, key: KeyFn, urljoin: (string, string) -> string,
                      s: CrawlState, k: nat)
    requires Truthy(s.next) && k > 0 && !PageStep(site, web, key, urljoin, s).Continue?
    ensures HashSet(LoopExit(site, web, key, urljoin, s, k).state.tables.quotes)
         == HashSet(s.tables.quotes) + VisitKeys(site, web, key, urljoin, s.next, k)
  {
    PageStepKeys(site, web, key, urljoin, s);
    VisitKeysStep(site, web, key, urljoin, s, k);
    RunPagesLast(site, web, key, urljoin, s, k);
  }

  /** The page loop stores exactly the visited keys. */
  lemma {:induction false} RunPagesKeys(site: Site, web: Web, key: KeyFn, urljoin: (string, string) -> string,
                                        s: CrawlState, k: nat)
    ensures HashSet(LoopExit(site, web, key, urljoin, s, k).state.tables.quotes)
         == HashSet(s.tables.quotes) + VisitKeys(site, web, key, urljoin, s.next, k)
    decreases k, 2
  {
    if k == 0 || !Truthy(s.next) {
      RunPagesEnd(site, web, key, urljoin, s, k);
    } else if PageStep(site, web, key, urljoin, s).Continue? {
      KeysAfterContinue(site, web, key, urljoin, s, k);
    } else {
      KeysAfterLast(site, web, key, urljoin, s, k);
    }
  }

  /** The page loop keeps the unique constraints. */
  lemma {:induction false} RunPagesValid(site: Site, web: Web, key: KeyFn, urljoin: (string, string) -> string,
                                         s: CrawlState, k: nat)
    requires ValidTables(s.tables)
    ensures ValidTables(LoopExit(site, web, key, urljoin, s, k).state.tables)
    decreases k
  {
    if k == 0 || !Truthy(s.next) {
      RunPagesEnd(site, web, key, urljoin, s, k);
    } else {
      PageStepValid(site, web, key, urljoin, s);
      var o := PageStep(site, web, key, urljoin, s);
      if o.Continue? {
        RunPagesNext(site, web, key, urljoin, s, k);
        RunPagesValid(site, web, key, urljoin, o.state, k - 1);
      } else {
        RunPagesLast(site, web, key, urljoin, s, k);
      }
    }
  }

  /** A crawl stores exactly the keys of the quotes it visits, on top of those already
      stored, and never breaks the unique constraints. */
  lemma CrawlKeys(site: Site, web: Web, key: KeyFn, urljoin: (string, string) -> string, t: Tables, row: JobRow)
    ensures var r := Crawl(site, web, key, urljoin, t, row);
      && HashSet(r.tables.quotes) == HashSet(t.quotes) + VisitKeys(site, web, key, urljoin, Some(StartUrl(site, urljoin)), site.maxPages)
      && (ValidTables(t) ==> ValidTables(r.tables))
  {
    RunPagesKeys(site, web, key, urljoin, InitialState(site, urljoin, t, row), site.maxPages);
    if ValidTables(t) {
      RunPagesValid(site, web, key, urljoin, InitialState(site, urljoin, t, row), site.maxPages);
    }
  }

  /** Without duplicate hashes, there are as many stored keys as quotes. */
  lemma {:induction false} UniqueHashesCount(quotes: seq<QuoteRow>)
    requires UniqueHashes(quotes)
    ensures |HashSet(quotes)| == |quotes|
    decreases |quotes|
  {
    if quotes != [] {
      var init, last := quotes[..|quotes| - 1], quotes[|quotes| - 1];
      assert quotes == init + [last];
      HashSetAppend(init, last);
      UniqueHashesCount(init);
      assert last.hash !in HashSet(init) by {
        forall i | 0 <= i < |init| ensures init[i].hash != last.hash {
          assert init[i] == quotes[i];
        }
      }
    }
  }

  lemma GrowthCount(a: set<string>, v: set<string>, b: set<string>)
    requires b == a + v
    ensures |b| - |a| == |v - a|
  {
    assert b == a + (v - a);
  }

  /** quotes_saved counts exactly the visited keys that were not stored before. */
  lemma CrawlSavesNewKeys(site: Site, web: Web, key: KeyFn, urljoin: (string, string) -> string, t: Tables, row: JobRow)
    requires ValidTables(t)
    ensures var r := Crawl(site, web, key, urljoin, t, row);
      r.row.saved - row.saved
        == |VisitKeys(site, web, key, urljoin, Some(StartUrl(site, urljoin)), site.maxPages) - HashSet(t.quotes)|
  {
    var r := Crawl(site, web, key, urljoin, t, row);
    var v := VisitKeys(site, web, key, urljoin, Some(StartUrl(site, urljoin)), site.maxPages);
    CrawlAccounting(site, web, key, urljoin, t, row);
    CrawlKeys(site, web, key, urljoin, t, row);
    UniqueHashesCount(t.quotes);
    UniqueHashesCount(r.tables.quotes);
    GrowthCount(HashSet(t.quotes), v, HashSet(r.tables.quotes));
  }

  /** Running the same crawl again on what the first run stored adds no quote and saves
      nothing. */
  lemma CrawlTwiceAddsNothing(site: Site, web: Web, key: KeyFn, urljoin: (string, string) -> string,
                              t: Tables, row: JobRow, row2: JobRow)
    requires ValidTables(t)
    ensures var r1 := Crawl(site, web, key, urljoin, t, row);
      var r2 := Crawl(site, web, key, urljoin, r1.tables, row2);
      r2.tables.quotes == r1.tables.quotes && r2.row.saved == row2.saved
  {
    var r1 := Crawl(site, web, key, urljoin, t, row);
    CrawlKeys(site, web, key, urljoin, t, row);
    CrawlSavesNewKeys(site, web, key, urljoin, r1.tables, row2);
    CrawlAccounting(site, web, key, urljoin, r1.tables, row2);
  }

  // ---------------------------------------------------------------------------
  // The URL chain

  /** `url` serves a page that neither fails to parse nor fails in the link search. */
  predicate Clean(web: Web, url: string) {
    url in web && web[url].Served? && web[url].page.parseFailure.None? && web[url].page.linkFailure.None?
  }

  /** `url` is a clean page whose next link resolves to `next`. */
  predicate LinksTo(site: Site, web: Web, urljoin: (string, string) -> string, url: string, next: string) {
    Clean(web, url) && NextUrl(site, web[url].page, urljoin) == Some(next)
  }

  predicate LinkAt(site: Site, web: Web, urljoin: (string, string) -> string, urls: seq<string>, j: nat)
    requires j + 1 < |urls|
  {
    LinksTo(site, web, urljoin, urls[j], urls[j + 1])
  }

  /** Each URL of `urls` after the first is the next link of the page before it. */
  predicate Chained(site: Site, web: Web, urljoin: (string, string) -> string, urls: seq<string>) {
    forall j: nat :: j + 1 < |urls| ==> LinkAt(site, web, urljoin, urls, j)
  }

  /** Where the loop stands between two pages: nothing requested yet and the start URL
      pending, or the last requested URL a clean page whose next link is pending. */
  predicate Pending(site: Site, web: Web, urljoin: (string, string) -> string, s: CrawlState) {
    && (s.requested == [] ==> s.next == Some(StartUrl(site, urljoin)))
    && (s.requested != [] ==>
          var last := s.requested[|s.requested| - 1];
          Clean(web, last) && s.next == NextUrl(site, web[last].page, urljoin))
  }

  lemma ChainExtend(site: Site, web: Web, urljoin: (string, string) -> string, urls: seq<string>, url: string)
    requires Chained(site, web, urljoin, urls)
    requires urls != [] ==> LinksTo(site, web, urljoin, urls[|urls| - 1], url)
    ensures Chained(site, web, urljoin, urls + [url])
  {
    var u := urls + [url];
    forall j: nat | j + 1 < |u| ensures LinkAt(site, web, urljoin, u, j) {
      if j + 1 < |urls| {
        assert LinkAt(site, web, urljoin, urls, j);
      }
    }
  }

  lemma PageStepChain(site: Site, web: Web, key: KeyFn, urljoin: (string, string) -> string, s: CrawlState)
    requires Truthy(s.next) && Pending(site, web, urljoin, s) && Chained(site, web, urljoin, s.requested)
    ensures var o := PageStep(site, web, key, urljoin, s);
      && o.state.requested == s.requested + [s.next.value]
      && Chained(site, web, urljoin, o.state.requested)
      && (o.Continue? ==> Pending(site, web, urljoin, o.state))
      && (o.Stop? ==> !Clean(web, s.next.value))
  {
    ChainExtend(site, web, urljoin, s.requested, s.next.value);
  }

  /** What the page loop from `s` with budget `k` ending in `e` did with its requests:
      it only extended them, along next links; it issued a GET for the pending URL if it
      could; and when it
      stopped early on a clean page, that page had no next link. */
  predicate ChainFacts(site: Site, web: Web, urljoin: (string, string) -> string, s: CrawlState, k: nat, e: Exit) {
    var r := e.state.requested;
    && s.requested <= r && Chained(site, web, urljoin, r)
    && (k > 0 && Truthy(s.next) ==> |r| > |s.requested| && r[|s.requested|] == s.next.value)
    && (e.Completed? && r != [] && |r| < |s.requested| + k && Clean(web, r[|r| - 1]) ==>
          !Truthy(NextUrl(site, web[r[|r| - 1]].page, urljoin)))
  }

  lemma {:induction false} ChainAfterContinue(site: Site, web: Web, key: KeyFn, urljoin: (string, string) -> string,
                           s: CrawlState, k: nat)
    requires Truthy(s.next) && k > 0 && PageStep(site, web, key, urljoin, s).Continue?
    requires Pending(site, web, urljoin, s) && Chained(site, web, urljoin, s.requested)
    ensures ChainFacts(site, web, urljoin, s, k, LoopExit(site, web, key, urljoin, s, k))
    decreases k, 1
  {
    var s' := PageStep(site, web, key, urljoin, s).state;
    PageStepChain(site, web, key, urljoin, s);
    ChainRest(site, web, key, urljoin, s, s', k);
    RunPagesNext(site, web, key, urljoin, s, k);
  }

  /** The chain facts of the loop after a page that requested the pending URL and left
      the loop pending again, for the rest of the loop. */
  lemma {:induction false} ChainRest(site: Site, web: Web, key: KeyFn, urljoin: (string, string) -> string,
                                     s: CrawlState, s': CrawlState, k: nat)
    requires Truthy(s.next) && k > 0 && s'.requested == s.requested + [s.next.value]
    requires Pending(site, web, urljoin, s') && Chained(site, web, urljoin, s'.requested)
    ensures ChainFacts(site, web, urljoin, s, k, LoopExit(site, web, key, urljoin, s', k - 1))
    decreases k, 0
  {
    RunPagesChain(site, web, key, urljoin, s', k - 1);
    ChainFactsBack(site, web, urljoin, s, s', k, LoopExit(site, web, key, urljoin, s', k - 1));
  }

  /** The chain facts of the rest of the loop carry back over one page that requested
      the pending URL. */
  lemma ChainFactsBack(site: Site, web: Web, urljoin: (string, string) -> string,
                       s: CrawlState, s': CrawlState, k: nat, e: Exit)
    requires Truthy(s.next) && k > 0 && s'.requested == s.requested + [s.next.value]
    requires ChainFacts(site, web, urljoin, s', k - 1, e)
    ensures ChainFacts(site, web, urljoin, s, k, e)
  {
  }

  lemma ChainAfterLast(site: Site, web: Web, key: KeyFn, urljoin: (string, string) -> string,
                       s: CrawlState, k: nat)
    requires Truthy(s.next) && k > 0 && !PageStep(site, web, key, urljoin, s).Continue?
    requires Pending(site, web, urljoin, s) && Chained(site, web, urljoin, s.requested)
    ensures ChainFacts(site, web, urljoin, s, k, LoopExit(site, web, key, urljoin, s, k))
  {
    PageStepChain(site, web, key, urljoin, s);
    RunPagesLast(site, web, key, urljoin, s, k);
  }

  lemma ChainAtEnd(site: Site, web: Web, key: KeyFn, urljoin: (string, string) -> string,
                   s: CrawlState, k: nat)
    requires k == 0 || !Truthy(s.next)
    requires Pending(site, web, urljoin, s) && Chained(site, web, urljoin, s.requested)
    ensures ChainFacts(site, web, urljoin, s, k, LoopExit(site, web, key, urljoin, s, k))
  {
    RunPagesEnd(site, web, key, urljoin, s, k);
  }

  /** The page loop requests a chain of next links and, when it stops early on a clean
      page, does so because that page has no next link. */
  lemma {:induction false} RunPagesChain(site: Site, web: Web, key: KeyFn, urljoin: (string, string) -> string,
                                         s: CrawlState, k: nat)
    requires Pending(site, web, urljoin, s) && Chained(site, web, urljoin, s.requested)
    ensures ChainFacts(site, web, urljoin, s, k, LoopExit(site, web, key, urljoin, s, k))
    decreases k, 2
  {
    if k == 0 || !Truthy(s.next) {
      ChainAtEnd(site, web, key, urljoin, s, k);
    } else if PageStep(site, web, key, urljoin, s).Continue? {
      ChainAfterContinue(site, web, key, urljoin, s, k);
    } else {
      ChainAfterLast(site, web, key, urljoin, s, k);
    }
  }

  /** A crawl requests the start URL first, then each page's next link in turn; it
      requests nothing only when `max_pages` is 0 or the start URL is empty, and when it
      ends on a clean page before using its budget, that page has no next link. */
  lemma CrawlFollowsLinks(site: Site, web: Web, key: KeyFn, urljoin: (string, string) -> string,
                          t: Tables, row: JobRow)
    ensures var r := Crawl(site, web, key, urljoin, t, row);
      && (r.requested == [] <==> site.maxPages == 0 || StartUrl(site, urljoin) == "")
      && (r.requested != [] ==> r.requested[0] == StartUrl(site, urljoin))
      && Chained(site, web, urljoin, r.requested)
      && (r.raised.None? && r.requested != [] && |r.requested| < site.maxPages
            && Clean(web, r.requested[|r.requested| - 1]) ==>
            !Truthy(NextUrl(site, web[r.requested[|r.requested| - 1]].page, urljoin)))
  {
    var s0 := InitialState(site, urljoin, t, row);
    RunPagesChain(site, web, key, urljoin, s0, site.maxPages);
    if site.maxPages == 0 || StartUrl(site, urljoin) == "" {
      RunPagesEnd(site, web, key, urljoin, s0, site.maxPages);
    }
  }

  // ---------------------------------------------------------------------------
  // The network-error break

  /** A page stops the loop exactly when its GET fails, and then records one "network"
      error for it and counts it, and changes nothing else but the requested URLs. */
  lemma PageStepBreak(site: Site, web: Web, key: KeyFn, urljoin: (string, string) -> string, s: CrawlState)
    requires Truthy(s.next)
    ensures var o := PageStep(site, web, key, urljoin, s);
      var f := FetchUrl(web, s.next.value);
      && (o.Stop? <==> f.Unreachable?)
      && (o.Stop? ==>
            o.state == s.(tables := s.tables.(errors := s.tables.errors + [ErrorRow(Some(s.next.value), "network", f.reason)]),
                          errors := s.errors + 1, requested := s.requested + [s.next.value]))
  {
  }

  /** Whether the loop from `s` ending in `e` ended on a failed GET, and if so that it
      ended there, recording its "network" error last. */
  predicate BreakFacts(web: Web, s: CrawlState, e: Exit) {
    var r := e.state.requested;
    && s.requested <= r
    && (|r| > |s.requested| && FetchUrl(web, r[|r| - 1]).Unreachable? ==>
          && e.Completed? && e.state.tables.errors != []
          && e.state.tables.errors[|e.state.tables.errors| - 1]
             == ErrorRow(Some(r[|r| - 1]), "network", FetchUrl(web, r[|r| - 1]).reason))
  }

  lemma BreakFactsBack(web: Web, s: CrawlState, s': CrawlState, e: Exit)
    requires Truthy(s.next) && FetchUrl(web, s.next.value).Served?
    requires s'.requested == s.requested + [s.next.value]
    requires BreakFacts(web, s', e)
    ensures BreakFacts(web, s, e)
  {
    var r := e.state.requested;
    if |r| == |s'.requested| {
      assert r == s'.requested;
    }
  }

  lemma {:induction false} BreakAfterContinue(site: Site, web: Web, key: KeyFn, urljoin: (string, string) -> string,
                                              s: CrawlState, k: nat)
    requires Truthy(s.next) && k > 0 && PageStep(site, web, key, urljoin, s).Continue?
    ensures BreakFacts(web, s, LoopExit(site, web, key, urljoin, s, k))
    decreases k, 1
  {
    var s' := PageStep(site, web, key, urljoin, s).state;
    PageStepBreak(site, web, key, urljoin, s);
    BreakRest(site, web, key, urljoin, s, s', k);
    RunPagesNext(site, web, key, urljoin, s, k);
  }

  lemma {:induction false} BreakRest(site: Site, web: Web, key: KeyFn, urljoin: (string, string) -> string,
                                     s: CrawlState, s': CrawlState, k: nat)
    requires Truthy(s.next) && k > 0 && FetchUrl(web, s.next.value).Served?
    requires s'.requested == s.requested + [s.next.value]
    ensures BreakFacts(web, s, LoopExit(site, web, key, urljoin, s', k - 1))
    decreases k, 0
  {
    RunPagesBreak(site, web, key, urljoin, s', k - 1);
    BreakFactsBack(web, s, s', LoopExit(site, web, key, urljoin, s', k - 1));
  }

  lemma BreakAfterLast(site: Site, web: Web, key: KeyFn, urljoin: (string, string) -> string,
                       s: CrawlState, k: nat)
    requires Truthy(s.next) && k > 0 && !PageStep(site, web, key, urljoin, s).Continue?
    ensures BreakFacts(web, s, LoopExit(site, web, key, urljoin, s, k))
  {
    PageStepBreak(site, web, key, urljoin, s);
    RunPagesStep(site, web, key, urljoin, s, k, PageStep(site, web, key, urljoin, s));
  }

  /** A failed GET is the loop's last request, and its "network" error its last error row. */
  lemma {:induction false} RunPagesBreak(site: Site, web: Web, key: KeyFn, urljoin: (string, string) -> string,
                                         s: CrawlState, k: nat)
    ensures BreakFacts(web, s, LoopExit(site, web, key, urljoin, s, k))
    decreases k, 2
  {
    if k == 0 || !Truthy(s.next) {
      RunPagesEnd(site, web, key, urljoin, s, k);
    } else if PageStep(site, web, key, urljoin, s).Continue? {
      BreakAfterContinue(site, web, key, urljoin, s, k);
    } else {
      BreakAfterLast(site, web, key, urljoin, s, k);
    }
  }

  /** When the last URL a crawl requested could not be fetched, the crawl ended there
      without raising, and the last error row is that URL's "network" error. */
  lemma CrawlNetworkBreak(site: Site, web: Web, key: KeyFn, urljoin: (string, string) -> string,
                          t: Tables, row: JobRow)
    ensures var r := Crawl(site, web, key, urljoin, t, row);
      r.requested != [] && FetchUrl(web, r.requested[|r.requested| - 1]).Unreachable? ==>
        var last := r.requested[|r.requested| - 1];
        && r.raised.None? && r.tables.errors != []
        && r.tables.errors[|r.tables.errors| - 1] == ErrorRow(Some(last), "network", FetchUrl(web, last).reason)
  {
    RunPagesBreak(site, web, key, urljoin, InitialState(site, urljoin, t, row), site.maxPages);
  }

  // ---------------------------------------------------------------------------
  // The crawl as written

  /** As written, a crawl ends exactly as the corrected one, except for the status:
      mark_finished derives it from the counters of the loaded job row. */
  lemma AsWrittenOnlyStatusDiffers(site: Site, web: Web, key: KeyFn, urljoin: (string, string) -> string,
                                   t: Tables, row: JobRow)
    ensures var r := Crawl(site, web, key, urljoin, t, row);
      var w := CrawlAsWritten(site, web, key, urljoin, t, row);
      && w.tables == r.tables && w.requested == r.requested && w.pages == r.pages && w.raised == r.raised
      && w.row == r.row.(status := FinishedStatus(r.raised.None?, row.saved, row.errors))
  {
  }

  /** As written, a job that had saved nothing before the crawl ends FAILED, whatever the
      crawl saved. */
  lemma AsWrittenFreshJobFails(site: Site, web: Web, key: KeyFn, urljoin: (string, string) -> string,
                               t: Tables, row: JobRow)
    requires row.saved <= 0
    ensures var w := CrawlAsWritten(site, web, key, urljoin, t, row);
      && w.row.status == Failed && w.row.finished
      && w.row.saved == row.saved + (|w.tables.quotes| - |t.quotes|)
  {
    CrawlAccounting(site, web, key, urljoin, t, row);
    AsWrittenOnlyStatusDiffers(site, web, key, urljoin, t, row);
  }
}
