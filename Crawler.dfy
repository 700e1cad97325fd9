/** The crawl of tasks.py (`scrape_site`): a bounded page loop over an abstract web,
    candidate extraction from selector results, idempotent storage keyed by the quote
    hash, per-page counter flushes and the fatal-error path.

    HTML parsing and CSS selection are not modelled: a page is given as the results
    of the site's selectors. URL resolution (`urljoin`) and the digest are function
    parameters. */
module Crawler {
  import opened Wrappers
  import opened Hashing
  import opened Jobs

  // ---------------------------------------------------------------------------
  // The web, as the crawler sees it

  /** An `<a>`-like element: its `href` and `data-href` attributes and its `.string`. */
  datatype Link = Link(href: Option<string>, dataHref: Option<string>, text: Option<string>)

  /** One match of the quote selector: its visible text, the text of the first match of
      the author selector inside it, and the message of the exception that extracting or
      storing this candidate raises, if it raises. */
  datatype QuoteNode = QuoteNode(text: string, innerAuthor: Option<string>, failure: Option<string>)

  /** A fetched page, as the results of the site's selectors on it.
      `paginationMatch` is the first match of the pagination selector, `relNext` the first
      `a[rel=next]`, `anchors` every `<a>` in document order. `parseFailure` is the message
      of an exception raised while parsing the page or applying the quote and author
      selectors; `linkFailure` one raised while looking for the next link. */
  datatype Page = Page(quoteNodes: seq<QuoteNode>, authorNodes: seq<string>,
                       paginationMatch: Option<Link>, relNext: Option<Link>, anchors: seq<Link>,
                       parseFailure: Option<string>, linkFailure: Option<string>)

  /** The outcome of one GET: a page, or a failure (connection error, error status,
      timeout) with its message. */
  datatype Fetch = Served(page: Page) | Unreachable(reason: string)

  type Web = map<string, Fetch>

  /** The ScrapeSite fields the crawl reads. An empty selector means "not configured". */
  datatype Site = Site(baseUrl: string, startPath: string, authorSelector: string,
                       paginationSelector: string, maxPages: nat)

  /** A GET of `url`; a URL the web does not know fails with an empty message. */
  function FetchUrl(web: Web, url: string): (f: Fetch)
    ensures url !in web ==> f.Unreachable?
    ensures url in web ==> f == web[url]
  {
    if url in web then web[url] else Unreachable("")
  }

  /** `urljoin(site.base_url, site.start_path or "/")`. */
  function StartUrl(site: Site, urljoin: (string, string) -> string): string {
    urljoin(site.baseUrl, if site.startPath == "" then "/" else site.startPath)
  }

  // ---------------------------------------------------------------------------
  // Extraction

  /** The author name for quote `i`: the `i`-th author match when there is one, else the
      author match inside the quote node, else none; nothing without an author selector. */
  function ResolveAuthor(site: Site, page: Page, i: nat): (name: Option<string>)
    requires i < |page.quoteNodes|
    ensures site.authorSelector == "" ==> name == None
    ensures site.authorSelector != "" && i < |page.authorNodes| ==> name == Some(page.authorNodes[i])
    ensures site.authorSelector != "" && i >= |page.authorNodes| ==> name == page.quoteNodes[i].innerAuthor
  {
    if site.authorSelector == "" then None
    else if |page.authorNodes| > 0 && i < |page.authorNodes| then Some(page.authorNodes[i])
    else page.quoteNodes[i].innerAuthor
  }

  /** The `.string` test of the fallback next-link search. */
  predicate IsNextLabel(text: Option<string>) {
    Truthy(text) && Strip(Lower(text.value)) in {"next", "\U{203A}", "\U{BB}"}
  }

  /** The position of the first anchor from `i` on labelled "next", "›" or "»", or
      `|anchors|` when there is none. */
  function FirstNextFrom(anchors: seq<Link>, i: nat): (k: nat)
    requires i <= |anchors|
    ensures i <= k <= |anchors|
    ensures k < |anchors| ==> IsNextLabel(anchors[k].text)
    ensures forall j :: i <= j < k ==> !IsNextLabel(anchors[j].text)
    decreases |anchors| - i
  {
    if i == |anchors| || IsNextLabel(anchors[i].text) then i
    else
      var k := FirstNextFrom(anchors, i + 1);
      assert forall j :: i <= j < k ==> !IsNextLabel(anchors[j].text) by {
        forall j | i <= j < k ensures !IsNextLabel(anchors[j].text) {
          if j > i {
            assert i + 1 <= j < k;
          }
        }
      }
      k
  }

  /** `soup.find("a", string=...)`: the first anchor labelled "next", "›" or "»". */
  function FirstNextLabelled(anchors: seq<Link>): (r: Option<Link>)
    ensures r.None? <==> forall i :: 0 <= i < |anchors| ==> !IsNextLabel(anchors[i].text)
    ensures r.Some? ==>
      exists i :: 0 <= i < |anchors| && anchors[i] == r.value && IsNextLabel(anchors[i].text)
        && forall j :: 0 <= j < i ==> !IsNextLabel(anchors[j].text)
  {
    var k := FirstNextFrom(anchors, 0);
    if k < |anchors| then Some(anchors[k]) else None
  }

  /** The next page: with a pagination selector, the first match's `href`, else its
      `data-href`; without one, the `href` of the first `a[rel=next]`, or, when there is no
      such anchor at all, of the first anchor labelled "next", "›" or "»". Every href is
      resolved against the site's base URL; an empty one means there is no next page. */
  function NextUrl(site: Site, page: Page, urljoin: (string, string) -> string): (next: Option<string>)
    ensures site.paginationSelector != "" ==>
      next == match page.paginationMatch
        case None => None
        case Some(l) =>
          if Truthy(l.href) then Some(urljoin(site.baseUrl, l.href.value))
          else if Truthy(l.dataHref) then Some(urljoin(site.baseUrl, l.dataHref.value))
          else None
    ensures site.paginationSelector == "" && page.relNext.Some? ==>
      next == if Truthy(page.relNext.value.href) then Some(urljoin(site.baseUrl, page.relNext.value.href.value)) else None
    ensures site.paginationSelector == "" && page.relNext.None? ==>
      var l := FirstNextLabelled(page.anchors);
      next == if l.Some? && Truthy(l.value.href) then Some(urljoin(site.baseUrl, l.value.href.value)) else None
  {
    if site.paginationSelector != "" then
      match page.paginationMatch
      case None => None
      case Some(l) =>
        var href := if Truthy(l.href) then l.href else l.dataHref;
        if Truthy(href) then Some(urljoin(site.baseUrl, href.value)) else None
    else
      var nxt := if page.relNext.Some? then page.relNext else FirstNextLabelled(page.anchors);
      if nxt.Some? && Truthy(nxt.value.href) then Some(urljoin(site.baseUrl, nxt.value.href.value))
      else None
  }

  // ---------------------------------------------------------------------------
  // The store

  /** A Quote row; `author` is the name of the linked Author, if any. The site and the
      saving job are the same for every row one crawl writes and are left implicit. */
  datatype QuoteRow = QuoteRow(text: string, author: Option<string>, sourceUrl: string, hash: string)

  /** A ScrapeError row of the crawled job. */
  datatype ErrorRow = ErrorRow(url: Option<string>, errorType: string, message: string)

  /** The Quote, Author (names) and ScrapeError tables. */
  datatype Tables = Tables(quotes: seq<QuoteRow>, authors: seq<string>, errors: seq<ErrorRow>)

  function HashSet(quotes: seq<QuoteRow>): set<string> {
    set i | 0 <= i < |quotes| :: quotes[i].hash
  }

  predicate UniqueHashes(quotes: seq<QuoteRow>) {
    forall i, j :: 0 <= i < j < |quotes| ==> quotes[i].hash != quotes[j].hash
  }

  predicate UniqueNames(authors: seq<string>) {
    forall i, j :: 0 <= i < j < |authors| ==> authors[i] != authors[j]
  }

  /** The unique constraints on Quote.hash and Author.name. */
  predicate ValidTables(t: Tables) {
    UniqueHashes(t.quotes) && UniqueNames(t.authors)
  }

  lemma HashSetAppend(quotes: seq<QuoteRow>, row: QuoteRow)
    ensures HashSet(quotes + [row]) == HashSet(quotes) + {row.hash}
  {
    var q := quotes + [row];
    assert q[|quotes|] == row;
    forall h | h in HashSet(quotes) ensures h in HashSet(q) {
      var i :| 0 <= i < |quotes| && quotes[i].hash == h;
      assert q[i] == quotes[i];
    }
  }

  /** `Author.objects.get_or_create(name=...)` on the author names. */
  function WithAuthor(authors: seq<string>, name: string): (r: seq<string>)
    ensures name in r && authors <= r && |r| <= |authors| + 1
    ensures name in authors ==> r == authors
    ensures UniqueNames(authors) ==> UniqueNames(r)
  {
    if name in authors then authors else authors + [name]
  }

  /** How the crawl keys a quote from its text and author name. The crawl is proved for
      every such function; scrape_site uses `QuoteKey(sha256)`. */
  type KeyFn = (string, Option<string>) -> string

  /** compute_quote_hash(text, author_name) with the digest fixed. */
  function QuoteKey(sha256: string -> string): (key: KeyFn)
    ensures forall text, author :: key(text, author) == ComputeQuoteHash(Some(text), author, sha256)
  {
    (text, author) => ComputeQuoteHash(Some(text), author, sha256)
  }

  /** The key of candidate `i` on a page. */
  function CandidateKey(site: Site, page: Page, i: nat, key: KeyFn): string
    requires i < |page.quoteNodes|
  {
    key(page.quoteNodes[i].text, ResolveAuthor(site, page, i))
  }

  datatype CandidateResult = CandidateResult(tables: Tables, saved: nat, errors: nat)

  /** The guarded body of the candidate loop for one quote node whose author is `author`:
      a failing candidate leaves one "parse" error and nothing else; otherwise the author
      is created if named and new, and the quote is created if its key is new. */
  function SaveCandidate(t: Tables, node: QuoteNode, author: Option<string>, url: string,
                         key: KeyFn): (r: CandidateResult)
    ensures r.errors == (if node.failure.Some? then 1 else 0)
    ensures node.failure.Some? ==>
      r.saved == 0 && r.tables.quotes == t.quotes && r.tables.authors == t.authors
      && r.tables.errors == t.errors + [ErrorRow(Some(url), "parse", node.failure.value)]
    ensures node.failure.None? ==> r.tables.errors == t.errors
    ensures t.errors <= r.tables.errors && |r.tables.errors| == |t.errors| + r.errors
    ensures node.failure.None? ==>
      (r.saved == 1 <==> key(node.text, author) !in HashSet(t.quotes))
    ensures t.quotes <= r.tables.quotes && |r.tables.quotes| == |t.quotes| + r.saved
    ensures r.saved <= 1
    ensures node.failure.None? && key(node.text, author) in HashSet(t.quotes) ==>
      r.saved == 0 && r.tables.quotes == t.quotes
    ensures r.saved == 1 ==>
      r.tables.quotes == t.quotes + [QuoteRow(node.text, if Truthy(author) then author else None, url, key(node.text, author))]
    ensures !Truthy(author) ==> r.tables.authors == t.authors
    ensures Truthy(author) && node.failure.None? ==> r.tables.authors == WithAuthor(t.authors, author.value)
  {
    match node.failure
    case Some(message) =>
      CandidateResult(t.(errors := t.errors + [ErrorRow(Some(url), "parse", message)]), 0, 1)
    case None =>
      var authors := if Truthy(author) then WithAuthor(t.authors, author.value) else t.authors;
      var h := key(node.text, author);
      if h in HashSet(t.quotes) then
        CandidateResult(t.(authors := authors), 0, 0)
      else
        CandidateResult(t.(authors := authors,
                           quotes := t.quotes + [QuoteRow(node.text, if Truthy(author) then author else None, url, h)]), 1, 0)
  }

  lemma AppendFreshKeepsUnique(quotes: seq<QuoteRow>, row: QuoteRow)
    requires UniqueHashes(quotes) && row.hash !in HashSet(quotes)
    ensures UniqueHashes(quotes + [row])
  {
    forall i | 0 <= i < |quotes| ensures quotes[i].hash != row.hash {
      assert quotes[i].hash in HashSet(quotes);
    }
  }

  /** A candidate adds its key to the stored keys (unless it fails) and keeps the unique
      constraints. */
  lemma SaveCandidateStore(t: Tables, node: QuoteNode, author: Option<string>, url: string,
                           key: KeyFn)
    ensures var r := SaveCandidate(t, node, author, url, key);
      HashSet(r.tables.quotes) == HashSet(t.quotes)
        + (if node.failure.None? then {key(node.text, author)} else {})
    ensures ValidTables(t) ==> ValidTables(SaveCandidate(t, node, author, url, key).tables)
  {
    var r := SaveCandidate(t, node, author, url, key);
    if node.failure.None? {
      var h := key(node.text, author);
      if h !in HashSet(t.quotes) {
        var row := r.tables.quotes[|t.quotes|];
        assert r.tables.quotes == t.quotes + [row];
        HashSetAppend(t.quotes, row);
        if UniqueHashes(t.quotes) {
          AppendFreshKeepsUnique(t.quotes, row);
        }
      }
    }
  }

  /** The keys of the candidates `i..` of a page that do not fail. */
  function PageKeysFrom(site: Site, page: Page, i: nat, key: KeyFn): set<string>
    requires i <= |page.quoteNodes|
  {
    set j | i <= j < |page.quoteNodes| && page.quoteNodes[j].failure.None? :: CandidateKey(site, page, j, key)
  }

  lemma PageKeysStep(site: Site, page: Page, i: nat, key: KeyFn)
    requires i < |page.quoteNodes|
    ensures PageKeysFrom(site, page, i, key) == PageKeysFrom(site, page, i + 1, key)
      + (if page.quoteNodes[i].failure.None? then {CandidateKey(site, page, i, key)} else {})
  {
  }

  /** The running page totals and the tables, inside the candidate loop. */
  datatype PageAcc = PageAcc(tables: Tables, saved: int, errors: int)

  /** The candidate loop from quote `i` on. */
  function ProcessFrom(site: Site, page: Page, url: string, key: KeyFn,
                       acc: PageAcc, i: nat): (r: PageAcc)
    requires i <= |page.quoteNodes|
    ensures acc.tables.quotes <= r.tables.quotes && acc.tables.errors <= r.tables.errors
    ensures r.saved - acc.saved == |r.tables.quotes| - |acc.tables.quotes|
    ensures r.errors - acc.errors == |r.tables.errors| - |acc.tables.errors|
    decreases |page.quoteNodes| - i
  {
    if i == |page.quoteNodes| then acc
    else
      var c := SaveCandidate(acc.tables, page.quoteNodes[i], ResolveAuthor(site, page, i), url, key);
      ProcessFrom(site, page, url, key, PageAcc(c.tables, acc.saved + c.saved, acc.errors + c.errors), i + 1)
  }

  /** The candidate loop stores exactly the keys of the candidates that do not fail, and
      keeps the unique constraints. */
  lemma {:induction false} ProcessFromStore(site: Site, page: Page, url: string, key: KeyFn,
                                            acc: PageAcc, i: nat)
    requires i <= |page.quoteNodes|
    ensures var r := ProcessFrom(site, page, url, key, acc, i);
      HashSet(r.tables.quotes) == HashSet(acc.tables.quotes) + PageKeysFrom(site, page, i, key)
      && (ValidTables(acc.tables) ==> ValidTables(r.tables))
    decreases |page.quoteNodes| - i
  {
    if i < |page.quoteNodes| {
      var node, author := page.quoteNodes[i], ResolveAuthor(site, page, i);
      var c := SaveCandidate(acc.tables, node, author, url, key);
      var next := PageAcc(c.tables, acc.saved + c.saved, acc.errors + c.errors);
      assert ProcessFrom(site, page, url, key, acc, i) == ProcessFrom(site, page, url, key, next, i + 1);
      SaveCandidateStore(acc.tables, node, author, url, key);
      PageKeysStep(site, page, i, key);
      ProcessFromStore(site, page, url, key, next, i + 1);
      var here: set<string> := if node.failure.None? then {CandidateKey(site, page, i, key)} else {};
      assert HashSet(c.tables.quotes) == HashSet(acc.tables.quotes) + here;
      assert PageKeysFrom(site, page, i, key) == PageKeysFrom(site, page, i + 1, key) + here;
    }
  }

  // ---------------------------------------------------------------------------
  // The page loop

  /** The locals of scrape_site between two pages, with the tables and the job row;
      `requested` lists every URL a GET was issued for, `pages` is `pages_scraped`. */
  datatype CrawlState = CrawlState(tables: Tables, row: JobRow, fetched: int, saved: int, errors: int,
                                   next: Option<string>, requested: seq<string>, pages: seq<string>)

  datatype PageOutcome = Continue(state: CrawlState) | Stop(state: CrawlState)
                       | Fatal(state: CrawlState, message: string)

  /** One iteration of the page loop for a pending `next_url`. */
  function PageStep(site: Site, web: Web, key: KeyFn, urljoin: (string, string) -> string,
                    s: CrawlState): PageOutcome
    requires Truthy(s.next)
  {
    var url := s.next.value;
    var requested := s.requested + [url];
    match FetchUrl(web, url)
    case Unreachable(reason) =>
      Stop(s.(tables := s.tables.(errors := s.tables.errors + [ErrorRow(Some(url), "network", reason)]),
              errors := s.errors + 1, requested := requested))
    case Served(page) =>
      var s1 := s.(fetched := s.fetched + 1, requested := requested, pages := s.pages + [url]);
      if page.parseFailure.Some? then Fatal(s1, page.parseFailure.value)
      else
        var acc := ProcessFrom(site, page, url, key, PageAcc(s1.tables, s1.saved, s1.errors), 0);
        var s2 := s1.(tables := acc.tables, row := Incremented(s1.row, s1.fetched, acc.saved, acc.errors),
                      fetched := 0, saved := 0, errors := 0, next := None);
        if page.linkFailure.Some? then Fatal(s2, page.linkFailure.value)
        else Continue(s2.(next := NextUrl(site, page, urljoin)))
  }

  datatype Exit = Completed(state: CrawlState) | Raised(state: CrawlState, message: string)

  /** At most `k` more iterations of the page loop. */
  function RunPages(site: Site, web: Web, key: KeyFn, urljoin: (string, string) -> string,
                    s: CrawlState, k: nat): Exit
    decreases k
  {
    if k == 0 || !Truthy(s.next) then Completed(s)
    else
      match PageStep(site, web, key, urljoin, s)
      case Continue(s') => RunPages(site, web, key, urljoin, s', k - 1)
      case Stop(s') => Completed(s')
      case Fatal(s', message) => Raised(s', message)
  }

  /** How the page loop from `s` with `k` iterations left ends. */
  function LoopExit(site: Site, web: Web, key: KeyFn, urljoin: (string, string) -> string,
                    s: CrawlState, k: nat): Exit
  {
    RunPages(site, web, key, urljoin, s, k)
  }

  /** The page loop ends at once when the budget is spent or no URL is pending. */
  lemma RunPagesDone(site: Site, web: Web, key: KeyFn, urljoin: (string, string) -> string, s: CrawlState, k: nat)
    requires k == 0 || !Truthy(s.next)
    ensures LoopExit(site, web, key, urljoin, s, k) == Completed(s)
  {
  }

  /** The page loop after one page with outcome `o`. */
  lemma RunPagesStep(site: Site, web: Web, key: KeyFn, urljoin: (string, string) -> string,
                     s: CrawlState, k: nat, o: PageOutcome)
    requires Truthy(s.next) && k > 0 && PageStep(site, web, key, urljoin, s) == o
    ensures LoopExit(site, web, key, urljoin, s, k)
         == match o
            case Continue(s') => LoopExit(site, web, key, urljoin, s', k - 1)
            case Stop(s') => Completed(s')
            case Fatal(s', message) => Raised(s', message)
  {
  }

  /** What a run of scrape_site leaves behind; `raised` is the re-raised fatal error. */
  datatype CrawlResult = CrawlResult(tables: Tables, row: JobRow, requested: seq<string>,
                                     pages: seq<string>, raised: Option<string>)

  /** The first state of the page loop, after mark_running. */
  function InitialState(site: Site, urljoin: (string, string) -> string, t: Tables, row: JobRow): CrawlState {
    CrawlState(t, Started(row), 0, 0, 0, Some(StartUrl(site, urljoin)), [], [])
  }

  /** scrape_site on tables `t` and job row `row`: mark the job running, run the page
      loop, then flush the residual deltas and finish with success, or, on a fatal
      error, record it, flush with one error and finish with failure. */
  function Crawl(site: Site, web: Web, key: KeyFn, urljoin: (string, string) -> string,
                 t: Tables, row: JobRow): CrawlResult
  {
    match LoopExit(site, web, key, urljoin, InitialState(site, urljoin, t, row), site.maxPages)
    case Completed(s) =>
      CrawlResult(s.tables, Finished(Incremented(s.row, s.fetched, s.saved, s.errors), true),
                  s.requested, s.pages, None)
    case Raised(s, message) =>
      CrawlResult(s.tables.(errors := s.tables.errors + [ErrorRow(None, "fatal", message)]),
                  Finished(Incremented(s.row, s.fetched, s.saved, 1), false),
                  s.requested, s.pages, Some(message))
  }

  /** scrape_site as written: the same crawl, except that mark_finished derives the status
      from the counters the job instance was loaded with (`row`'s), because
      increment_counters updates the stored row through another instance. */
  function CrawlAsWritten(site: Site, web: Web, key: KeyFn, urljoin: (string, string) -> string,
                          t: Tables, row: JobRow): CrawlResult
  {
    match LoopExit(site, web, key, urljoin, InitialState(site, urljoin, t, row), site.maxPages)
    case Completed(s) =>
      CrawlResult(s.tables, FinishedSeeing(Incremented(s.row, s.fetched, s.saved, s.errors), true, row),
                  s.requested, s.pages, None)
    case Raised(s, message) =>
      CrawlResult(s.tables.(errors := s.tables.errors + [ErrorRow(None, "fatal", message)]),
                  FinishedSeeing(Incremented(s.row, s.fetched, s.saved, 1), false, row),
                  s.requested, s.pages, Some(message))
  }

  // ---------------------------------------------------------------------------
  // The database and the imperative crawl

  class Database {
    var quotes: seq<QuoteRow>
    var authors: seq<string>
    var errors: seq<ErrorRow>

    constructor (t: Tables)
      ensures Snapshot() == t
    {
      quotes, authors, errors := t.quotes, t.authors, t.errors;
    }

    function Snapshot(): Tables
      reads this
    {
      Tables(quotes, authors, errors)
    }

    /** `Quote.objects.filter(hash=h).exists()`. */
    function QuoteExists(h: string): (b: bool)
      reads this
      ensures b <==> exists i :: 0 <= i < |quotes| && quotes[i].hash == h
    {
      h in HashSet(quotes)
    }

    /** `Author.objects.get_or_create(name=name)`. */
    method GetOrCreateAuthor(name: string)
      modifies this`authors
      ensures authors == WithAuthor(old(authors), name)
    {
      if name !in authors {
        authors := authors + [name];
      }
    }

    /** `Quote.objects.create(...)` with its hash preset. The unique constraint on the hash
        is the caller's to respect. */
    method CreateQuote(row: QuoteRow)
      requires row.hash !in HashSet(quotes)
      modifies this`quotes
      ensures quotes == old(quotes) + [row]
    {
      quotes := quotes + [row];
    }

    /** `ScrapeError.objects.create(...)`. */
    method RecordError(e: ErrorRow)
      modifies this`errors
      ensures errors == old(errors) + [e]
    {
      errors := errors + [e];
    }
  }

  /** One guarded iteration of the candidate loop: quote `i` of the page. */
  method SaveCandidateAt(db: Database, site: Site, page: Page, url: string, key: KeyFn, i: nat,
                         saved0: int, errors0: int)
    returns (saved: int, errors: int)
    requires i < |page.quoteNodes|
    modifies db
    ensures var c := SaveCandidate(old(db.Snapshot()), page.quoteNodes[i], ResolveAuthor(site, page, i), url, key);
      db.Snapshot() == c.tables && saved == saved0 + c.saved && errors == errors0 + c.errors
  {
    saved, errors := saved0, errors0;
    var node := page.quoteNodes[i];
    if node.failure.Some? {
      errors := errors + 1;
      db.RecordError(ErrorRow(Some(url), "parse", node.failure.value));
    } else {
      var authorName := ResolveAuthor(site, page, i);
      if Truthy(authorName) {
        db.GetOrCreateAuthor(authorName.value);
      }
      var h := key(node.text, authorName);
      if !db.QuoteExists(h) {
        db.CreateQuote(QuoteRow(node.text, if Truthy(authorName) then authorName else None, url, h));
        saved := saved + 1;
      }
    }
  }

  /** The candidate loop of scrape_site over the quote nodes of one page. */
  method SaveCandidates(db: Database, site: Site, page: Page, url: string, key: KeyFn,
                        saved0: int, errors0: int)
    returns (saved: int, errors: int)
    modifies db
    ensures PageAcc(db.Snapshot(), saved, errors)
         == ProcessFrom(site, page, url, key, PageAcc(old(db.Snapshot()), saved0, errors0), 0)
  {
    saved, errors := saved0, errors0;
    var i := 0;
    while i < |page.quoteNodes|
      invariant i <= |page.quoteNodes|
      invariant ProcessFrom(site, page, url, key, PageAcc(db.Snapshot(), saved, errors), i)
             == ProcessFrom(site, page, url, key, PageAcc(old(db.Snapshot()), saved0, errors0), 0)
    {
      saved, errors := SaveCandidateAt(db, site, page, url, key, i, saved, errors);
      i := i + 1;
    }
  }

  /** One iteration of the page loop of scrape_site for `next_url == url`: the GET, the
      network-error break, the parse of the page, the candidate loop, the flush of the
      page's deltas into the stored row and the choice of the next URL. `stop` is the network-error break,
      `fatal` the error that leaves the loop for the fatal path. */
  method VisitPage(job: ScrapeJob, db: Database, site: Site, web: Web, key: KeyFn,
                   urljoin: (string, string) -> string, url: string,
                   fetched0: int, saved0: int, errors0: int, requested0: seq<string>, pages0: seq<string>)
    returns (fetched: int, saved: int, errors: int, nextUrl: Option<string>,
             requested: seq<string>, pages: seq<string>, stop: bool, fatal: Option<string>)
    requires url != ""
    modifies job`row, db
    ensures job.row.status == old(job.row.status) && job.row.started == old(job.row.started)
    ensures job.row.finished == old(job.row.finished)
    ensures var after := CrawlState(db.Snapshot(), job.row, fetched, saved, errors, nextUrl, requested, pages);
      PageStep(site, web, key, urljoin,
               CrawlState(old(db.Snapshot()), old(job.row), fetched0, saved0, errors0, Some(url), requested0, pages0))
      == if fatal.Some? then Fatal(after, fatal.value) else if stop then Stop(after) else Continue(after)
  {
    fetched, saved, errors, nextUrl, pages := fetched0, saved0, errors0, Some(url), pages0;
    stop, fatal := false, None;
    requested := requested0 + [url];
    var response := FetchUrl(web, url);
    if response.Unreachable? {
      errors := errors + 1;
      db.RecordError(ErrorRow(Some(url), "network", response.reason));
      stop := true;
      return;
    }
    var page := response.page;
    fetched := fetched + 1;
    pages := pages + [url];
    if page.parseFailure.Some? {
      fatal := page.parseFailure;
      return;
    }
    saved, errors := SaveCandidates(db, site, page, url, key, saved, errors);
    job.IncrementCounters(fetched, saved, errors);
    fetched, saved, errors := 0, 0, 0;
    nextUrl := None;
    if page.linkFailure.Some? {
      fatal := page.linkFailure;
      return;
    }
    nextUrl := NextUrl(site, page, urljoin);
  }

  /** The page loop of scrape_site, from the start URL with fresh deltas, up to `max_pages`
      iterations; `fatal` is the error that leaves it for the fatal path. */
  method PageLoop(job: ScrapeJob, db: Database, site: Site, web: Web, key: KeyFn,
                  urljoin: (string, string) -> string)
    returns (fetched: int, saved: int, errors: int, nextUrl: Option<string>,
             requested: seq<string>, pagesScraped: seq<string>, fatal: Option<string>)
    modifies job`row, db
    ensures job.row.status == old(job.row.status) && job.row.started == old(job.row.started)
    ensures job.row.finished == old(job.row.finished)
    ensures var last := CrawlState(db.Snapshot(), job.row, fetched, saved, errors, nextUrl, requested, pagesScraped);
      LoopExit(site, web, key, urljoin,
               CrawlState(old(db.Snapshot()), old(job.row), 0, 0, 0, Some(StartUrl(site, urljoin)), [], []),
               site.maxPages)
      == if fatal.Some? then Raised(last, fatal.value) else Completed(last)
  {
    fetched, saved, errors := 0, 0, 0;
    requested, pagesScraped := [], [];
    nextUrl := Some(StartUrl(site, urljoin));
    fatal := None;
    ghost var spec := LoopExit(site, web, key, urljoin,
                               CrawlState(db.Snapshot(), job.row, 0, 0, 0, nextUrl, [], []), site.maxPages);
    var pageIndex := 0;
    while pageIndex < site.maxPages
      invariant pageIndex <= site.maxPages
      invariant fatal.None?
      invariant job.row.status == old(job.row.status) && job.row.started == old(job.row.started)
      invariant job.row.finished == old(job.row.finished)
      invariant LoopExit(site, web, key, urljoin,
                         CrawlState(db.Snapshot(), job.row, fetched, saved, errors, nextUrl, requested, pagesScraped),
                         site.maxPages - pageIndex) == spec
    {
      ghost var before := CrawlState(db.Snapshot(), job.row, fetched, saved, errors, nextUrl, requested, pagesScraped);
      if !Truthy(nextUrl) {
        RunPagesDone(site, web, key, urljoin, before, site.maxPages - pageIndex);
        break;
      }
      var stop;
      fetched, saved, errors, nextUrl, requested, pagesScraped, stop, fatal :=
        VisitPage(job, db, site, web, key, urljoin, nextUrl.value, fetched, saved, errors, requested, pagesScraped);
      ghost var after := CrawlState(db.Snapshot(), job.row, fetched, saved, errors, nextUrl, requested, pagesScraped);
      ghost var o := if fatal.Some? then Fatal(after, fatal.value) else if stop then Stop(after) else Continue(after);
      RunPagesStep(site, web, key, urljoin, before, site.maxPages - pageIndex, o);
      if stop || fatal.Some? {
        break;
      }
      pageIndex := pageIndex + 1;
    }
    if pageIndex == site.maxPages {
      RunPagesDone(site, web, key, urljoin,
                   CrawlState(db.Snapshot(), job.row, fetched, saved, errors, nextUrl, requested, pagesScraped), 0);
    }
  }

  /** scrape_site for a loaded job (in step with its row) and a database, corrected: mark
      the job running, run the page loop, then record a fatal error if there was one, flush
      the residual deltas, read the stored totals back into the instance and finish. */
  method ScrapeSite(job: ScrapeJob, db: Database, site: Site, web: Web,
                    sha256: string -> string, urljoin: (string, string) -> string)
    returns (raised: Option<string>, requested: seq<string>, pagesScraped: seq<string>)
    requires job.InSync()
    modifies job, db
    ensures job.InSync()
    ensures var r := Crawl(site, web, QuoteKey(sha256), urljoin, old(db.Snapshot()), old(job.row));
      db.Snapshot() == r.tables && job.row == r.row && raised == r.raised
      && requested == r.requested && pagesScraped == r.pages
  {
    var key := QuoteKey(sha256);
    job.MarkRunning();
    var fetched, saved, errors, nextUrl, fatal;
    fetched, saved, errors, nextUrl, requested, pagesScraped, fatal := PageLoop(job, db, site, web, key, urljoin);
    if fatal.Some? {
      db.RecordError(ErrorRow(None, "fatal", fatal.value));
      job.IncrementCountersAndRefresh(fetched, saved, 1);
      job.MarkFinished(false);
    } else {
      job.IncrementCountersAndRefresh(fetched, saved, errors);
      job.MarkFinished(true);
    }
    raised := fatal;
  }

  /** scrape_site as written: every flush goes through increment_counters alone, so the
      instance mark_finished reads still holds the counters it was loaded with. */
  method ScrapeSiteAsWritten(job: ScrapeJob, db: Database, site: Site, web: Web,
                             sha256: string -> string, urljoin: (string, string) -> string)
    returns (raised: Option<string>, requested: seq<string>, pagesScraped: seq<string>)
    requires job.InSync()
    modifies job, db
    ensures var r := CrawlAsWritten(site, web, QuoteKey(sha256), urljoin, old(db.Snapshot()), old(job.row));
      db.Snapshot() == r.tables && job.row == r.row && raised == r.raised
      && requested == r.requested && pagesScraped == r.pages
  {
    var key := QuoteKey(sha256);
    job.MarkRunning();
    var fetched, saved, errors, nextUrl, fatal;
    fetched, saved, errors, nextUrl, requested, pagesScraped, fatal := PageLoop(job, db, site, web, key, urljoin);
    if fatal.Some? {
      db.RecordError(ErrorRow(None, "fatal", fatal.value));
      job.IncrementCounters(fetched, saved, 1);
      job.MarkFinished(false);
    } else {
      job.IncrementCounters(fetched, saved, errors);
      job.MarkFinished(true);
    }
    raised := fatal;
  }
}
