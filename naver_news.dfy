/** The Naver crawler: the finance news listing, the per-stock news table, the article page
    reader and the news search API. Every HTTP response is an input (a `Fetch`), the
    listing pages are a sequence indexed from page 1, and the current time `now` and the
    cutoff `now - time_window_hours` are parameters. */
module NaverNews {
  import opened Wrappers
  import opened Text
  import opened Dates
  import opened News

  const FinanceHost := "https://finance.naver.com"

  // ----- the article page: _get_article_details -----

  /** The content element (`#news_read` or `div.scr01`) once its script, style and iframe
      elements are removed: the stripped texts of its `p` and `div` descendants in document
      order, and its own stripped text. */
  datatype ContentElement = ContentElement(blocks: seq<string>, text: string)

  /** What an article page holds; each element is given by its stripped text, None when the
      page has no such element. */
  datatype ArticlePage = ArticlePage(
    headline: Option<string>,           // strong.c.p15
    altHeadline: Option<string>,        // strong.headlin
    articleDate: Option<string>,        // span.article_date
    altDate: Option<string>,            // span.tah
    newsRead: Option<ContentElement>,   // #news_read
    scr01: Option<ContentElement>)      // div.scr01

  /** `select_one(a) or select_one(b)`: a found element is always truthy. */
  function FirstFound<T>(a: Option<T>, b: Option<T>): Option<T> {
    if a.Some? then a else b
  }

  /** The date of an article page as '%Y-%m-%d %H:%M': its text read as '%Y.%m.%d %H:%M',
      else its first word read as '%Y.%m.%d' (at midnight), else the current time. */
  function ArticleDate(dateText: Option<string>, now: DateTime): (r: string)
    requires Valid(now)
    ensures Strptime(r, DateMinute).Some?
    ensures dateText.None? ==> r == Stamp(now)
    ensures (dateText.Some? && Strptime(dateText.value, DottedMinute).None?
             && (FirstWord(dateText.value).None? || Strptime(FirstWord(dateText.value).value, DottedDay).None?)) ==> r == Stamp(now)
  {
    match dateText
    case None => Stamp(now)
    case Some(text) =>
      match Strptime(text, DottedMinute)
      case Some(d) => Stamp(d)
      case None =>
        var word := FirstWord(text);
        if word.Some? && Strptime(word.value, DottedDay).Some? then Stamp(Strptime(word.value, DottedDay).value)
        else Stamp(now)
  }

  /** The two substitutions applied to the article text: `\s+` -> ' ', then
      `(\n\s*)+` -> "\n\n". */
  function Cleanup(s: string): string {
    CollapseNewlines(CollapseSpace(s))
  }

  /** The article text: the non-empty block texts joined by blank lines when the element
      has any `p` or `div`, else its own text; '' when there is no content element. The
      first substitution already turns the blank lines into single spaces, so the text is
      one line with no run of whitespace. */
  function ArticleContent(element: Option<ContentElement>): (r: string)
    ensures SpaceCollapsed(r) && '\n' !in r
    ensures element.None? ==> r == ""
    ensures element.Some? ==> r == CollapseSpace(if element.value.blocks != [] then Join(NonEmpty(element.value.blocks), "\n\n") else element.value.text)
  {
    match element
    case None => ""
    case Some(e) =>
      var raw := if e.blocks != [] then Join(NonEmpty(e.blocks), "\n\n") else e.text;
      CleanupSecondStepNoop(raw);
      Cleanup(raw)
  }

  /** _get_article_details(url): the record an article page yields, None for the `{}`
      returned when the request fails. */
  function ArticleDetails(url: string, page: Fetch<ArticlePage>, now: DateTime): (r: Option<NewsRecord>)
    requires Valid(now)
    ensures r.Some? <==> page.Ok?
    ensures r.Some? ==> r.value.url == url && r.value.source == "Naver Finance" && DateOf(r.value).Some?
    ensures r.Some? ==> SpaceCollapsed(r.value.content) && '\n' !in r.value.content
    ensures r.Some? ==> r.value.title == FirstFound(page.payload.headline, page.payload.altHeadline).GetOr("No Title")
    ensures r.Some? ==> r.value.date == ArticleDate(FirstFound(page.payload.articleDate, page.payload.altDate), now)
    ensures r.Some? ==> r.value.content == ArticleContent(FirstFound(page.payload.newsRead, page.payload.scr01))
  {
    match page
    case Fail => None
    case Ok(p) =>
      var title := FirstFound(p.headline, p.altHeadline).GetOr("No Title");
      var date := ArticleDate(FirstFound(p.articleDate, p.altDate), now);
      var content := ArticleContent(FirstFound(p.newsRead, p.scr01));
      Some(NewsRecord(date, title, content, "Naver Finance", url))
  }

  /** A page dated '%Y.%m.%d %H:%M' is stamped with that minute. */
  lemma ArticleDateFull(t: DateTime, now: DateTime)
    requires Valid(t) && Valid(now)
    ensures ArticleDate(Some(Strftime(DottedMinute, t)), now) == Stamp(t)
  {
    DottedMinuteRoundTrip(t);
    StampIgnoresSeconds(t);
  }

  /** A page dated '%Y.%m.%d' alone is stamped at midnight of that day. */
  lemma ArticleDateDayOnly(t: DateTime, now: DateTime)
    requires Valid(t) && Valid(now)
    ensures ArticleDate(Some(Strftime(DottedDay, t)), now) == Stamp(Midnight(t))
  {
    var text := Strftime(DottedDay, t);
    DayIsNotMinute(t);
    DottedDayWord(t);
    FirstWordOf(text, []);
    assert text + [] == text;
    DottedDayRoundTrip(t);
  }

  /** The text '%Y.%m.%d' holds no whitespace. */
  lemma DottedDayWord(t: DateTime)
    requires Valid(t)
    ensures Strftime(DottedDay, t) != [] && forall i :: 0 <= i < |Strftime(DottedDay, t)| ==> !IsSpace(Strftime(DottedDay, t)[i])
  {
    DottedDayText(t);
    var y, m, d := Pad(t.year, 4), Pad(t.month, 2), Pad(t.day, 2);
    var s := y + "." + m + "." + d;
    forall i | 0 <= i < |s|
      ensures !IsSpace(s[i])
    {
      if i < 4 { assert s[i] == y[i]; }
      else if i == 4 || i == 7 { }
      else if i < 7 { assert s[i] == m[i - 5]; }
      else { assert s[i] == d[i - 8]; }
    }
  }

  /** A page dated '%Y.%m.%d' followed by a space and anything that keeps the whole text
      from reading as '%Y.%m.%d %H:%M' is stamped at midnight of that day. */
  lemma ArticleDateDayThenWords(t: DateTime, rest: string, now: DateTime)
    requires Valid(t) && Valid(now)
    requires Strptime(Strftime(DottedDay, t) + " " + rest, DottedMinute).None?
    ensures ArticleDate(Some(Strftime(DottedDay, t) + " " + rest), now) == Stamp(Midnight(t))
  {
    var w := Strftime(DottedDay, t);
    DottedDayWord(t);
    FirstWordOf(w, " " + rest);
    assert w + " " + rest == w + (" " + rest);
    DottedDayRoundTrip(t);
  }

  // ----- the finance news listing: get_finance_news -----

  /** An `<a>` element: its stripped text and its href attribute ('' when absent). */
  datatype Link = Link(text: string, href: string)

  /** One `dd.articleSubject` of the listing: its first link, the stripped text of the
      nearest `dt` before it, and the response for the article its link leads to. `Broken`
      stands for an item whose reading raised, which the per-item handler skips. */
  datatype ListingItem =
    | Broken
    | Subject(link: Option<Link>, dt: Option<string>, article: Fetch<ArticlePage>)

  /** The date of a listing item: the current year, a dot and the `dt` text ("02.24") read
      as '%Y.%m.%d', at midnight; the current time when there is no `dt` or it does not read. */
  function ListingDate(dt: Option<string>, now: DateTime): (r: string)
    requires Valid(now)
    ensures Strptime(r, DateMinute).Some?
    ensures dt.None? || Strptime(Show(now.year) + "." + dt.value, DottedDay).None? ==> r == Stamp(now)
  {
    if dt.Some? && Strptime(Show(now.year) + "." + dt.value, DottedDay).Some? then
      Stamp(Strptime(Show(now.year) + "." + dt.value, DottedDay).value)
    else Stamp(now)
  }

  /** A `dt` of the form "MM.DD" dates the item at midnight of that day of the current year. */
  lemma ListingDateOfMonthDay(d: DateTime, now: DateTime)
    requires Valid(d) && Valid(now) && d.year == now.year && 1000 <= now.year
    ensures ListingDate(Some(Pad(d.month, 2) + "." + Pad(d.day, 2)), now) == Stamp(Midnight(d))
  {
    ShowIsPad(now.year, 4);
    DottedDayText(d);
    var text := Show(now.year) + "." + (Pad(d.month, 2) + "." + Pad(d.day, 2));
    assert text == Strftime(DottedDay, d);
    DottedDayRoundTrip(d);
  }

  /** What the loop over items does with one item: go on, leave the crawl, or append. */
  datatype Verdict = Skip | Stop | Keep(record: NewsRecord)

  /** The body of the per-item loop of get_finance_news: items without a link or with an
      empty href are skipped; an item dated before the cutoff ends the crawl; any other
      item is kept with the listing title and date and the content of its article page. */
  function FinanceVerdict(item: ListingItem, now: DateTime, cutoff: DateTime): (v: Verdict)
    requires Valid(now)
    ensures v.Skip? <==> item.Broken? || item.link.None? || item.link.value.href == ""
    ensures v == Stop <==> item.Subject? && item.link.Some? && item.link.value.href != ""
                           && Before(Strptime(ListingDate(item.dt, now), DateMinute).value, cutoff)
    ensures v.Keep? <==> item.Subject? && item.link.Some? && item.link.value.href != ""
                         && !Before(Strptime(ListingDate(item.dt, now), DateMinute).value, cutoff)
    ensures v.Keep? ==> InWindow(v.record, cutoff) && v.record.source == "Naver Finance"
    ensures v.Keep? ==> item.Subject? && item.link.Some? && v.record.url == FinanceHost + item.link.value.href
                        && v.record.title == item.link.value.text && v.record.date == ListingDate(item.dt, now)
    ensures v.Keep? ==> item.Subject? && v.record.content == (if item.article.Ok? then ArticleContent(FirstFound(item.article.payload.newsRead, item.article.payload.scr01)) else "")
  {
    match item
    case Broken => Skip
    case Subject(link, dt, article) =>
      if link.None? || link.value.href == "" then Skip
      else
        var url := FinanceHost + link.value.href;
        var date := ListingDate(dt, now);
        var parsed := Strptime(date, DateMinute);
        if parsed.Some? && Before(parsed.value, cutoff) then Stop
        else
          var details := ArticleDetails(url, article, now);
          var content := if details.Some? then details.value.content else "";
          Keep(NewsRecord(date, link.value.text, content, "Naver Finance", url))
  }

  /** When the cutoff is not after the current minute, an item whose date falls back to
      the current time never ends the crawl. */
  lemma UndatedItemNeverStops(link: Link, article: Fetch<ArticlePage>, now: DateTime, cutoff: DateTime)
    requires Valid(now) && !Before(Truncate(now), cutoff)
    ensures FinanceVerdict(Subject(Some(link), None, article), now, cutoff) != Stop
  {
  }

  // ----- scanning the items of one page -----

  /** The records an item loop appends, and whether it left the crawl. */
  datatype Scan = Scan(records: seq<NewsRecord>, stopped: bool)

  /** The item loop: records of the kept items in order, up to the first item that stops. */
  function ScanItems<T>(items: seq<T>, verdict: T -> Verdict): (s: Scan)
    ensures |s.records| <= |items|
  {
    if items == [] then Scan([], false)
    else match verdict(items[0])
      case Stop => Scan([], true)
      case Skip => ScanItems(items[1..], verdict)
      case Keep(r) =>
        var rest := ScanItems(items[1..], verdict);
        Scan([r] + rest.records, rest.stopped)
  }

  /** The loop over two runs of items: the second run is reached only when the first does
      not stop. */
  lemma {:induction false} ScanAppend<T>(a: seq<T>, b: seq<T>, verdict: T -> Verdict)
    ensures ScanItems(a + b, verdict) ==
      if ScanItems(a, verdict).stopped then ScanItems(a, verdict)
      else Scan(ScanItems(a, verdict).records + ScanItems(b, verdict).records, ScanItems(b, verdict).stopped)
  {
    if a == [] {
      assert a + b == b;
    } else {
      assert (a + b)[0] == a[0] && (a + b)[1..] == a[1..] + b;
      ScanAppend(a[1..], b, verdict);
    }
  }

  /** An item the loop skips (one that raised, or one without a usable link) can be
      removed without changing anything. */
  lemma SkippedItemIsInvisible<T>(a: seq<T>, x: T, b: seq<T>, verdict: T -> Verdict)
    requires verdict(x) == Skip
    ensures ScanItems(a + [x] + b, verdict) == ScanItems(a + b, verdict)
  {
    ScanAppend(a, [x] + b, verdict);
    ScanAppend(a, b, verdict);
    assert a + [x] + b == a + ([x] + b);
    assert ([x] + b)[1..] == b;
  }

  /** An item that stops hides every item after it. */
  lemma StopHidesRest<T>(items: seq<T>, k: nat, verdict: T -> Verdict)
    requires k < |items| && verdict(items[k]) == Stop
    ensures ScanItems(items, verdict).stopped
    ensures ScanItems(items, verdict) == ScanItems(items[..k + 1], verdict)
  {
    assert items == items[..k] + items[k..];
    assert items[..k + 1] == items[..k] + [items[k]];
    assert items[k..][0] == items[k];
    ScanAppend(items[..k], items[k..], verdict);
    ScanAppend(items[..k], [items[k]], verdict);
  }

  /** Every record of a scan passes `ok` when every kept record does. */
  lemma {:induction false} ScanKeeps<T>(items: seq<T>, verdict: T -> Verdict, ok: NewsRecord -> bool)
    requires forall x :: verdict(x).Keep? ==> ok(verdict(x).record)
    ensures forall r :: r in ScanItems(items, verdict).records ==> ok(r)
  {
    if items != [] {
      ScanKeeps(items[1..], verdict, ok);
    }
  }

  /** The item loop of one page: appends the records of the kept items in order and
      leaves at the first item that stops. */
  method ScanPage<T>(items: seq<T>, verdict: T -> Verdict) returns (kept: seq<NewsRecord>, stopped: bool)
    ensures Scan(kept, stopped) == ScanItems(items, verdict)
  {
    kept := [];
    var i := 0;
    while i < |items|
      invariant 0 <= i <= |items|
      invariant ScanItems(items, verdict) == Scan(kept + ScanItems(items[i..], verdict).records, ScanItems(items[i..], verdict).stopped)
    {
      assert items[i..][0] == items[i] && items[i..][1..] == items[i + 1..];
      match verdict(items[i]) {
        case Stop =>
          assert kept + [] == kept;
          return kept, true;
        case Skip =>
        case Keep(r) =>
          kept := kept + [r];
      }
      i := i + 1;
    }
    assert items[i..] == [];
    assert kept + [] == kept;
    return kept, false;
  }

  // ----- walking the pages -----

  /** The page-by-page result: the records and the number of listing pages requested. */
  datatype Crawl = Crawl(records: seq<NewsRecord>, pagesFetched: nat)

  /** The response for listing page `page` (pages are numbered from 1); a page the sequence
      does not hold fails. */
  function PageAt<P>(pages: seq<Fetch<P>>, page: int): Fetch<P> {
    if 1 <= page <= |pages| then pages[page - 1] else Fail
  }

  /** The pages `page`..`maxPages` in order: a failed request ends the crawl with what has
      been gathered (the outer handler); a page whose scan stops ends it after that page. */
  function CrawlPages<P>(pages: seq<Fetch<P>>, page: nat, maxPages: int, scan: P -> Scan): (c: Crawl)
    decreases if page <= maxPages then maxPages - page + 1 else 0
    ensures c.pagesFetched <= if page <= maxPages then maxPages - page + 1 else 0
  {
    if page > maxPages then Crawl([], 0)
    else match PageAt(pages, page)
      case Fail => Crawl([], 1)
      case Ok(p) =>
        var s := scan(p);
        if s.stopped then Crawl(s.records, 1)
        else
          var rest := CrawlPages(pages, page + 1, maxPages, scan);
          Crawl(s.records + rest.records, 1 + rest.pagesFetched)
  }

  /** A listing page scanned item by item. */
  function ItemsScan<T>(verdict: T -> Verdict): seq<T> -> Scan {
    items => ScanItems(items, verdict)
  }

  /** A page whose table may be missing: a missing table ends the crawl with no records. */
  function TableScan<T>(verdict: T -> Verdict): Option<seq<T>> -> Scan {
    (table: Option<seq<T>>) => if table.None? then Scan([], true) else ScanItems(table.value, verdict)
  }

  /** What the page loop has gathered before page `page`: with the crawl from `page` on,
      the whole crawl. */
  ghost predicate CrawledUpTo<P>(pages: seq<Fetch<P>>, maxPages: int, scan: P -> Scan, page: nat, news: seq<NewsRecord>, pagesFetched: nat) {
    CrawlPages(pages, 1, maxPages, scan)
      == Crawl(news + CrawlPages(pages, page, maxPages, scan).records, pagesFetched + CrawlPages(pages, page, maxPages, scan).pagesFetched)
  }

  /** The page loop: pages 1..maxPages in order, each counted when requested; a failed
      request or a stopping scan ends it. */
  method CrawlListing<T>(pages: seq<Fetch<seq<T>>>, maxPages: int, verdict: T -> Verdict)
    returns (news: seq<NewsRecord>, pagesFetched: nat)
    ensures Crawl(news, pagesFetched) == CrawlPages(pages, 1, maxPages, ItemsScan(verdict))
  {
    news := [];
    pagesFetched := 0;
    var page := 1;
    while page <= maxPages
      invariant 1 <= page
      invariant CrawledUpTo(pages, maxPages, ItemsScan(verdict), page, news, pagesFetched)
      decreases maxPages - page
    {
      var more;
      news, pagesFetched, more := ListingPage(pages, maxPages, verdict, page, news, pagesFetched);
      if !more {
        return;
      }
      page := page + 1;
    }
    assert news + [] == news;
  }

  /** One pass of the page loop: request page `page`, scan it, and say whether to go on. */
  method ListingPage<T>(pages: seq<Fetch<seq<T>>>, maxPages: int, verdict: T -> Verdict, page: nat, news: seq<NewsRecord>, pagesFetched: nat)
    returns (news': seq<NewsRecord>, pagesFetched': nat, more: bool)
    requires 1 <= page <= maxPages && CrawledUpTo(pages, maxPages, ItemsScan(verdict), page, news, pagesFetched)
    ensures more ==> CrawledUpTo(pages, maxPages, ItemsScan(verdict), page + 1, news', pagesFetched')
    ensures !more ==> Crawl(news', pagesFetched') == CrawlPages(pages, 1, maxPages, ItemsScan(verdict))
  {
    pagesFetched' := pagesFetched + 1;
    news' := news;
    more := false;
    var response := PageAt(pages, page);
    if response.Fail? {
      assert news + [] == news;
      return;
    }
    var kept, stopped := ScanPage(response.payload, verdict);
    assert ItemsScan(verdict)(response.payload) == Scan(kept, stopped);
    news' := news + kept;
    more := !stopped;
  }

  /** The same loop over pages whose table may be missing. */
  method CrawlTables<T>(pages: seq<Fetch<Option<seq<T>>>>, maxPages: int, verdict: T -> Verdict)
    returns (news: seq<NewsRecord>, pagesFetched: nat)
    ensures Crawl(news, pagesFetched) == CrawlPages(pages, 1, maxPages, TableScan(verdict))
  {
    news := [];
    pagesFetched := 0;
    var page := 1;
    while page <= maxPages
      invariant 1 <= page
      invariant CrawledUpTo(pages, maxPages, TableScan(verdict), page, news, pagesFetched)
      decreases maxPages - page
    {
      var more;
      news, pagesFetched, more := TablePage(pages, maxPages, verdict, page, news, pagesFetched);
      if !more {
        return;
      }
      page := page + 1;
    }
    assert news + [] == news;
  }

  /** One pass of the loop over tables: a missing table ends it like a stopping scan. */
  method TablePage<T>(pages: seq<Fetch<Option<seq<T>>>>, maxPages: int, verdict: T -> Verdict, page: nat, news: seq<NewsRecord>, pagesFetched: nat)
    returns (news': seq<NewsRecord>, pagesFetched': nat, more: bool)
    requires 1 <= page <= maxPages && CrawledUpTo(pages, maxPages, TableScan(verdict), page, news, pagesFetched)
    ensures more ==> CrawledUpTo(pages, maxPages, TableScan(verdict), page + 1, news', pagesFetched')
    ensures !more ==> Crawl(news', pagesFetched') == CrawlPages(pages, 1, maxPages, TableScan(verdict))
  {
    pagesFetched' := pagesFetched + 1;
    news' := news;
    more := false;
    var response := PageAt(pages, page);
    if response.Fail? || response.payload.None? {
      assert news + [] == news;
      return;
    }
    var kept, stopped := ScanPage(response.payload.value, verdict);
    assert TableScan(verdict)(response.payload) == Scan(kept, stopped);
    news' := news + kept;
    more := !stopped;
  }

  /** Page `q` ends the crawl: its request fails or its scan stops. */
  predicate EndsAt<P>(pages: seq<Fetch<P>>, q: int, scan: P -> Scan) {
    PageAt(pages, q).Fail? || scan(PageAt(pages, q).payload).stopped
  }

  /** Two responses that the crawl cannot tell apart: both fail, or both arrive and scan
      alike. */
  predicate SameScan<P>(x: Fetch<P>, y: Fetch<P>, scan: P -> Scan) {
    (x.Fail? && y.Fail?) || (x.Ok? && y.Ok? && scan(x.payload) == scan(y.payload))
  }

  /** A crawl that ends at page `q` never requests a later page: any responses for pages
      after `q` give the same result, and at most the pages up to `q` are requested. */
  lemma {:induction false} CrawlEndsAt<P>(pages: seq<Fetch<P>>, other: seq<Fetch<P>>, page: nat, q: nat, maxPages: int, scan: P -> Scan)
    requires page <= q <= maxPages
    requires forall k :: page <= k <= q ==> SameScan(PageAt(other, k), PageAt(pages, k), scan)
    requires EndsAt(pages, q, scan)
    decreases q - page
    ensures CrawlPages(other, page, maxPages, scan) == CrawlPages(pages, page, maxPages, scan)
    ensures CrawlPages(pages, page, maxPages, scan).pagesFetched <= q - page + 1
  {
    assert SameScan(PageAt(other, page), PageAt(pages, page), scan);
    if page < q && PageAt(pages, page).Ok? && !scan(PageAt(pages, page).payload).stopped {
      CrawlEndsAt(pages, other, page + 1, q, maxPages, scan);
    }
  }

  /** Every record of a crawl passes `ok` when every record of every scan does. */
  lemma {:induction false} CrawlKeeps<P>(pages: seq<Fetch<P>>, page: nat, maxPages: int, scan: P -> Scan, ok: NewsRecord -> bool)
    requires forall p :: forall r :: r in scan(p).records ==> ok(r)
    decreases if page <= maxPages then maxPages - page + 1 else 0
    ensures forall r :: r in CrawlPages(pages, page, maxPages, scan).records ==> ok(r)
  {
    if page <= maxPages && PageAt(pages, page).Ok? && !scan(PageAt(pages, page).payload).stopped {
      CrawlKeeps(pages, page + 1, maxPages, scan, ok);
    }
  }

  function FinanceVerdicts(now: DateTime, cutoff: DateTime): ListingItem -> Verdict
    requires Valid(now)
  {
    item => FinanceVerdict(item, now, cutoff)
  }

  function FinanceScan(now: DateTime, cutoff: DateTime): seq<ListingItem> -> Scan
    requires Valid(now)
  {
    ItemsScan(FinanceVerdicts(now, cutoff))
  }

  /** get_finance_news(max_pages) over the listing responses. */
  function FinanceCrawl(pages: seq<Fetch<seq<ListingItem>>>, maxPages: int, now: DateTime, cutoff: DateTime): Crawl
    requires Valid(now)
  {
    CrawlPages(pages, 1, maxPages, FinanceScan(now, cutoff))
  }

  /** get_finance_news: pages 1..max_pages in order, items in order; the first item dated
      before the cutoff ends the whole crawl, and a failed request returns what has been
      gathered so far. */
  method GetFinanceNews(pages: seq<Fetch<seq<ListingItem>>>, maxPages: int, now: DateTime, cutoff: DateTime)
    returns (news: seq<NewsRecord>, pagesFetched: nat)
    requires Valid(now)
    ensures Crawl(news, pagesFetched) == FinanceCrawl(pages, maxPages, now, cutoff)
  {
    news, pagesFetched := CrawlListing(pages, maxPages, FinanceVerdicts(now, cutoff));
  }

  /** Every record of the finance crawl is dated inside the window, comes from the finance
      site and is labelled "Naver Finance". */
  lemma FinanceRecordsInWindow(pages: seq<Fetch<seq<ListingItem>>>, maxPages: int, now: DateTime, cutoff: DateTime)
    requires Valid(now)
    ensures forall r :: r in FinanceCrawl(pages, maxPages, now, cutoff).records ==>
      InWindow(r, cutoff) && r.source == "Naver Finance" && StartsWith(r.url, FinanceHost)
  {
    var ok := (r: NewsRecord) => InWindow(r, cutoff) && r.source == "Naver Finance" && StartsWith(r.url, FinanceHost);
    var verdicts := FinanceVerdicts(now, cutoff);
    forall x
      ensures verdicts(x).Keep? ==> ok(verdicts(x).record)
    {
      if verdicts(x).Keep? {
        assert StartsWith(FinanceHost + x.link.value.href, FinanceHost);
      }
    }
    forall p
      ensures forall r :: r in FinanceScan(now, cutoff)(p).records ==> ok(r)
    {
      ScanKeeps(p, verdicts, ok);
    }
    CrawlKeeps(pages, 1, maxPages, FinanceScan(now, cutoff), ok);
  }

  /** An item dated before the cutoff at position `k` of page `q` ends the crawl there:
      the items after it and every later page play no part, and no page after `q` is
      requested. */
  lemma OldItemEndsFinanceCrawl(pages: seq<Fetch<seq<ListingItem>>>, other: seq<Fetch<seq<ListingItem>>>,
                                q: nat, k: nat, maxPages: int, now: DateTime, cutoff: DateTime)
    requires Valid(now) && 1 <= q <= maxPages
    requires PageAt(pages, q).Ok? && k < |PageAt(pages, q).payload|
    requires FinanceVerdict(PageAt(pages, q).payload[k], now, cutoff) == Stop
    requires forall j :: 1 <= j < q ==> PageAt(other, j) == PageAt(pages, j)
    requires PageAt(other, q).Ok? && k < |PageAt(other, q).payload|
    requires PageAt(other, q).payload[..k + 1] == PageAt(pages, q).payload[..k + 1]
    ensures FinanceCrawl(other, maxPages, now, cutoff) == FinanceCrawl(pages, maxPages, now, cutoff)
    ensures FinanceCrawl(pages, maxPages, now, cutoff).pagesFetched <= q
  {
    OldItemEndsCrawl(pages, other, q, k, maxPages, FinanceVerdicts(now, cutoff));
  }

  /** The same for any listing crawl: an item whose verdict is Stop ends it. */
  lemma OldItemEndsCrawl<T>(pages: seq<Fetch<seq<T>>>, other: seq<Fetch<seq<T>>>, q: nat, k: nat, maxPages: int, verdict: T -> Verdict)
    requires 1 <= q <= maxPages
    requires PageAt(pages, q).Ok? && k < |PageAt(pages, q).payload|
    requires verdict(PageAt(pages, q).payload[k]) == Stop
    requires forall j :: 1 <= j < q ==> PageAt(other, j) == PageAt(pages, j)
    requires PageAt(other, q).Ok? && k < |PageAt(other, q).payload|
    requires PageAt(other, q).payload[..k + 1] == PageAt(pages, q).payload[..k + 1]
    ensures CrawlPages(other, 1, maxPages, ItemsScan(verdict)) == CrawlPages(pages, 1, maxPages, ItemsScan(verdict))
    ensures CrawlPages(pages, 1, maxPages, ItemsScan(verdict)).pagesFetched <= q
  {
    var scan := ItemsScan(verdict);
    var items, items2 := PageAt(pages, q).payload, PageAt(other, q).payload;
    assert items2[k] == items2[..k + 1][k] == items[k];
    StopHidesRest(items, k, verdict);
    StopHidesRest(items2, k, verdict);
    assert SameScan(PageAt(other, q), PageAt(pages, q), scan);
    CrawlEndsAt(pages, other, 1, q, maxPages, scan);
  }

  // ----- the news table of one stock: get_stock_news -----

  /** One `tr` of the `table.type5` news table: whether it holds a `th` (a header row), its
      `a.tit` link, and the response for the article the link leads to. `BrokenRow` stands
      for a row whose reading raised. */
  datatype StockRow =
    | BrokenRow
    | Row(header: bool, link: Option<Link>, article: Fetch<ArticlePage>)

  /** The body of the row loop of get_stock_news: header rows, rows without a usable link
      and rows whose article cannot be fetched are skipped; the record is the article
      page's own, relabelled with the stock code; an article dated before the cutoff ends
      the crawl. */
  function StockVerdict(row: StockRow, code: string, now: DateTime, cutoff: DateTime): (v: Verdict)
    requires Valid(now)
    ensures v.Skip? <==> !(row.Row? && !row.header && row.link.Some? && row.link.value.href != "" && row.article.Ok?)
    ensures v == Stop <==> row.Row? && !row.header && row.link.Some? && row.link.value.href != "" && row.article.Ok?
                           && Before(DateOf(ArticleDetails(FinanceHost + row.link.value.href, row.article, now).value).value, cutoff)
    ensures v.Keep? ==> InWindow(v.record, cutoff) && v.record.source == "Naver Finance - Stock " + code
    ensures v.Keep? ==> (row.Row? && row.link.Some? && row.article.Ok?
      && v.record == ArticleDetails(FinanceHost + row.link.value.href, row.article, now).value.(source := "Naver Finance - Stock " + code))
    ensures v == Stop ==> row.Row? && row.article.Ok?
  {
    match row
    case BrokenRow => Skip
    case Row(header, link, article) =>
      if header || link.None? || link.value.href == "" then Skip
      else
        var details := ArticleDetails(FinanceHost + link.value.href, article, now);
        if details.None? then Skip
        else
          var record := details.value.(source := "Naver Finance - Stock " + code);
          match Strptime(record.date, DateMinute)
          case None => Skip
          case Some(d) => if Before(d, cutoff) then Stop else Keep(record)
  }

  function StockVerdicts(code: string, now: DateTime, cutoff: DateTime): StockRow -> Verdict
    requires Valid(now)
  {
    row => StockVerdict(row, code, now, cutoff)
  }

  /** One page of the stock news: None when it has no `table.type5`, which ends the crawl. */
  function StockScan(code: string, now: DateTime, cutoff: DateTime): Option<seq<StockRow>> -> Scan
    requires Valid(now)
  {
    TableScan(StockVerdicts(code, now, cutoff))
  }

  /** get_stock_news(stock_code, max_pages) over the responses for its pages. */
  function StockCrawl(code: string, pages: seq<Fetch<Option<seq<StockRow>>>>, maxPages: int, now: DateTime, cutoff: DateTime): Crawl
    requires Valid(now)
  {
    CrawlPages(pages, 1, maxPages, StockScan(code, now, cutoff))
  }

  /** get_stock_news: the same walk over the news table of each page; a page without the
      table ends the crawl. */
  method GetStockNews(code: string, pages: seq<Fetch<Option<seq<StockRow>>>>, maxPages: int, now: DateTime, cutoff: DateTime)
    returns (news: seq<NewsRecord>, pagesFetched: nat)
    requires Valid(now)
    ensures Crawl(news, pagesFetched) == StockCrawl(code, pages, maxPages, now, cutoff)
  {
    news, pagesFetched := CrawlTables(pages, maxPages, StockVerdicts(code, now, cutoff));
  }

  /** Every record of a stock crawl is dated inside the window and labelled with the
      stock code. */
  lemma StockRecordsInWindow(code: string, pages: seq<Fetch<Option<seq<StockRow>>>>, maxPages: int, now: DateTime, cutoff: DateTime)
    requires Valid(now)
    ensures forall r :: r in StockCrawl(code, pages, maxPages, now, cutoff).records ==>
      InWindow(r, cutoff) && r.source == "Naver Finance - Stock " + code
  {
    var ok := (r: NewsRecord) => InWindow(r, cutoff) && r.source == "Naver Finance - Stock " + code;
    var verdicts := StockVerdicts(code, now, cutoff);
    forall p: Option<seq<StockRow>>
      ensures forall r :: r in StockScan(code, now, cutoff)(p).records ==> ok(r)
    {
      if p.Some? {
        ScanKeeps(p.value, verdicts, ok);
      }
    }
    CrawlKeeps(pages, 1, maxPages, StockScan(code, now, cutoff), ok);
  }

  /** A page without the news table ends the stock crawl: no later page is requested and
      the later responses play no part. */
  lemma MissingTableEndsStockCrawl(code: string, pages: seq<Fetch<Option<seq<StockRow>>>>, other: seq<Fetch<Option<seq<StockRow>>>>,
                                   q: nat, maxPages: int, now: DateTime, cutoff: DateTime)
    requires Valid(now) && 1 <= q <= maxPages
    requires PageAt(pages, q) == Ok(None)
    requires forall j :: 1 <= j <= q ==> PageAt(other, j) == PageAt(pages, j)
    ensures StockCrawl(code, other, maxPages, now, cutoff) == StockCrawl(code, pages, maxPages, now, cutoff)
    ensures StockCrawl(code, pages, maxPages, now, cutoff).pagesFetched <= q
  {
    assert forall j :: 1 <= j <= q ==> SameScan(PageAt(other, j), PageAt(pages, j), StockScan(code, now, cutoff));
    CrawlEndsAt(pages, other, 1, q, maxPages, StockScan(code, now, cutoff));
  }

  // ----- the news search API: search_news_api -----

  /** One element of the `items` array of the API's JSON answer; None for a missing key. */
  datatype ApiItem = ApiItem(title: Option<string>, description: Option<string>, link: Option<string>, pubDate: Option<string>)

  /** The outcome of a search: the records, and the `display` parameter of the request, None
      when no request is sent. */
  datatype ApiSearch = ApiSearch(records: seq<NewsRecord>, display: Option<int>)

  /** The API returns at most this many items per request. */
  const ApiPageLimit := 100

  /** The body of the item loop: an item without a pubDate, with one that does not read as
      '%a, %d %b %Y %H:%M:%S %z', or dated before the cutoff is skipped; the offset is
      dropped, keeping the wall-clock time; tags are removed from title and description. */
  function ApiRecord(item: ApiItem, query: string, cutoff: DateTime): (r: Option<NewsRecord>)
    ensures r.Some? ==> InWindow(r.value, Truncate(cutoff)) && r.value.source == "Naver News API - " + query
    ensures var pub := item.pubDate.GetOr("");
      r.None? <==> pub == "" || Strptime(pub, RfcZoned).None? || Before(Strptime(pub, RfcZoned).value, cutoff)
    ensures r.Some? ==> r.value.date == Stamp(Strptime(item.pubDate.GetOr(""), RfcZoned).value)
    ensures r.Some? ==> r.value.title == StripTags(item.title.GetOr("")) && r.value.content == StripTags(item.description.GetOr(""))
    ensures r.Some? ==> NoTags(r.value.title) && NoTags(r.value.content)
    ensures r.Some? ==> r.value.url == item.link.GetOr("")
  {
    var pub := item.pubDate.GetOr("");
    if pub == "" then None
    else match Strptime(pub, RfcZoned)
      case None => None
      case Some(d) =>
        if Before(d, cutoff) then None
        else
          StripTagsLeavesNoTag(item.title.GetOr(""));
          StripTagsLeavesNoTag(item.description.GetOr(""));
          TruncateKeepsOrder(d, cutoff);
          Some(NewsRecord(Stamp(d), StripTags(item.title.GetOr("")), StripTags(item.description.GetOr("")),
                          "Naver News API - " + query, item.link.GetOr("")))
  }

  /** The item loop: the records of the items that are not skipped, in order. */
  function ApiRecords(items: seq<ApiItem>, query: string, cutoff: DateTime): (r: seq<NewsRecord>)
    ensures |r| <= |items|
  {
    if items == [] then []
    else
      var last := ApiRecord(items[|items| - 1], query, cutoff);
      ApiRecords(items[..|items| - 1], query, cutoff) + (if last.Some? then [last.value] else [])
  }

  /** search_news_api(query, max_results): nothing is requested without both credentials;
      otherwise at most 100 items are asked for, a failed request yields nothing, and the
      loop keeps the items the filter accepts. */
  method SearchNewsApi(query: string, maxResults: int, clientId: string, clientSecret: string,
                       response: Fetch<seq<ApiItem>>, cutoff: DateTime)
    returns (result: ApiSearch)
    ensures clientId == "" || clientSecret == "" ==> result == ApiSearch([], None)
    ensures clientId != "" && clientSecret != "" ==>
      result.display == Some(if maxResults < ApiPageLimit then maxResults else ApiPageLimit)
      && result.records == (if response.Ok? then ApiRecords(response.payload, query, cutoff) else [])
  {
    if clientId == "" || clientSecret == "" {
      return ApiSearch([], None);
    }
    var display := if maxResults < ApiPageLimit then maxResults else ApiPageLimit;
    if response.Fail? {
      return ApiSearch([], Some(display));
    }
    var news := FilterApiItems(response.payload, query, cutoff);
    return ApiSearch(news, Some(display));
  }

  /** The loop over the items of the answer, appending the record of each item kept. */
  method FilterApiItems(items: seq<ApiItem>, query: string, cutoff: DateTime) returns (news: seq<NewsRecord>)
    ensures news == ApiRecords(items, query, cutoff)
  {
    news := [];
    var i := 0;
    while i < |items|
      invariant 0 <= i <= |items|
      invariant news == ApiRecords(items[..i], query, cutoff)
    {
      assert items[..i + 1][..i] == items[..i];
      var record := ApiRecord(items[i], query, cutoff);
      if record.Some? {
        news := news + [record.value];
      }
      i := i + 1;
    }
    assert items[..i] == items;
  }

  /** A skipped item does not end the loop: the records of two runs of items are the
      records of each. */
  lemma {:induction false} ApiRecordsAppend(a: seq<ApiItem>, b: seq<ApiItem>, query: string, cutoff: DateTime)
    ensures ApiRecords(a + b, query, cutoff) == ApiRecords(a, query, cutoff) + ApiRecords(b, query, cutoff)
    decreases |b|
  {
    if b == [] {
      assert a + b == a;
    } else {
      var c := a + b;
      assert c[..|c| - 1] == a + b[..|b| - 1] && c[|c| - 1] == b[|b| - 1];
      ApiRecordsAppend(a, b[..|b| - 1], query, cutoff);
    }
  }

  /** Every record of the search is inside the window (to the minute: the record keeps
      only the minute of a time compared with its seconds), free of tags and labelled with
      the query. */
  lemma {:induction false} ApiRecordsInWindow(items: seq<ApiItem>, query: string, cutoff: DateTime)
    ensures forall r :: r in ApiRecords(items, query, cutoff) ==>
      InWindow(r, Truncate(cutoff)) && NoTags(r.title) && NoTags(r.content) && r.source == "Naver News API - " + query
  {
    if items != [] {
      ApiRecordsInWindow(items[..|items| - 1], query, cutoff);
    }
  }

  /** A pubDate with any well-formed offset stamps the record with its wall-clock minute:
      the offset does not shift the time. */
  lemma ApiDateIgnoresOffset(item: ApiItem, t: DateTime, z: string, query: string, cutoff: DateTime)
    requires Valid(t) && 0 < ZoneLength(z) == |z|
    requires item.pubDate == Some(Strftime(RfcNaive, t) + " " + z)
    requires !Before(t.(micro := 0), cutoff)
    ensures ApiRecord(item, query, cutoff).Some?
    ensures ApiRecord(item, query, cutoff).value.date == Stamp(t)
  {
    RfcZonedDropsOffset(t, z);
    assert Truncate(t.(micro := 0)) == Truncate(t);
    StampIgnoresSeconds(t);
    StampIgnoresSeconds(t.(micro := 0));
  }
}
