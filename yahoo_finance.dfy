/** The Yahoo Finance crawler: the RSS feed of one ticker or of the market index, and the
    article page reader. The feed response and each article response are inputs; the cutoff
    `now - time_window_hours` is a parameter.

    The module never binds the name `logger` that its methods log through; `Logger` says
    whether that name is bound, and `ModuleLogger` is how the module is written. */
module YahooFinance {
  import opened Wrappers
  import opened Text
  import opened Dates
  import opened News

  /** Whether the module-level name `logger` is bound when a method logs. */
  datatype Logger = Bound | Unbound

  /** As written, the module imports no logging and assigns no `logger`. */
  const ModuleLogger := Unbound

  /** An article page: for each element the body search tries, the stripped texts of the
      `p` elements inside it, or None when the page has no such element. */
  datatype ArticlePage = ArticlePage(
    caasBody: Option<seq<string>>,      // div.caas-body
    articleBody: Option<seq<string>>,   // a div whose class matches article.*body, any case
    article: Option<seq<string>>)       // <article>

  /** One `<item>` of the feed: the text of each child element (None when missing) and the
      response for the page its link leads to. */
  datatype FeedItem = FeedItem(
    title: Option<string>, link: Option<string>, pubDate: Option<string>, description: Option<string>,
    page: Fetch<ArticlePage>)

  /** _get_article_content(url): the non-empty paragraph texts of the first element found,
      joined by blank lines; '' when no element is found or the request fails. */
  function ArticleContent(page: Fetch<ArticlePage>): (r: string)
    ensures page.Fail? ==> r == ""
    ensures page.Ok? && page.payload.caasBody.Some? ==> r == Join(NonEmpty(page.payload.caasBody.value), "\n\n")
  {
    match page
    case Fail => ""
    case Ok(p) =>
      var body := if p.caasBody.Some? then p.caasBody else if p.articleBody.Some? then p.articleBody else p.article;
      if body.Some? then Join(NonEmpty(body.value), "\n\n") else ""
  }

  /** s[:-n] for n > 0. */
  function DropLast(s: string, n: nat): (r: string)
    ensures |r| == if |s| < n then 0 else |s| - n
    ensures r == s[..|r|]
  {
    if |s| < n then "" else s[..|s| - n]
  }

  /** The date of an item: the text without its last six characters read as
      '%a, %d %b %Y %H:%M:%S', else the text with every "GMT" removed and stripped read
      the same way; None when neither reads. */
  function PubDate(text: string): Option<DateTime> {
    match Strptime(DropLast(text, 6), RfcNaive)
    case Some(d) => Some(d)
    case None => Strptime(Strip(RemoveAll(text, "GMT")), RfcNaive)
  }

  /** A date followed by a six-character offset such as " +0000" reads as that date. */
  lemma PubDateWithOffset(t: DateTime, zone: string)
    requires Valid(t) && |zone| == 6
    ensures PubDate(Strftime(RfcNaive, t) + zone) == Some(t.(micro := 0))
  {
    var s := Strftime(RfcNaive, t) + zone;
    assert DropLast(s, 6) == Strftime(RfcNaive, t);
    RfcRoundTrip(t);
  }

  /** A date followed by " GMT" misses the first reading (which cuts into the seconds) and
      is read by the second. */
  lemma PubDateGmt(t: DateTime)
    requires Valid(t)
    ensures PubDate(Strftime(RfcNaive, t) + " GMT") == Some(t.(micro := 0))
  {
    var x := Strftime(RfcNaive, t);
    GmtCutsSeconds(t);
    GmtRemoved(t);
    RfcRoundTrip(t);
  }

  /** Dropping the last six characters of a date followed by " GMT" cuts into the seconds. */
  lemma GmtCutsSeconds(t: DateTime)
    requires Valid(t)
    ensures Strptime(DropLast(Strftime(RfcNaive, t) + " GMT", 6), RfcNaive) == None
  {
    var x := Strftime(RfcNaive, t);
    RfcNaiveEndsWithSeconds(t);
    var head := Strftime(RfcNaive[..13], t);
    assert x == head + Pad(t.second, 2);
    assert DropLast(x + " GMT", 6) == head;
    RfcWithoutSecondsFails(t);
  }

  /** Removing "GMT" and stripping gives back the date text. */
  lemma GmtRemoved(t: DateTime)
    requires Valid(t)
    ensures Strip(RemoveAll(Strftime(RfcNaive, t) + " GMT", "GMT")) == Strftime(RfcNaive, t)
  {
    RfcNaiveDirectives();
    TextHasNoG(RfcNaive, t);
    RfcTextEnds(t);
    GmtRemovedFrom(Strftime(RfcNaive, t));
  }

  lemma GmtRemovedFrom(x: string)
    requires 'G' !in x && x != [] && !IsSpace(x[0]) && !IsSpace(x[|x| - 1])
    ensures Strip(RemoveAll(x + " GMT", "GMT")) == x
  {
    assert 'G' !in x + " ";
    assert x + " GMT" == (x + " ") + "GMT";
    RemoveAllSkips(x + " ", "GMT", "GMT");
    RemoveAllWhole("GMT");
    assert (x + " ") + "" == x + " ";
    StripTrailingSpace(x);
  }

  lemma RemoveAllWhole(pat: string)
    requires pat != []
    ensures RemoveAll(pat, pat) == ""
  {
    assert pat[..|pat|] == pat && pat[|pat|..] == "";
  }

  /** An RSS date starts with a letter and ends with a digit. */
  lemma RfcTextEnds(t: DateTime)
    requires Valid(t)
    ensures Strftime(RfcNaive, t) != []
    ensures !IsSpace(Strftime(RfcNaive, t)[0]) && !IsSpace(Strftime(RfcNaive, t)[|Strftime(RfcNaive, t)| - 1])
  {
    RfcNaiveEndsWithSeconds(t);
    RfcStartsWithWeekday(t);
    var x := Strftime(RfcNaive, t);
    var name := Capitalize(WeekdayNames[Weekday(t)]);
    var secs := Pad(t.second, 2);
    WeekdayNameStartsWithLetter(t);
    assert x[0] == name[0];
    assert x[|x| - 1] == secs[1];
  }

  /** Stripping a text that has no whitespace at either end, with one space appended. */
  lemma StripTrailingSpace(x: string)
    requires x != [] && !IsSpace(x[0]) && !IsSpace(x[|x| - 1])
    ensures Strip(x + " ") == x
  {
    assert StripLeft(x + " ") == x + " ";
    assert (x + " ")[..|x|] == x;
    assert StripRight(x + " ") == StripRight(x);
  }

  /** The body of the item loop: an item without a pubDate or with one that does not read
      is skipped, as is one dated before the cutoff; the content is the article text, or
      the description when that is empty; a missing title becomes "No Title". */
  function FeedRecord(item: FeedItem, sourceName: string, cutoff: DateTime): (r: Option<NewsRecord>)
    ensures var pub := item.pubDate.GetOr("");
      r.None? <==> pub == "" || PubDate(pub).None? || Before(PubDate(pub).value, cutoff)
    ensures r.Some? ==> r.value.date == Stamp(PubDate(item.pubDate.GetOr("")).value)
    ensures r.Some? ==> InWindow(r.value, Truncate(cutoff)) && r.value.source == sourceName
    ensures r.Some? ==> r.value.url == item.link.GetOr("") && r.value.title == item.title.GetOr("No Title")
    ensures r.Some? ==> r.value.content == if ArticleContent(item.page) != "" then ArticleContent(item.page) else item.description.GetOr("")
  {
    var pub := item.pubDate.GetOr("");
    if pub == "" then None
    else match PubDate(pub)
      case None => None
      case Some(d) =>
        if Before(d, cutoff) then None
        else
          TruncateKeepsOrder(d, cutoff);
          var content := ArticleContent(item.page);
          var full := if content == "" then item.description.GetOr("") else content;
          Some(NewsRecord(Stamp(d), item.title.GetOr("No Title"), full, sourceName, item.link.GetOr("")))
  }

  /** The item loop: the records of the items that are not skipped, in feed order. */
  function FeedRecords(items: seq<FeedItem>, sourceName: string, cutoff: DateTime): (r: seq<NewsRecord>)
    ensures |r| <= |items|
  {
    if items == [] then []
    else
      var last := FeedRecord(items[|items| - 1], sourceName, cutoff);
      FeedRecords(items[..|items| - 1], sourceName, cutoff) + (if last.Some? then [last.value] else [])
  }

  /** A skipped item never ends the loop: the records of two runs of items are the records
      of each. */
  lemma {:induction false} FeedRecordsAppend(a: seq<FeedItem>, b: seq<FeedItem>, sourceName: string, cutoff: DateTime)
    ensures FeedRecords(a + b, sourceName, cutoff) == FeedRecords(a, sourceName, cutoff) + FeedRecords(b, sourceName, cutoff)
    decreases |b|
  {
    if b == [] {
      assert a + b == a;
    } else {
      var c := a + b;
      assert c[..|c| - 1] == a + b[..|b| - 1] && c[|c| - 1] == b[|b| - 1];
      FeedRecordsAppend(a, b[..|b| - 1], sourceName, cutoff);
    }
  }

  /** Every record of a feed is inside the window (to the minute) and carries the source name. */
  lemma {:induction false} FeedRecordsInWindow(items: seq<FeedItem>, sourceName: string, cutoff: DateTime)
    ensures forall r :: r in FeedRecords(items, sourceName, cutoff) ==> InWindow(r, Truncate(cutoff)) && r.source == sourceName
  {
    if items != [] {
      FeedRecordsInWindow(items[..|items| - 1], sourceName, cutoff);
    }
  }

  /** One more item: its record, if kept, follows the records of the items before it. */
  lemma FeedRecordsNext(items: seq<FeedItem>, i: nat, sourceName: string, cutoff: DateTime)
    requires i < |items|
    ensures FeedRecords(items[..i + 1], sourceName, cutoff) ==
      FeedRecords(items[..i], sourceName, cutoff) + (var r := FeedRecord(items[i], sourceName, cutoff); if r.Some? then [r.value] else [])
  {
    assert items[..i + 1][..i] == items[..i];
  }

  /** The loop over the items of a feed, appending the record of each item kept. */
  method FilterFeed(items: seq<FeedItem>, sourceName: string, cutoff: DateTime) returns (news: seq<NewsRecord>)
    ensures news == FeedRecords(items, sourceName, cutoff)
  {
    news := [];
    var i := 0;
    while i < |items|
      invariant 0 <= i <= |items|
      invariant news == FeedRecords(items[..i], sourceName, cutoff)
    {
      FeedRecordsNext(items, i, sourceName, cutoff);
      var record := FeedRecord(items[i], sourceName, cutoff);
      if record.Some? {
        news := news + [record.value];
      }
      i := i + 1;
    }
    assert items[..i] == items;
  }

  /** The records a feed response yields: none when the request fails. */
  function FeedNews(feed: Fetch<seq<FeedItem>>, sourceName: string, cutoff: DateTime): seq<NewsRecord> {
    if feed.Ok? then FeedRecords(feed.payload, sourceName, cutoff) else []
  }

  function TickerLabel(ticker: string): string {
    "Yahoo Finance - " + ticker
  }

  const MarketLabel := "Yahoo Finance - Market"

  /** get_news_for_ticker(ticker). The logging call in its `try` comes before any request; with
      `logger` unbound it raises NameError, the handler's own logging call raises again, and the
      exception leaves the method before any request is made. With `logger` bound, the
      feed is filtered and a failed request yields no records. */
  method GetNewsForTicker(ticker: string, feed: Fetch<seq<FeedItem>>, cutoff: DateTime, logger: Logger)
    returns (r: Outcome<seq<NewsRecord>>)
    ensures logger == Unbound ==> r == Raised
    ensures logger == Bound ==> r == Returned(FeedNews(feed, TickerLabel(ticker), cutoff))
  {
    if logger == Unbound {
      return Raised;
    }
    if feed.Fail? {
      return Returned([]);
    }
    var news := FilterFeed(feed.payload, TickerLabel(ticker), cutoff);
    return Returned(news);
  }

  /** get_market_news(): the same over the feed of the market index, labelled "Market". */
  method GetMarketNews(feed: Fetch<seq<FeedItem>>, cutoff: DateTime, logger: Logger)
    returns (r: Outcome<seq<NewsRecord>>)
    ensures logger == Unbound ==> r == Raised
    ensures logger == Bound ==> r == Returned(FeedNews(feed, MarketLabel, cutoff))
  {
    if logger == Unbound {
      return Raised;
    }
    if feed.Fail? {
      return Returned([]);
    }
    var news := FilterFeed(feed.payload, MarketLabel, cutoff);
    return Returned(news);
  }
}
