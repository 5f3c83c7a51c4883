# news_crawling_report, modelled in Dafny

This project models the core of a financial-news pipeline. It runs in three steps.

1. **Collection** (`main.py` with the two crawlers).
   - It gathers news records (date, title, content, source, url) from Yahoo Finance RSS feeds, and from Naver Finance listing pages, stock news tables and the Naver search API.
   - It keeps only the records inside the time window.
   - It drops the records whose lower-cased, stripped title was already seen.
   - It sorts the rest newest first and writes them to the day's `news_log_YYYYMMDD.txt`.
2. **Processing** (`process_with_ai.py`). It picks the latest news log by name and sends it to a language model, either whole or in batches of records. The organised answer is saved as `processed_news_YYYYMMDD.txt`.
3. **In-depth analysis** (`generate_indepth_analysis.py`).
   - It sends the latest log to the model and reads back a JSON object of issues in four categories.
   - It flattens the issues in a fixed order, tagged with their category, and counts them per category.
   - It asks the model to analyse each issue. The report opens a section header wherever the category changes.

Everything that talks to the outside world is a parameter of the model:
- each HTTP response is a `Fetch` value: a payload, or a transport failure;
- the clock is one `now`/`cutoff` pair, with `cutoff = now - time_window_hours`;
- each language-model call is an uninterpreted function;
- `json.loads` is a `Decoder`;
- the file system is reduced to the names listed in the output directory and the text of the file read.

The Python exceptions that the core relies on are modelled as an `Outcome` (`Returned` or `Raised`).

Modules:
- `Wrappers`: Option, Fetch, Outcome.
- `Text`: the `str` methods the core uses, `re.sub` for `\s+` and `<[^>]+>`, and string order.
- `Dates`: `datetime.strptime`/`strftime` over the formats the core uses.
- `News`: the record and the time window.
- `NaverNews`, `YahooFinance`: the crawlers.
- `Collector`: `main.py`.
- `NewsProcessing`: `process_with_ai.py`.
- `IndepthAnalysis`: `generate_indepth_analysis.py`.

The loops of the source are methods with `while`/`for` loops. Each one is proved equal to a specification function, and the source's promises are proved about that function as lemmas.

## Model

| member | source | states |
|---|---|---|
| News.Stamp | main.py:151 | a date written as '%Y-%m-%d %H:%M' reads back as the same date cut to the minute |
| News.StampIgnoresSeconds | crawlers/yahoo_finance.py:85 | the written date does not depend on seconds |
| Dates.BeforeIsStrictTotalOrder | main.py:149-153 | datetime comparison is irreflexive, total, asymmetric and transitive, so the sort key is a strict total order |
| Dates.TruncateKeepsOrder | crawlers/naver_news.py:331 | cutting two ordered dates to the minute keeps them ordered |
| Dates.Strptime | main.py:151 | a successful parse yields a valid calendar date |
| Dates.StrptimeStrftime | main.py:151 | for any format without %z, parsing what strftime wrote gives back the fields the format carries |
| Dates.MatchStrftime | main.py:151 | strftime output followed by any text is matched field by field |
| Dates.DateMinuteRoundTrip | main.py:151 | '%Y-%m-%d %H:%M' text of a date reads back as that date cut to the minute |
| Dates.DateMinuteReadsWholeMinutes | main.py:151 | a date read from '%Y-%m-%d %H:%M' has zero seconds |
| Dates.DottedDayRoundTrip | crawlers/naver_news.py:245 | '%Y.%m.%d' text reads back as midnight of that day |
| Dates.DayIsNotMinute | crawlers/naver_news.py:240 | a bare '%Y.%m.%d' day does not read as '%Y.%m.%d %H:%M' |
| Dates.DottedMinuteRoundTrip | crawlers/naver_news.py:240 | '%Y.%m.%d %H:%M' text reads back as the date cut to the minute |
| Dates.RfcRoundTrip | crawlers/yahoo_finance.py:65 | '%a, %d %b %Y %H:%M:%S' text reads back as the same date |
| Dates.RfcWithoutSecondsFails | crawlers/yahoo_finance.py:65 | that text without its seconds does not read |
| Dates.RfcZonedDropsOffset | crawlers/naver_news.py:326-327 | with a '%z' offset the date reads back and the offset is dropped, keeping the wall-clock time |
| Dates.ZonedReadsOffset | crawlers/naver_news.py:326 | any format followed by ' %z' reads the fields before the offset |
| Dates.DateSecondRoundTrip | main.py:36 | '%Y-%m-%d %H:%M:%S' text reads back as the same date |
| Dates.CompactDayOrder | main.py:211-212 | '%Y%m%d' day stamps sort in string order as the days sort |
| Text.Lower | main.py:128 | lower-casing keeps the length and maps every character |
| Text.StripLeft | main.py:128 | only leading whitespace is removed, and none is left |
| Text.StripRight | main.py:128 | only trailing whitespace is removed, and none is left |
| Text.Strip | main.py:128 | the result neither starts nor ends with whitespace |
| Text.Join | crawlers/yahoo_finance.py:139 | joining one part gives that part |
| Text.JoinAppend | crawlers/yahoo_finance.py:139 | joining two non-empty runs of parts puts the separator between their joins, so `sep.join` places the separator exactly between consecutive parts |
| Text.FirstWord | crawlers/naver_news.py:245 | `split()[0]`: none exactly when the text is all whitespace, else a non-empty word without whitespace |
| Text.FirstWordOf | crawlers/naver_news.py:245 | a word followed by whitespace or nothing is the first word |
| Text.NonEmpty | crawlers/yahoo_finance.py:139 | keeps exactly the non-empty parts |
| Text.NonEmptyAppend | crawlers/yahoo_finance.py:139 | the filter works part by part over a concatenation, so it keeps the order and the repeats of the parts it keeps |
| Text.Take | process_with_ai.py:126 | `s[:n]` is the prefix of length min(n, len s) |
| Text.Repeat | main.py:38 | `c * n` has length n and only c |
| Text.CollapseSpace | crawlers/naver_news.py:270 | `re.sub(r'\s+', ' ', s)` leaves no two adjacent whitespace characters, is empty iff s is, and keeps whether it starts with whitespace |
| Text.CleanupSecondStepNoop | crawlers/naver_news.py:270-271 | after the first substitution no newline is left, so the second substitution changes nothing |
| Text.StripTags | crawlers/naver_news.py:335-336 | `re.sub(r'<[^>]+>', '', s)` only removes characters |
| Text.StripTagsLeavesNoTag | crawlers/naver_news.py:335-336 | the result holds no `<…>` tag |
| Text.StripTagsNoop | crawlers/naver_news.py:335-336 | text without tags is unchanged |
| Text.StripTagsIdempotent | crawlers/naver_news.py:335-336 | removing tags twice is removing them once |
| Text.RemoveAllSkips | crawlers/yahoo_finance.py:69 | `replace('GMT', '')` leaves a prefix without 'G' untouched |
| Text.PadValue | main.py:211 | a zero-padded number reads back as that number |
| Text.ShowValue | main.py:37 | a written count reads back as that count |
| Text.LexLessIrreflexive | process_with_ai.py:224 | string order is irreflexive |
| Text.LexLessTransitive | process_with_ai.py:224 | string order is transitive |
| Text.LexLessTotal | process_with_ai.py:224 | string order is total |
| Text.LexLessBehindPrefix | process_with_ai.py:224 | a common prefix does not change the order |
| Text.LexLessExtended | process_with_ai.py:224 | ordered strings of equal length stay ordered whatever follows |
| Text.PadOrder | main.py:211 | zero-padded numbers of one width sort as the numbers |
| NaverNews.ArticleDate | crawlers/naver_news.py:234-251 | the article date is always '%Y-%m-%d %H:%M' text that reads; with no date element, or a date text that reads neither as '%Y.%m.%d %H:%M' nor by its first word as '%Y.%m.%d', it is the current time |
| NaverNews.ArticleDateFull | crawlers/naver_news.py:238-241 | a full '%Y.%m.%d %H:%M' date text gives that date |
| NaverNews.ArticleDateDayOnly | crawlers/naver_news.py:243-246 | a bare day gives midnight of that day |
| NaverNews.ArticleDateDayThenWords | crawlers/naver_news.py:243-246 | a day followed by other words gives midnight of that day |
| NaverNews.ArticleContent | crawlers/naver_news.py:254-270 | no element gives ''; otherwise the joined non-empty paragraph texts, or the element text when there are none, with whitespace collapsed; the result has no newline |
| NaverNews.ArticleDetails | crawlers/naver_news.py:213-283 | a record exactly when the request succeeds, with the url, source 'Naver Finance', the first headline found or 'No Title', the date `ArticleDate` gives for the first date element found, and the one-line `ArticleContent` of the first content element found |
| NaverNews.ListingDate | crawlers/naver_news.py:77-91 | the listing date is always '%Y-%m-%d %H:%M' text that reads; with no `dt`, or a `dt` that does not read as a day of the current year, it is the current time |
| NaverNews.ListingDateOfMonthDay | crawlers/naver_news.py:80-86 | a 'MM.DD' dt dates the item at midnight of that day of the current year |
| NaverNews.FinanceVerdict | crawlers/naver_news.py:61-114 | an item is skipped iff its reading raised or it has no link or an empty href; it stops the crawl iff it has a link with an href and its date is before the cutoff; it is kept iff it has a link with an href and its date is not before the cutoff; a kept item is in the window with source 'Naver Finance', the listing title, date and url, and the article's content ('' on failure) |
| NaverNews.UndatedItemNeverStops | crawlers/naver_news.py:90-98 | an item without dt gets the current time and never ends the crawl |
| NaverNews.ScanItems | crawlers/naver_news.py:61-117 | the item loop appends at most one record per item |
| NaverNews.ScanAppend | crawlers/naver_news.py:61-117 | scanning a + b is scanning a, then b unless a stopped |
| NaverNews.SkippedItemIsInvisible | crawlers/naver_news.py:64-72 | a skipped item changes nothing |
| NaverNews.StopHidesRest | crawlers/naver_news.py:96-98 | an item that stops hides every item after it |
| NaverNews.ScanKeeps | crawlers/naver_news.py:61-117 | every appended record satisfies what every kept verdict satisfies |
| NaverNews.ScanPage | crawlers/naver_news.py:61-117 | the item loop's records and its early return are those of ScanItems |
| NaverNews.CrawlPages | crawlers/naver_news.py:49-127 | at most maxPages - page + 1 pages are requested |
| NaverNews.CrawlListing | crawlers/naver_news.py:49-127 | the page loop: pages in order; a failed request or a stopping scan ends it; its records and request count are CrawlPages |
| NaverNews.ListingPage | crawlers/naver_news.py:50-119 | one pass of the page loop keeps the crawl invariant, or ends with the whole crawl |
| NaverNews.CrawlTables | crawlers/naver_news.py:144-211 | the stock page loop: a missing table ends it with nothing more; its records and request count are CrawlPages |
| NaverNews.TablePage | crawlers/naver_news.py:145-204 | one pass of the stock page loop keeps the crawl invariant, or ends with the whole crawl |
| NaverNews.CrawlEndsAt | crawlers/naver_news.py:96-98 | pages after the one where the crawl ends are never looked at, and no more pages are requested |
| NaverNews.CrawlKeeps | crawlers/naver_news.py:49-127 | every crawled record satisfies what every scanned record satisfies |
| NaverNews.GetFinanceNews | crawlers/naver_news.py:35-127 | get_finance_news is the listing crawl with the finance verdict |
| NaverNews.FinanceRecordsInWindow | crawlers/naver_news.py:35-127 | every record is in the window, from 'Naver Finance', with a finance.naver.com url |
| NaverNews.OldItemEndsFinanceCrawl | crawlers/naver_news.py:94-98 | once an item older than the cutoff is met, the rest of that page and the later pages change nothing |
| NaverNews.OldItemEndsCrawl | crawlers/naver_news.py:94-98 | the same for any item loop with a stopping item |
| NaverNews.StockVerdict | crawlers/naver_news.py:160-198 | a row is skipped iff its reading raised, it is a header row, it has no `a.tit` link or an empty href, or its article cannot be fetched; a usable row stops the crawl iff its article is dated before the cutoff and is kept otherwise; a kept row is the article's record relabelled 'Naver Finance - Stock <code>' and in the window |
| NaverNews.GetStockNews | crawlers/naver_news.py:129-211 | get_stock_news is the table crawl with the stock verdict |
| NaverNews.StockRecordsInWindow | crawlers/naver_news.py:129-211 | every record is in the window and labelled with the stock code |
| NaverNews.MissingTableEndsStockCrawl | crawlers/naver_news.py:155-156 | a page without the news table ends the crawl; later pages change nothing |
| NaverNews.ApiRecord | crawlers/naver_news.py:321-344 | an item is skipped exactly when its pubDate is missing, does not read as '%a, %d %b %Y %H:%M:%S %z', or is before the cutoff; a kept item is dated by its parsed pubDate to the minute, is in the window, has the item's title and description with tags removed (so no tags are left), source 'Naver News API - <query>' and the item's link |
| NaverNews.ApiRecords | crawlers/naver_news.py:321-348 | at most one record per item |
| NaverNews.SearchNewsApi | crawlers/naver_news.py:285-355 | without both credentials nothing is requested and nothing returned; otherwise display is min(max_results, 100) and the records are those of the filtered items, none on a failed request |
| NaverNews.FilterApiItems | crawlers/naver_news.py:321-348 | the item loop returns ApiRecords |
| NaverNews.ApiRecordsAppend | crawlers/naver_news.py:321-348 | the records of a + b are those of a, then those of b |
| NaverNews.ApiRecordsInWindow | crawlers/naver_news.py:321-348 | every record is in the window, tag-free and labelled with the query |
| NaverNews.ApiDateIgnoresOffset | crawlers/naver_news.py:324-340 | a pubDate with any offset is kept when its wall-clock time is not before the cutoff, dated with that wall-clock time |
| YahooFinance.ArticleContent | crawlers/yahoo_finance.py:105-146 | a failed request gives ''; a page with div.caas-body gives its non-empty paragraph texts joined by blank lines |
| YahooFinance.DropLast | crawlers/yahoo_finance.py:65 | `s[:-n]` is the prefix without the last n characters, empty when s is shorter |
| YahooFinance.PubDateWithOffset | crawlers/yahoo_finance.py:61-73 | a date followed by a six-character offset reads as that date |
| YahooFinance.PubDateGmt | crawlers/yahoo_finance.py:61-73 | a date followed by ' GMT' reads as that date, through the fallback |
| YahooFinance.GmtCutsSeconds | crawlers/yahoo_finance.py:65 | cutting six characters from a ' GMT' date loses the seconds, so the first parse fails |
| YahooFinance.GmtRemoved | crawlers/yahoo_finance.py:69 | removing 'GMT' and stripping gives back the date text |
| YahooFinance.FeedRecord | crawlers/yahoo_finance.py:52-96 | an item is skipped exactly when its pubDate is missing, does not read by either parse step, or is before the cutoff, so no fallback date is ever given; a kept item is dated by its parsed pubDate to the minute, is in the window, has the given source, the item's link, its title or 'No Title', and the article content or else the description |
| YahooFinance.FeedRecords | crawlers/yahoo_finance.py:52-96 | at most one record per item |
| YahooFinance.FeedRecordsAppend | crawlers/yahoo_finance.py:52-96 | the records of a + b are those of a, then those of b |
| YahooFinance.FeedRecordsInWindow | crawlers/yahoo_finance.py:52-96 | every record is in the window and carries the given source |
| YahooFinance.FeedRecordsNext | crawlers/yahoo_finance.py:52-96 | one more item adds its record, if any, at the end |
| YahooFinance.FilterFeed | crawlers/yahoo_finance.py:52-96 | the item loop returns FeedRecords |
| YahooFinance.GetNewsForTicker | crawlers/yahoo_finance.py:28-103 | with the logger unbound the method raises; with it bound it returns the filtered feed labelled with the ticker, nothing on a failed request |
| YahooFinance.GetMarketNews | crawlers/yahoo_finance.py:148-215 | the same for the market feed, labelled 'Market' |
| Collector.Dedup | main.py:113-135 | the result is no longer than the input and holds only its elements |
| Collector.KeepFirstOfEachKey | main.py:123-132 | the loop returns Dedup and the set of keys seen is the keys of the input |
| Collector.RemoveDuplicates | main.py:113-135 | remove_duplicates returns Dedup by lower-cased stripped title; the count logged is the number removed |
| Collector.DedupDistinct | main.py:123-132 | no two kept records share a title key |
| Collector.DedupKeys | main.py:123-132 | every title key of the input is kept |
| Collector.DedupKeepsFirsts | main.py:123-132 | the kept records are exactly the first record of each key, in input order |
| Collector.DedupOfDistinct | main.py:123-132 | a list without duplicate keys is unchanged |
| Collector.DedupIdempotent | main.py:123-132 | removing duplicates twice is removing them once |
| Collector.EarlierListWins | main.py:183-193 | a kept record whose key occurs in the first list comes from the first list |
| Collector.FirstIsKept | main.py:123-132 | the first record is always kept |
| Collector.DistinctKeysCount | main.py:123-132 | a list with distinct keys has as many keys as records |
| Collector.DedupCount | main.py:123-132 | as many records are kept as there are distinct title keys |
| Collector.InsertNewestFirst | main.py:149-153 | insertion adds exactly the one record |
| Collector.SortNewestFirst | main.py:149-153 | sorting is a permutation |
| Collector.InsertKeepsOrder | main.py:149-153 | inserting into a newest-first list keeps it newest first |
| Collector.SortIsNewestFirst | main.py:149-153 | the sorted list is newest first |
| Collector.InsertAfterEqual | main.py:149-153 | an inserted record goes after the records of equal date |
| Collector.SortIsStable | main.py:149-153 | records of equal date keep their input order (sorted with reverse=True is stable) |
| Collector.SortByDateSpec | main.py:138-156 | when every date reads: newest first, a permutation, stable; when one does not, the list is returned unchanged |
| Collector.SaveNewsToFile | main.py:34-47 | the text written is the report: header then one block per record |
| Collector.WriteHeader | main.py:35-38 | the four header writes produce the header |
| Collector.WriteBlock | main.py:41-47 | the writes for one record append its block |
| Collector.BlockWrites | main.py:41-47 | the writes with and without a url line are the block |
| Collector.BlocksAppend | main.py:40-47 | the blocks of a + b are those of a, then those of b |
| Collector.BlockRoundTrip | main.py:41-47 | a block of one-line fields reads back as the record |
| Collector.BlocksRoundTrip | main.py:40-47 | the blocks of one-line records read back as the records |
| Collector.ReportRoundTrip | main.py:34-47 | the report reads back as its generation time, its count and its records |
| Collector.HeaderRoundTrip | main.py:35-38 | the header reads back as its time and count |
| Collector.ReadFieldOf | main.py:41 | a '[Tag: value]' line reads back as its value |
| Collector.ContentIsNoUrl | main.py:44-46 | a content line is never read as a url line, so an empty url is recovered |
| Collector.UrlLineRoundTrip | main.py:44-46 | the url line, written only for a non-empty url, reads back as the url |
| Collector.CollectYahooNews | main.py:57-81 | collect_yahoo_news returns the market records then each ticker's, or raises when a crawler call raises |
| Collector.CollectTickerNews | main.py:76-78 | the ticker loop returns each ticker's records in ticker order |
| Collector.TickerNewsInWindow | main.py:76-78 | every ticker record is in the window |
| Collector.CollectNaverNews | main.py:84-110 | five listing pages, then the four searches only when both credentials are set |
| Collector.SearchAll | main.py:104-107 | the query loop returns each query's records in query order |
| Collector.ApiNewsInWindow | main.py:104-107 | every search record is in the window |
| Collector.CollectAndSave | main.py:159-223 | main's outcome: a raising collector contributes nothing; nothing is saved when nothing was collected; otherwise the records without duplicates, sorted, are saved under the day's name |
| Collector.CollectedAreDated | main.py:181-195 | every collected record has a date that reads and is in the window |
| Collector.SavedRun | main.py:197-214 | a file is saved iff something was collected; then it is named news_log_YYYYMMDD.txt, holds the report of the saved records, which are newest first, a permutation of Dedup of all, with every title key once |
| Collector.YahooBatchDropped | main.py:183-188 | with the Yahoo module as written, the run's records are the Naver records alone |
| Collector.MarketNewsSaved | main.py:183-214 | with the logger bound, a market record in the window is saved |
| Collector.YahooWinsDuplicates | main.py:183-193 | a saved record whose title occurs among the Yahoo records is a Yahoo record |
| NewsProcessing.NewProcessor | process_with_ai.py:24-38 | the constructor raises iff the key is empty, and keeps the key |
| NewsProcessing.ShortTextSentWhole | process_with_ai.py:121-128 | a text within 50000 characters is sent whole between the fixed prompt lines |
| NewsProcessing.LongTextCut | process_with_ai.py:126 | past 50000 characters nothing more changes the prompt, whose length is fixed |
| NewsProcessing.BatchesFromFlatten | process_with_ai.py:174-175 | the batches from start, joined, are the records from start |
| NewsProcessing.BatchesFromCount | process_with_ai.py:174 | there are ceil((n - start) / size) batches |
| NewsProcessing.BatchesFromSizes | process_with_ai.py:175 | every batch holds between 1 and size records |
| NewsProcessing.BatchesSpec | process_with_ai.py:174-175 | the batches partition the records in order into ceil(n / size) non-empty batches of at most size |
| NewsProcessing.EntryIsBlockWithoutUrl | process_with_ai.py:181-185 | a batch entry is the report's block for the record without its url |
| NewsProcessing.BatchTextIsBlocks | process_with_ai.py:179-185 | the batch text is the report's blocks of the records without urls |
| NewsProcessing.SerializeBatch | process_with_ai.py:179-185 | the serialisation loop returns the batch text |
| NewsProcessing.WriteEntry | process_with_ai.py:181-185 | the five appends for one record add its entry |
| NewsProcessing.OrganizeBatches | process_with_ai.py:174-189 | when no call raises, there is one answer per batch |
| NewsProcessing.OrganizeBatchesSnoc | process_with_ai.py:174-189 | one more batch adds its answer at the end, or raises |
| NewsProcessing.OrganizeBatchesRaisedAppend | process_with_ai.py:188 | an exception in a batch ends the loop whatever follows |
| NewsProcessing.ProcessNewsBatch | process_with_ai.py:161-191 | process_news_batch raises for a zero batch size and returns '' for a negative one; otherwise it returns the batch answers joined by blank lines, or raises with the first failing call |
| NewsProcessing.SendBatch | process_with_ai.py:175-189 | one pass of the batch loop keeps the loop invariant, or raises as the whole loop does |
| NewsProcessing.ProcessedNeverOverwritesLog | process_with_ai.py:63-68 | the default output path is never the path of a news log |
| NewsProcessing.ProcessedTextEndsWithAnswer | process_with_ai.py:71-75 | the saved text ends with the whole answer |
| NewsProcessing.LogNames | process_with_ai.py:213-216 | exactly the names with the log prefix and '.txt' |
| NewsProcessing.Greatest | process_with_ai.py:224 | `sorted(names)[-1]` is a name not below any other |
| NewsProcessing.LatestLog | process_with_ai.py:213-224 | none iff no log is listed; otherwise the greatest log name |
| NewsProcessing.LatestDayIsProcessed | process_with_ai.py:224 | of the logs of several collection runs, the latest day's is chosen |
| NewsProcessing.LogFileNameIsLog | process_with_ai.py:215 | the collection step's file name is taken for a news log |
| NewsProcessing.LogFileNameOrder | process_with_ai.py:224 | log names sort as their days |
| NewsProcessing.ProcessLatestReadsLatest | process_with_ai.py:194-239 | when the step runs, it reads the latest log and writes to another path |
| IndepthAnalysis.UserMessage | generate_indepth_analysis.py:29 | the context, a blank line and the question, or the question alone without context |
| IndepthAnalysis.NewsSample | generate_indepth_analysis.py:68 | the first 30000 characters |
| IndepthAnalysis.ExtractionRequest | generate_indepth_analysis.py:68-115 | the extraction request carries the sample, a blank line and the prompt |
| IndepthAnalysis.UpTo | generate_indepth_analysis.py:120 | `split(p)[0]` is the prefix before the first occurrence of p, with no p inside |
| IndepthAnalysis.StripFence | generate_indepth_analysis.py:119-122 | a response without a fence is unchanged; the result never contains a fence |
| IndepthAnalysis.JsonFenceTaken | generate_indepth_analysis.py:119-120 | the text inside a ```json fence, stripped, is taken |
| IndepthAnalysis.PlainFenceTaken | generate_indepth_analysis.py:121-122 | the text inside a plain fence, stripped, is taken |
| IndepthAnalysis.AppendTagged | generate_indepth_analysis.py:131-133 | one group loop appends the group's issues tagged with its category |
| IndepthAnalysis.FlattenIssues | generate_indepth_analysis.py:127-151 | the four loops return the flattened, tagged issues |
| IndepthAnalysis.FlattenedIssues | generate_indepth_analysis.py:127-151 | the flattened list is the four groups in order, untagged, every issue tagged with one of the four labels |
| IndepthAnalysis.ExtractKeyIssues | generate_indepth_analysis.py:60-163 | extract_key_issues returns the flattened issues, or None when decoding fails |
| IndepthAnalysis.CountCategories | generate_indepth_analysis.py:194-197 | the counting loop returns the tally of the topics' categories |
| IndepthAnalysis.TallySpec | generate_indepth_analysis.py:194-197 | the tally holds each category once, exactly the categories present, each with its number of occurrences, summing to the number of topics |
| IndepthAnalysis.GroupCounts | generate_indepth_analysis.py:127-197 | each category's count is the size of its JSON group |
| IndepthAnalysis.WriteTopic | generate_indepth_analysis.py:228-245 | one pass appends the header when the category changes, then the topic lines |
| IndepthAnalysis.WriteNext | generate_indepth_analysis.py:228-251 | one pass keeps the loop invariant |
| IndepthAnalysis.WriteAnalyses | generate_indepth_analysis.py:227-251 | the loop appends the analysis lines and pauses once between consecutive topics |
| IndepthAnalysis.AnalysesLength | generate_indepth_analysis.py:232-245 | four lines per topic and three per section header |
| IndepthAnalysis.SectionTitlesRuns | generate_indepth_analysis.py:232-236 | no two headers in a row name the same category |
| IndepthAnalysis.RunHasNoHeader | generate_indepth_analysis.py:232 | within a run of one category no header opens |
| IndepthAnalysis.GroupHeader | generate_indepth_analysis.py:232-236 | a group of a new category opens exactly one header, none when empty |
| IndepthAnalysis.RunsOpenOneHeaderEach | generate_indepth_analysis.py:232-236 | runs of distinct categories open one header each |
| IndepthAnalysis.FlattenedSections | generate_indepth_analysis.py:227-236 | the report has exactly one section per non-empty category, in the fixed order |
| IndepthAnalysis.LogPaths | generate_indepth_analysis.py:173 | the paths of exactly the names matching 'news_log_*.txt' |
| IndepthAnalysis.GenerateReport | generate_indepth_analysis.py:165-280 | main's outcome: no log, load failure, no issues, or the report of the latest log |
| IndepthAnalysis.WriteReport | generate_indepth_analysis.py:188-251 | the counting and the topic loop give the report |
| IndepthAnalysis.WrittenReport | generate_indepth_analysis.py:173-251 | a written report comes from the greatest log path, has topics, counts summing to their number, four lines per topic and three per section, and one pause fewer than topics |
| IndepthAnalysis.CollectorLogsMatch | generate_indepth_analysis.py:173 | the logs the collection step writes match the glob |

## Left out

- HTTP, HTML parsing, RSS/XML parsing and file I/O are not modelled. Each response is a `Fetch` value; each parsed element is a datatype field, or None when missing; each file is its text.
- Logging and the `print` output are not modelled. Nor is `time.sleep` modelled, except in the in-depth report, where the sleeps are counted as pauses.
- The clock is read once. The source calls `datetime.now()` several times in one run, including separately for the cutoff and for the fallback dates; the model uses one `now` and one `cutoff`.
- The in-depth report writes two different timestamps; the model leaves both out.
- `strptime` is modelled strictly. Numeric fields have exactly two digits (four for the year), a space in the format matches exactly one space, `%z` takes `Z`, `±HHMM` or `±HH:MM` but no seconds, and years below 1000 are not written as Python pads them. Inputs that Python's parser accepts loosely (one-digit fields, extra spaces) are not modelled.
- `str.lower` maps ASCII letters only; there is no full Unicode case mapping. `str.strip`, `str.split` and `\s` use the whitespace set listed in `Text.IsSpace`.
- Every language-model call is an uninterpreted function. This covers:
  - the model name and temperature;
  - the fixed system prompt of `_organize_news`;
  - the error strings that `call_openai` returns in place of an answer, which are part of that function's result.
- `json.loads` is an uninterpreted `Decoder`. The issue dicts become `Issue` values, and the in-place `issue['category'] = …` becomes a tagged copy.
- A topic without a 'title' or without a 'question' raises KeyError in `generate_indepth_analysis.py` (lines 238-243), after the earlier analyses, and no report is written. This is not modelled: every `Issue` carries both, so such input always ends in a written report in the model.
- `extract_key_issues` catches only `json.JSONDecodeError` (line 160). Valid JSON of another shape raises in the source and stops `main` without a report, and this is not modelled. Examples are a list or a string at the top (AttributeError at `.get`, line 129), or a group that is `null` or not a list, or an issue that is not an object (TypeError, lines 130-132). The `Decoder` covers only text that is not JSON (None) and objects whose values are lists of issue objects.
- The fixed framing lines of the in-depth report (title block, closing remarks, disclaimer) are not modelled. The model states the section headers and the topic lines.
- `os.path.join` is `dir + "/" + name`. `os.makedirs` and the failure branch of `save_news_to_file` are not modelled.
- `save_news_to_file` is modelled as always succeeding.
- `_get_article_details` request counts are not modelled; only the listing and table page requests are counted.
- `NaverNews.ArticleDetails`: the `{}` that a parsing exception returns is modelled like a failed request (`Fail`).
- `YahooFinance.ArticleContent`: only the `div.caas-body` case is stated. The fallbacks to a div whose class matches `article.*body` and to `<article>` are modelled, but not stated in its contract.
- `Collector.TickerNewsInWindow`, `Collector.ApiNewsInWindow`, `Collector.CollectedAreDated`: the Yahoo and API records are stated in the window of the cutoff cut to the minute. The record's date is written to the minute, while the source compares the full time. `YahooFinance.FeedRecord` and `NaverNews.ApiRecord` state the skip rule against the full cutoff, as the source compares; only their window clause on the written record uses the cutoff cut to the minute.
- `Collector.CollectTickerNews`: it is stated for a bound logger only. Its caller `CollectYahooNews` returns `Raised` before the loop when the logger is unbound.
- `Collector.SearchAll`: it is stated for both credentials set, the only case in which `collect_naver_news` runs the loop.
- `run_pipeline.py` (which runs the three scripts in turn) and `crawlers/__init__.py` are not part of this model. `config.py` enters only as constants: the tickers, the search queries, the file prefixes, the output directory, the page counts, and the 50000/30000 character limits.
- `get_stock_news` is not called by `main.py`; it is modelled on its own.

## Findings

| source | as written | input that shows it | evidently intended | confidence | as-written member | corrected member |
|---|---|---|---|---|---|---|
| crawlers/yahoo_finance.py:4-9 | The module never imports `logging` or binds `logger`. The logging call in the `try` of `get_news_for_ticker` and `get_market_news` (lines 42 and 159), which comes before any request, raises NameError, and the handler's own `logger.error` (lines 102 and 214) raises again. `collect_yahoo_news` therefore raises, and `main` drops the whole Yahoo batch. | any run of `main.py`, whatever the feeds return | a module logger as in `main.py`, so that the feeds are filtered and the Yahoo records are collected first | not executed | Collector.YahooBatchDropped | Collector.MarketNewsSaved |
