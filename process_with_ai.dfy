/** The processing step: the news log chosen by name, sent to a language model whole or in
    batches of records, and the organised text saved. The model is an uninterpreted
    function from the user prompt to its answer or a raised exception; the file system is
    reduced to the names in the output directory and the text of the file read. */
module NewsProcessing {
  import opened Wrappers
  import opened Text
  import opened Dates
  import opened News
  import Collector

  /** The completion call: the user prompt in, the answer's content out, or an exception
      (a failed request or a malformed answer). The fixed instructions sent with every
      prompt are part of it. */
  type Organizer = string -> Outcome<string>

  /** NewsProcessor: the key and the request settings read from the configuration. */
  datatype Processor = Processor(apiKey: string, model: string, maxTokens: nat)

  /** NewsProcessor(api_key): an empty key raises ValueError. */
  function NewProcessor(apiKey: string): (r: Outcome<Processor>)
    ensures r.Raised? <==> apiKey == ""
    ensures r.Returned? ==> r.value.apiKey == apiKey
  {
    if apiKey == "" then Raised else Returned(Processor(apiKey, "gpt-4o", 4000))
  }

  // ----- _organize_news -----

  /** The number of characters of the news text the prompt carries. */
  const PromptLimit: nat := 50000

  /** The default `batch_size` of process_news_batch. */
  const DefaultBatchSize: nat := 20

  const PromptHead := "Organize the following financial news articles by category. \nRemove unnecessary formatting, ads, and HTML artifacts. \nList only the factual information from each article.\n\nNEWS CONTENT:\n"

  const PromptTail := "  \n\nRemember: NO interpretation, ONLY organize and list the facts."

  /** The user prompt around the first PromptLimit characters of the news text. */
  function UserPrompt(content: string): string {
    PromptHead + Take(content, PromptLimit) + PromptTail
  }

  /** A text within the limit is sent whole. */
  lemma ShortTextSentWhole(content: string)
    requires |content| <= PromptLimit
    ensures UserPrompt(content) == PromptHead + content + PromptTail
  {
    assert Take(content, PromptLimit) == content[..|content|];
  }

  /** Once the limit is reached, what follows never changes the prompt. */
  lemma LongTextCut(content: string, more: string)
    requires |content| >= PromptLimit
    ensures UserPrompt(content + more) == UserPrompt(content)
    ensures |UserPrompt(content)| == |PromptHead| + PromptLimit + |PromptTail|
  {
    assert (content + more)[..PromptLimit] == content[..PromptLimit];
  }

  /** _organize_news(news_content) */
  function Organize(organizer: Organizer, content: string): Outcome<string> {
    organizer(UserPrompt(content))
  }

  // ----- process_news_batch -----

  /** The slices news[i:i+size] for i = start, start + size, ... below |news|. */
  function BatchesFrom(news: seq<NewsRecord>, size: nat, start: nat): (bs: seq<seq<NewsRecord>>)
    requires size > 0
    decreases |news| - start
  {
    if start >= |news| then []
    else
      var end := if start + size < |news| then start + size else |news|;
      [news[start..end]] + BatchesFrom(news, size, end)
  }

  /** The batches of range(0, len(news), size). */
  function Batches(news: seq<NewsRecord>, size: nat): seq<seq<NewsRecord>>
    requires size > 0
  {
    BatchesFrom(news, size, 0)
  }

  function Flatten(bs: seq<seq<NewsRecord>>): seq<NewsRecord> {
    if bs == [] then [] else bs[0] + Flatten(bs[1..])
  }

  /** The batches from `start` on, joined, are the records from `start` on. */
  lemma {:induction false} BatchesFromFlatten(news: seq<NewsRecord>, size: nat, start: nat)
    requires size > 0 && start <= |news|
    ensures Flatten(BatchesFrom(news, size, start)) == news[start..]
    decreases |news| - start
  {
    if start < |news| {
      var end := if start + size < |news| then start + size else |news|;
      BatchesFromFlatten(news, size, end);
      assert news[start..] == news[start..end] + news[end..];
      var bs := BatchesFrom(news, size, start);
      assert bs[1..] == BatchesFrom(news, size, end);
    }
  }

  /** There are as many batches as the ceiling of the remaining count over `size`: the
      batches but one hold fewer records, and all of them at least as many. */
  lemma {:induction false} BatchesFromCount(news: seq<NewsRecord>, size: nat, start: nat)
    requires size > 0 && start <= |news|
    ensures (|BatchesFrom(news, size, start)| - 1) * size < |news| - start <= |BatchesFrom(news, size, start)| * size
    decreases |news| - start
  {
    if start < |news| {
      var end := if start + size < |news| then start + size else |news|;
      BatchesFromCount(news, size, end);
      var k := |BatchesFrom(news, size, end)|;
      assert |BatchesFrom(news, size, start)| == k + 1;
      assert (k + 1) * size == k * size + size;
      if end == |news| {
        assert k == 0;
      }
    }
  }

  /** Every batch holds between one and `size` records, and all but the last hold `size`. */
  lemma {:induction false} BatchesFromSizes(news: seq<NewsRecord>, size: nat, start: nat)
    requires size > 0 && start <= |news|
    ensures forall k :: 0 <= k < |BatchesFrom(news, size, start)| ==>
      0 < |BatchesFrom(news, size, start)[k]| <= size
      && (k < |BatchesFrom(news, size, start)| - 1 ==> |BatchesFrom(news, size, start)[k]| == size)
    decreases |news| - start
  {
    if start < |news| {
      var end := if start + size < |news| then start + size else |news|;
      BatchesFromSizes(news, size, end);
      var bs := BatchesFrom(news, size, start);
      assert bs[1..] == BatchesFrom(news, size, end);
      forall k | 0 <= k < |bs|
        ensures 0 < |bs[k]| <= size && (k < |bs| - 1 ==> |bs[k]| == size)
      {
        if k > 0 {
          assert bs[k] == BatchesFrom(news, size, end)[k - 1];
        } else if k < |bs| - 1 {
          assert end < |news|;
        }
      }
    }
  }

  /** The batches joined give back the list; there are ceil(n / size) of them. */
  lemma BatchesSpec(news: seq<NewsRecord>, size: nat)
    requires size > 0
    ensures Flatten(Batches(news, size)) == news
    ensures (|Batches(news, size)| - 1) * size < |news| <= |Batches(news, size)| * size
    ensures forall k :: 0 <= k < |Batches(news, size)| ==> 0 < |Batches(news, size)[k]| <= size
  {
    BatchesFromFlatten(news, size, 0);
    BatchesFromCount(news, size, 0);
    BatchesFromSizes(news, size, 0);
    assert news[0..] == news;
  }

  /** The lines of one record in a batch: the report block without a URL line. */
  function Entry(r: NewsRecord): string {
    Collector.Field("Date", r.date) + Collector.Field("Title", r.title) + Collector.Field("Source", r.source)
      + Collector.Field("Content", r.content) + Repeat('-', 80) + "\n\n"
  }

  function BatchText(batch: seq<NewsRecord>): string {
    if batch == [] then "" else BatchText(batch[..|batch| - 1]) + Entry(batch[|batch| - 1])
  }

  /** A batch entry is the block the report writes for the record without its url. */
  lemma EntryIsBlockWithoutUrl(r: NewsRecord)
    ensures Entry(r) == Collector.Block(r.(url := ""))
  {
  }

  /** The batch text is the report's blocks for the records without their urls. */
  lemma {:induction false} BatchTextIsBlocks(batch: seq<NewsRecord>)
    ensures BatchText(batch) == Collector.Blocks(WithoutUrls(batch))
  {
    if batch != [] {
      var init := batch[..|batch| - 1];
      var last := batch[|batch| - 1];
      assert batch == init + [last];
      BatchTextIsBlocks(init);
      WithoutUrlsSnoc(batch, init, last);
      Collector.BlocksSnoc(WithoutUrls(init), last.(url := ""));
      EntryIsBlockWithoutUrl(last);
    }
  }

  function WithoutUrls(rs: seq<NewsRecord>): (r: seq<NewsRecord>)
    ensures |r| == |rs| && forall k :: 0 <= k < |rs| ==> r[k] == rs[k].(url := "")
  {
    seq(|rs|, k requires 0 <= k < |rs| => rs[k].(url := ""))
  }

  lemma WithoutUrlsSnoc(batch: seq<NewsRecord>, init: seq<NewsRecord>, last: NewsRecord)
    requires batch == init + [last]
    ensures WithoutUrls(batch) == WithoutUrls(init) + [last.(url := "")]
  {
    var a, b := WithoutUrls(batch), WithoutUrls(init) + [last.(url := "")];
    assert |a| == |b|;
    forall k | 0 <= k < |a| ensures a[k] == b[k] {
      if k < |init| {
        assert batch[k] == init[k];
      }
    }
  }

  /** The inner loop: the text of one batch, record by record. */
  method SerializeBatch(batch: seq<NewsRecord>) returns (text: string)
    ensures text == BatchText(batch)
  {
    text := "";
    var j := 0;
    while j < |batch|
      invariant 0 <= j <= |batch|
      invariant text == BatchText(batch[..j])
    {
      assert batch[..j + 1] == batch[..j] + [batch[j]];
      text := WriteEntry(text, batch[j]);
      j := j + 1;
    }
    assert batch[..j] == batch;
  }

  /** One pass of the inner loop: the lines of one record appended to the text. */
  method WriteEntry(text: string, r: NewsRecord) returns (text': string)
    ensures text' == text + Entry(r)
  {
    var date, title, source, content := Collector.Field("Date", r.date), Collector.Field("Title", r.title),
      Collector.Field("Source", r.source), Collector.Field("Content", r.content);
    var rule, gap := Repeat('-', 80), "\n\n";
    text' := text + date;
    text' := text' + title;
    text' := text' + source;
    text' := text' + content;
    text' := text' + rule + gap;
    assert Entry(r) == date + title + source + content + rule + gap;
    Collector.Regroup(text, date, title, source, content, rule, gap, "");
    assert date + title + source + content + rule + gap + "" == Entry(r);
    assert text + date + title + source + content + rule + gap + "" == text';
  }

  /** The answers for the batches in order; the first exception ends the loop. */
  function OrganizeBatches(bs: seq<seq<NewsRecord>>, organizer: Organizer): (r: Outcome<seq<string>>)
    ensures r.Returned? ==> |r.value| == |bs|
  {
    if bs == [] then Returned([])
    else match Organize(organizer, BatchText(bs[0]))
      case Raised => Raised
      case Returned(answer) =>
        match OrganizeBatches(bs[1..], organizer)
        case Raised => Raised
        case Returned(rest) => Returned([answer] + rest)
  }

  /** process_news_batch(news_list, batch_size), with batch_size DefaultBatchSize unless
      given: a zero batch size raises (range does), a
      negative one makes no batch; otherwise the answers for the batches, joined by blank
      lines. */
  function ProcessBatches(news: seq<NewsRecord>, size: int, organizer: Organizer): Outcome<string> {
    if size == 0 then Raised
    else if size < 0 then Returned("")
    else match OrganizeBatches(Batches(news, size), organizer)
      case Raised => Raised
      case Returned(answers) => Returned(Join(answers, "\n\n"))
  }

  lemma {:induction false} OrganizeBatchesSnoc(bs: seq<seq<NewsRecord>>, b: seq<NewsRecord>, organizer: Organizer)
    requires OrganizeBatches(bs, organizer).Returned?
    ensures OrganizeBatches(bs + [b], organizer) ==
      match Organize(organizer, BatchText(b))
      case Raised => Raised
      case Returned(answer) => Returned(OrganizeBatches(bs, organizer).value + [answer])
  {
    if bs == [] {
      assert bs + [b] == [b] && [b][1..] == [];
      match Organize(organizer, BatchText(b))
      case Raised =>
      case Returned(answer) =>
        assert [answer] + [] == [] + [answer];
    } else {
      assert (bs + [b])[0] == bs[0] && (bs + [b])[1..] == bs[1..] + [b];
      OrganizeBatchesSnoc(bs[1..], b, organizer);
      var first := Organize(organizer, BatchText(bs[0])).value;
      var rest := OrganizeBatches(bs[1..], organizer).value;
      assert OrganizeBatches(bs, organizer).value == [first] + rest;
      match Organize(organizer, BatchText(b))
      case Raised =>
      case Returned(answer) =>
        AppendAssoc([first], rest, [answer]);
    }
  }

  /** An exception in the first batches ends the loop, whatever batches follow. */
  lemma {:induction false} OrganizeBatchesRaisedAppend(bs: seq<seq<NewsRecord>>, more: seq<seq<NewsRecord>>, organizer: Organizer)
    requires OrganizeBatches(bs, organizer).Raised?
    ensures OrganizeBatches(bs + more, organizer).Raised?
  {
    assert bs != [];
    assert (bs + more)[0] == bs[0] && (bs + more)[1..] == bs[1..] + more;
    if Organize(organizer, BatchText(bs[0])).Returned? {
      OrganizeBatchesRaisedAppend(bs[1..], more, organizer);
    }
  }

  /** The loop of process_news_batch: each batch serialised, sent, and its answer kept. */
  method ProcessNewsBatch(news: seq<NewsRecord>, size: int, organizer: Organizer) returns (r: Outcome<string>)
    ensures r == ProcessBatches(news, size, organizer)
  {
    if size == 0 {
      return Raised;
    }
    if size < 0 {
      return Returned("");
    }
    var answers: seq<string> := [];
    ghost var done: seq<seq<NewsRecord>> := [];
    var i := 0;
    while i < |news|
      invariant BatchedUpTo(news, size, organizer, i, done, answers)
      decreases |news| - i
    {
      var raised;
      i, done, answers, raised := SendBatch(news, size, organizer, i, done, answers);
      if raised {
        return Raised;
      }
    }
    assert done == Batches(news, size);
    return Returned(Join(answers, "\n\n"));
  }

  /** The batches from `i` on: the one starting at `i`, then those from where it ends. */
  lemma BatchesFromStep(news: seq<NewsRecord>, size: nat, i: nat, end: nat)
    requires size > 0 && i < |news| && end == if i + size < |news| then i + size else |news|
    ensures BatchesFrom(news, size, i) == [news[i..end]] + BatchesFrom(news, size, end)
  {
  }

  /** The loop state after the batches starting before `i`: their answers, in order. */
  ghost predicate BatchedUpTo(news: seq<NewsRecord>, size: nat, organizer: Organizer, i: nat,
                              done: seq<seq<NewsRecord>>, answers: seq<string>)
    requires size > 0
  {
    && i <= |news|
    && Batches(news, size) == done + BatchesFrom(news, size, i)
    && OrganizeBatches(done, organizer) == Returned(answers)
  }

  /** One pass of the loop: the batch starting at `i` sent; when the organizer raises, the
      whole run raises. */
  method SendBatch(news: seq<NewsRecord>, size: nat, organizer: Organizer, i: nat,
                   ghost done: seq<seq<NewsRecord>>, answers: seq<string>)
    returns (end: nat, ghost done': seq<seq<NewsRecord>>, answers': seq<string>, raised: bool)
    requires size > 0 && i < |news| && BatchedUpTo(news, size, organizer, i, done, answers)
    ensures raised ==> OrganizeBatches(Batches(news, size), organizer) == Raised
    ensures !raised ==> i < end && BatchedUpTo(news, size, organizer, end, done', answers')
  {
    end := if i + size < |news| then i + size else |news|;
    var batch := news[i..end];
    var text := SerializeBatch(batch);
    var answer := organizer(UserPrompt(text));
    assert answer == Organize(organizer, BatchText(batch));
    BatchSent(news, size, organizer, i, end, done, answers);
    done', answers', raised := done + [batch], answers, answer.Raised?;
    if !raised {
      answers' := answers + [answer.value];
    }
  }

  /** What sending the batch starting at `i` does to the loop state. */
  lemma BatchSent(news: seq<NewsRecord>, size: nat, organizer: Organizer, i: nat, end: nat,
                  done: seq<seq<NewsRecord>>, answers: seq<string>)
    requires size > 0 && i < |news| && BatchedUpTo(news, size, organizer, i, done, answers)
    requires end == if i + size < |news| then i + size else |news|
    ensures Organize(organizer, BatchText(news[i..end])).Raised? ==> OrganizeBatches(Batches(news, size), organizer) == Raised
    ensures Organize(organizer, BatchText(news[i..end])).Returned? ==>
      BatchedUpTo(news, size, organizer, end, done + [news[i..end]], answers + [Organize(organizer, BatchText(news[i..end])).value])
  {
    var batch, rest := news[i..end], BatchesFrom(news, size, end);
    OrganizeBatchesSnoc(done, batch, organizer);
    BatchesFromStep(news, size, i, end);
    AppendAssoc(done, [batch], rest);
    if Organize(organizer, BatchText(batch)).Raised? {
      OrganizeBatchesRaisedAppend(done + [batch], rest, organizer);
    }
  }

  // ----- process_news_file -----

  const OutputDir := "output"
  const ProcessedFilePrefix := "processed_news"

  /** os.path.join(directory, name) for a relative name. */
  function InDir(dir: string, name: string): string {
    dir + "/" + name
  }

  /** The output path: the one given when non-empty, else the day's processed-news name in
      the output directory. */
  function ProcessedFileName(outputFile: Option<string>, today: DateTime): string
    requires Valid(today)
  {
    if outputFile.Some? && outputFile.value != "" then outputFile.value
    else InDir(OutputDir, ProcessedFilePrefix + "_" + Strftime(CompactDay, today) + ".txt")
  }

  /** The default output path is never the path of a news log, so processing never
      overwrites its input. */
  lemma ProcessedNeverOverwritesLog(today: DateTime, day: DateTime)
    requires Valid(today) && Valid(day)
    ensures ProcessedFileName(None, today) != InDir(OutputDir, Collector.LogFileName(day))
  {
    var a := ProcessedFileName(None, today);
    var b := InDir(OutputDir, Collector.LogFileName(day));
    assert a[7] == 'p' && b[7] == 'n';
  }

  /** The text written: a title, the time of writing, a rule of '=' and the answer. */
  function ProcessedText(answer: string, generated: DateTime): string
    requires Valid(generated)
  {
    "Processed Financial News Report\n" + "Generated: " + Strftime(DateSecond, generated) + "\n"
      + Repeat('=', 80) + "\n\n" + answer
  }

  /** process_news_file(input_file, output_file): the file's text organised in one call,
      then saved; an exception of the call leaves the method. */
  function ProcessNewsFile(content: string, outputFile: Option<string>, today: DateTime, generated: DateTime,
                           organizer: Organizer): Outcome<(string, string)>
    requires Valid(today) && Valid(generated)
  {
    match Organize(organizer, content)
    case Raised => Raised
    case Returned(answer) => Returned((ProcessedFileName(outputFile, today), ProcessedText(answer, generated)))
  }

  /** The saved text ends with the answer, whole. */
  lemma ProcessedTextEndsWithAnswer(answer: string, generated: DateTime)
    requires Valid(generated)
    ensures EndsWith(ProcessedText(answer, generated), answer)
  {
    var t := ProcessedText(answer, generated);
    var head := "Processed Financial News Report\n" + "Generated: " + Strftime(DateSecond, generated) + "\n"
      + Repeat('=', 80) + "\n\n";
    assert t == head + answer;
    assert t[|t| - |answer|..] == answer;
  }

  // ----- choosing the log -----

  /** A name the processing step takes for a news log. */
  predicate IsLogName(name: string) {
    StartsWith(name, Collector.LogFilePrefix) && EndsWith(name, ".txt")
  }

  /** The names of news logs, in listing order. */
  function LogNames(names: seq<string>): (r: seq<string>)
    ensures forall n :: n in r <==> n in names && IsLogName(n)
  {
    if names == [] then []
    else LogNames(names[..|names| - 1]) + (if IsLogName(names[|names| - 1]) then [names[|names| - 1]] else [])
  }

  /** The greatest name in string order: sorted(names)[-1]. */
  function Greatest(names: seq<string>): (m: string)
    requires names != []
    ensures m in names
    ensures forall n :: n in names ==> n == m || LexLess(n, m)
  {
    if |names| == 1 then names[0]
    else
      var m := Greatest(names[..|names| - 1]);
      var last := names[|names| - 1];
      assert forall n :: n in names ==> n in names[..|names| - 1] || n == last;
      if LexLess(m, last) then
        assert forall n :: n in names[..|names| - 1] && n != m ==> LexLess(n, last) by {
          forall n | n in names[..|names| - 1] && n != m ensures LexLess(n, last) {
            LexLessTransitive(n, m, last);
          }
        }
        last
      else
        if m != last then LexLessTotal(m, last); m else m
  }

  /** The latest news log, or None when the directory holds none. */
  function LatestLog(names: seq<string>): (r: Option<string>)
    ensures r.None? <==> forall n :: n in names ==> !IsLogName(n)
    ensures r.Some? ==> r.value in names && IsLogName(r.value)
    ensures r.Some? ==> forall n :: n in names && IsLogName(n) ==> n == r.value || LexLess(n, r.value)
  {
    var logs := LogNames(names);
    if logs == [] then None
    else
      assert logs[0] in logs;
      Some(Greatest(logs))
  }

  /** The collection run's file names are news logs, and they sort by day: of the logs of
      several runs, the one processed is that of the latest day. */
  lemma LatestDayIsProcessed(days: seq<DateTime>, latest: nat)
    requires latest < |days| && forall d :: d in days ==> Valid(d)
    requires forall d :: d in days ==> !Before(Midnight(days[latest]), Midnight(d))
    ensures LatestLog(seq(|days|, j requires 0 <= j < |days| => Collector.LogFileName(days[j])))
      == Some(Collector.LogFileName(days[latest]))
  {
    var names := seq(|days|, j requires 0 <= j < |days| => Collector.LogFileName(days[j]));
    var top := Collector.LogFileName(days[latest]);
    forall j | 0 <= j < |days| ensures IsLogName(names[j]) {
      LogFileNameIsLog(days[j]);
    }
    assert names[latest] == top;
    var r := LatestLog(names);
    assert r.Some?;
    var k :| 0 <= k < |names| && names[k] == r.value;
    if r.value != top {
      assert LexLess(top, r.value);
      LogFileNameOrder(days[latest], days[k]);
      LexLessIrreflexive(top);
      if LexLess(r.value, top) {
        LexLessTransitive(top, r.value, top);
      }
    }
  }

  lemma LogFileNameIsLog(day: DateTime)
    requires Valid(day)
    ensures IsLogName(Collector.LogFileName(day))
  {
    Framed(Collector.LogFilePrefix, "_", Strftime(CompactDay, day), ".txt");
  }

  /** A name built as prefix, middle parts and suffix starts with the prefix and ends with
      the suffix. */
  lemma Framed(p: string, a: string, b: string, q: string)
    ensures StartsWith(p + a + b + q, p) && EndsWith(p + a + b + q, q)
  {
    var name := p + a + b + q;
    assert name[..|p|] == p;
    assert name[|name| - |q|..] == q;
  }

  /** Of two days, the later one's log name is not smaller. */
  lemma LogFileNameOrder(a: DateTime, b: DateTime)
    requires Valid(a) && Valid(b) && !Before(Midnight(a), Midnight(b))
    ensures Collector.LogFileName(a) == Collector.LogFileName(b) || LexLess(Collector.LogFileName(b), Collector.LogFileName(a))
  {
    CompactDayText(a);
    CompactDayText(b);
    var ta, tb := Strftime(CompactDay, a), Strftime(CompactDay, b);
    var p := Collector.LogFilePrefix + "_";
    assert Collector.LogFileName(a) == p + (ta + ".txt") && Collector.LogFileName(b) == p + (tb + ".txt");
    if Midnight(a) != Midnight(b) {
      BeforeIsStrictTotalOrder();
      CompactDayOrder(b, a);
      LexLessExtended(tb, ta, ".txt", ".txt");
      LexLessBehindPrefix(p, tb + ".txt", ta + ".txt");
    }
  }

  // ----- main -----

  /** How the processing step ends: no key, no log to read, an exception, or the log
      processed and the output written. */
  datatype ProcessRun = NoKey | NoLogs | Failed | Processed(input: string, output: string, text: string)

  /** main of the processing step: a missing key stops it, so does an output directory
      without logs; otherwise the latest log is processed with the default output name. */
  function ProcessLatest(apiKey: string, names: seq<string>, read: string -> string, today: DateTime, generated: DateTime,
                         organizer: Organizer): ProcessRun
    requires Valid(today) && Valid(generated)
  {
    if apiKey == "" then NoKey
    else match LatestLog(names)
      case None => NoLogs
      case Some(latest) =>
        var input := InDir(OutputDir, latest);
        match ProcessNewsFile(read(input), None, today, generated, organizer)
        case Raised => Failed
        case Returned((output, text)) => Processed(input, output, text)
  }

  /** When the step runs, it reads the latest log and never writes over it. */
  lemma ProcessLatestReadsLatest(apiKey: string, names: seq<string>, read: string -> string, today: DateTime,
                                 generated: DateTime, organizer: Organizer)
    requires Valid(today) && Valid(generated)
    ensures var run := ProcessLatest(apiKey, names, read, today, generated, organizer);
      run.Processed? ==>
        && LatestLog(names).Some? && run.input == InDir(OutputDir, LatestLog(names).value)
        && run.output != run.input
  {
    var run := ProcessLatest(apiKey, names, read, today, generated, organizer);
    if run.Processed? {
      var latest := LatestLog(names).value;
      var a := run.output;
      assert a == ProcessedFileName(None, today);
      assert a[7] == 'p';
      assert InDir(OutputDir, latest)[..7] == "output/";
      assert latest[..8] == "news_log";
      assert InDir(OutputDir, latest)[7] == 'n';
    }
  }
}
