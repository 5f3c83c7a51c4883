/** The in-depth analysis step: the latest news log is sent to a language model that
    returns a JSON object of issues in four categories; the issues are flattened in a fixed
    order and tagged with their category, counted per category, and each is analysed by a
    second call, the report carrying a section header wherever the category changes. The
    model and the JSON decoder are uninterpreted functions; the file system is reduced to
    the names in the output directory and the text of the file read. */
module IndepthAnalysis {
  import opened Wrappers
  import opened Text
  import NewsProcessing

  // ----- call_openai -----

  /** What call_openai sends: the system prompt, the user message and the token limit. */
  datatype Request = Request(system: string, user: string, maxTokens: nat)

  /** The chat completion behind call_openai: the answer's content, or the error text the
      call returns in its place (a status other than 200, or an exception). */
  type Llm = Request -> string

  const DefaultSystemPrompt := "당신은 금융 시장 분석 전문가입니다. 사실 기반으로 구체적이고 상세한 분석을 제공합니다."

  const IssueSystemPrompt := "당신은 글로벌 및 한국 금융시장 분석 전문가입니다. 매크로와 기업 이슈를 체계적으로 분류하고 분석합니다."

  const IssuePrompt := "다음은 최근 24시간 동안 수집된 금융 뉴스입니다.\n\n이 뉴스들을 분석하여 총 40개의 주요 이슈를 다음 체계로 추출하세요:\n\n【글로벌 뉴스 - 총 20개】\n1. 매크로 이슈 (5개): 금리, 환율, 통화정책, 경제지표, 지정학적 리스크 등\n2. 기업 이슈 (15개): 글로벌 기업의 실적, 산업 트렌드, 기술 혁신, M&A 등\n   - 많이 언급된 주요 기업 위주로 선정하되\n   - 덜 언급되지만 중요한 기업 이슈도 포함\n\n【한국 뉴스 - 총 20개】\n1. 매크로 이슈 (5개): 한국 금리정책, 환율, 정부정책, 경제지표 등\n2. 기업 이슈 (15개): 한국 기업의 실적, 산업 트렌드, 기술 혁신, M&A 등\n   - 많이 언급된 주요 기업 위주로 선정하되\n   - 덜 언급되지만 중요한 기업 이슈도 포함\n\n각 이슈에 대해 '왜(Why)'와 '어떻게(How)'를 깊이 있게 조사할 수 있는 심층 분석 질문을 생성하세요.\n\n응답 형식은 반드시 JSON으로 작성하고, 다음 구조를 따르세요:\n{\n  \"global_macro\": [\n    {\"title\": \"이슈 제목\", \"question\": \"심층 분석 질문\"}\n  ],\n  \"global_corporate\": [\n    {\"title\": \"이슈 제목\", \"question\": \"심층 분석 질문\"}\n  ],\n  \"korea_macro\": [\n    {\"title\": \"이슈 제목\", \"question\": \"심층 분석 질문\"}\n  ],\n  \"korea_corporate\": [\n    {\"title\": \"이슈 제목\", \"question\": \"심층 분석 질문\"}\n  ]\n}\n\n중요: \n- 실제로 뉴스에 등장한 이슈만 선정할 것\n- 질문은 구체적이고 분석 가능해야 함\n- 반드시 유효한 JSON 형식으로만 응답할 것\n- 각 카테고리의 개수를 정확히 지킬 것 (매크로 5개, 기업 15개)"

  /** The user message: the context and the question separated by a blank line, or the
      question alone when there is no context. */
  function UserMessage(question: string, context: string): (m: string)
    ensures context == "" ==> m == question
    ensures context != "" ==> StartsWith(m, context + "\n\n") && |m| == |context| + 2 + |question|
    ensures EndsWith(m, question)
  {
    if context != "" then context + "\n\n" + question else question
  }

  /** call_openai(question, context, max_tokens, system_prompt): one request; the default
      system prompt applies when none is given. */
  function CallOpenai(llm: Llm, question: string, context: string, maxTokens: nat, systemPrompt: Option<string>): string {
    llm(Request(systemPrompt.GetOr(DefaultSystemPrompt), UserMessage(question, context), maxTokens))
  }

  // ----- extract_key_issues -----

  /** The number of characters of the news log sent with the extraction prompt. */
  const SampleLimit: nat := 30000

  /** The news sample: the first SampleLimit characters when the log is longer. */
  function NewsSample(content: string): (r: string)
    ensures r == Take(content, SampleLimit)
  {
    if |content| > SampleLimit then content[..SampleLimit] else content
  }

  const Fence := "```"
  const JsonFence := "```json"

  /** s.split(pat)[0]: the text before the first occurrence of pat, or all of s. */
  function UpTo(s: string, pat: string): (r: string)
    requires pat != []
    ensures |r| <= |s| && r == s[..|r|]
    ensures !Contains(r, pat)
    ensures |r| < |s| ==> OccursAt(s, pat, |r|)
  {
    match FindFrom(s, pat, 0)
    case None => s
    case Some(k) =>
      PrefixHasNoPat(s, pat, k);
      s[..k]
  }

  /** The text before the first occurrence of pat holds no occurrence of it. */
  lemma PrefixHasNoPat(s: string, pat: string, k: nat)
    requires pat != [] && k <= |s| && forall j :: 0 <= j < k ==> !OccursAt(s, pat, j)
    ensures !Contains(s[..k], pat)
  {
    if Contains(s[..k], pat) {
      var j := FindFrom(s[..k], pat, 0).value;
      assert s[..k][j..j + |pat|] == s[j..j + |pat|];
      assert OccursAt(s, pat, j);
    }
  }

  /** The text after the first occurrence of pat. */
  function After(s: string, pat: string): string
    requires Contains(s, pat)
  {
    s[FindFrom(s, pat, 0).value + |pat|..]
  }

  /** The fence stripping of extract_key_issues: the text after the first ```json up to the
      next ```, else the text between the first two ```, stripped; a response without a
      fence is left alone. Since ```json begins with ```, cutting the remainder at its
      first ``` also cuts it before any later ```json. */
  function StripFence(response: string): (r: string)
    ensures !Contains(response, Fence) ==> r == response
    ensures !Contains(r, Fence)
  {
    if Contains(response, JsonFence) then
      JsonFenceIsFence(response);
      var inner := UpTo(After(response, JsonFence), Fence);
      StrippedHasNoFence(inner);
      Strip(inner)
    else if Contains(response, Fence) then
      var inner := UpTo(After(response, Fence), Fence);
      StrippedHasNoFence(inner);
      Strip(inner)
    else response
  }

  /** The first occurrence is the one at k when none comes earlier. */
  lemma FirstOccurrence(s: string, pat: string, k: nat)
    requires OccursAt(s, pat, k) && forall j :: 0 <= j < k ==> !OccursAt(s, pat, j)
    ensures FindFrom(s, pat, 0) == Some(k)
  {
  }

  /** A slice of a text without pat has no pat either. */
  lemma SliceHasNoPat(s: string, pat: string, a: nat, b: nat)
    requires a <= b <= |s| && !Contains(s, pat)
    ensures !Contains(s[a..b], pat)
  {
    var t := s[a..b];
    assert FindFrom(s, pat, 0).None?;
    forall j: nat | j + |pat| <= |t| ensures !OccursAt(t, pat, j) {
      assert !OccursAt(s, pat, a + j);
      var u, v := t[j..j + |pat|], s[a + j..a + j + |pat|];
      forall m | 0 <= m < |pat| ensures u[m] == v[m] {
        assert t[j + m] == s[a + j + m];
      }
      assert u == v;
    }
  }

  lemma StrippedHasNoFence(inner: string)
    requires !Contains(inner, Fence)
    ensures !Contains(Strip(inner), Fence)
  {
    LeftStrippedHasNoPat(inner, Fence);
    RightStrippedHasNoPat(StripLeft(inner), Fence);
  }

  lemma LeftStrippedHasNoPat(s: string, pat: string)
    requires !Contains(s, pat)
    ensures !Contains(StripLeft(s), pat)
  {
    var l := StripLeft(s);
    assert l == s[|s| - |l|..|s|];
    SliceHasNoPat(s, pat, |s| - |l|, |s|);
  }

  lemma RightStrippedHasNoPat(s: string, pat: string)
    requires !Contains(s, pat)
    ensures !Contains(StripRight(s), pat)
  {
    var r := StripRight(s);
    assert r == s[0..|r|];
    SliceHasNoPat(s, pat, 0, |r|);
  }

  /** A text with ```json has ```. */
  lemma JsonFenceIsFence(s: string)
    requires Contains(s, JsonFence)
    ensures Contains(s, Fence)
  {
    var k := FindFrom(s, JsonFence, 0).value;
    assert s[k..k + 3] == s[k..k + 7][..3];
    assert OccursAt(s, Fence, k);
  }

  /** pat right after a text free of its first character is found there. */
  lemma FoundAfter(pre: string, pat: string, rest: string)
    requires pat != [] && pat[0] !in pre
    ensures FindFrom(pre + pat + rest, pat, 0) == Some(|pre|)
  {
    var s := pre + pat + rest;
    assert s[|pre|..|pre| + |pat|] == pat;
    forall j | 0 <= j < |pre| ensures !OccursAt(s, pat, j) {
      assert s[j] == pre[j] != pat[0];
    }
    FirstOccurrence(s, pat, |pre|);
  }

  /** A response with a ```json fence and nothing like a fence before it: the stripped text
      between that fence and the closing one. */
  lemma JsonFenceTaken(pre: string, inner: string, post: string)
    requires '`' !in pre && '`' !in inner
    ensures StripFence(pre + JsonFence + inner + Fence + post) == Strip(inner)
  {
    var rest := inner + Fence + post;
    var s := pre + JsonFence + rest;
    assert pre + JsonFence + inner + Fence + post == s;
    FoundAfter(pre, JsonFence, rest);
    assert After(s, JsonFence) == rest;
    FoundAfter(inner, Fence, post);
    assert UpTo(rest, Fence) == inner;
  }

  /** A response with a plain fence and no ```json anywhere: the stripped text between the
      first two fences. */
  lemma PlainFenceTaken(pre: string, inner: string, post: string)
    requires '`' !in pre && '`' !in inner
    requires !Contains(pre + Fence + inner + Fence + post, JsonFence)
    ensures StripFence(pre + Fence + inner + Fence + post) == Strip(inner)
  {
    var rest := inner + Fence + post;
    var s := pre + Fence + rest;
    assert pre + Fence + inner + Fence + post == s;
    FoundAfter(pre, Fence, rest);
    assert After(s, Fence) == rest;
    FoundAfter(inner, Fence, post);
    assert UpTo(rest, Fence) == inner;
  }

  /** An issue as the decoder returns it; `category` is the key the flattening sets. */
  datatype Issue = Issue(title: string, question: string, category: Option<string>)

  /** The decoded JSON object: each key with its list of issues. */
  type IssueData = map<string, seq<Issue>>

  /** json.loads on the stripped response, for text that decodes to an object whose values
      are lists of issue objects: None when the text is not valid JSON. Valid JSON of any
      other shape raises in the reading loops of extract_key_issues and is not modelled. */
  type Decoder = string -> Option<IssueData>

  /** The four keys, in the order the issues are flattened, and their category labels. */
  const GroupKeys: seq<string> := ["global_macro", "global_corporate", "korea_macro", "korea_corporate"]
  const GroupLabels: seq<string> := ["글로벌 매크로", "글로벌 기업", "한국 매크로", "한국 기업"]

  /** The category a topic without one is counted under. */
  const OtherLabel := "기타"

  /** issues_data.get(key, []) */
  function Group(data: IssueData, key: string): seq<Issue> {
    if key in data then data[key] else []
  }

  /** The issues of one group with their category set to the group's tag. */
  function Tagged(issues: seq<Issue>, tag: string): seq<Issue> {
    seq(|issues|, i requires 0 <= i < |issues| => issues[i].(category := Some(tag)))
  }

  /** The flattened list: the four groups in order, each issue tagged. */
  function Flattened(data: IssueData): seq<Issue> {
    Tagged(Group(data, GroupKeys[0]), GroupLabels[0]) + Tagged(Group(data, GroupKeys[1]), GroupLabels[1])
      + Tagged(Group(data, GroupKeys[2]), GroupLabels[2]) + Tagged(Group(data, GroupKeys[3]), GroupLabels[3])
  }

  /** One of the four loops: each issue of the group, its category set, appended. */
  method AppendTagged(all: seq<Issue>, issues: seq<Issue>, tag: string) returns (r: seq<Issue>)
    ensures r == all + Tagged(issues, tag)
  {
    r := all;
    for i := 0 to |issues|
      invariant r == all + Tagged(issues[..i], tag)
    {
      assert Tagged(issues[..i + 1], tag) == Tagged(issues[..i], tag) + [issues[i].(category := Some(tag))];
      r := r + [issues[i].(category := Some(tag))];
    }
    assert issues[..|issues|] == issues;
  }

  /** The four loops of extract_key_issues. */
  method FlattenIssues(data: IssueData) returns (all: seq<Issue>)
    ensures all == Flattened(data)
  {
    all := [];
    all := AppendTagged(all, Group(data, GroupKeys[0]), GroupLabels[0]);
    all := AppendTagged(all, Group(data, GroupKeys[1]), GroupLabels[1]);
    all := AppendTagged(all, Group(data, GroupKeys[2]), GroupLabels[2]);
    all := AppendTagged(all, Group(data, GroupKeys[3]), GroupLabels[3]);
  }

  /** An issue without its category. */
  function Erase(issues: seq<Issue>): seq<Issue> {
    seq(|issues|, i requires 0 <= i < |issues| => issues[i].(category := None))
  }

  /** The flattened list holds the four groups' issues, titles and questions unchanged, in
      group order, so its length is the sum of the four; every issue carries one of the
      four labels, the one of its group. */
  lemma FlattenedIssues(data: IssueData)
    ensures Erase(Flattened(data)) == Erase(Group(data, GroupKeys[0])) + Erase(Group(data, GroupKeys[1]))
      + Erase(Group(data, GroupKeys[2])) + Erase(Group(data, GroupKeys[3]))
    ensures |Flattened(data)| == |Group(data, GroupKeys[0])| + |Group(data, GroupKeys[1])|
      + |Group(data, GroupKeys[2])| + |Group(data, GroupKeys[3])|
    ensures forall t :: t in Flattened(data) ==> t.category.Some? && t.category.value in GroupLabels
  {
    var g0, g1, g2, g3 := Group(data, GroupKeys[0]), Group(data, GroupKeys[1]), Group(data, GroupKeys[2]), Group(data, GroupKeys[3]);
    var t0, t1, t2, t3 := Tagged(g0, GroupLabels[0]), Tagged(g1, GroupLabels[1]), Tagged(g2, GroupLabels[2]), Tagged(g3, GroupLabels[3]);
    EraseTagged(g0, GroupLabels[0]);
    EraseTagged(g1, GroupLabels[1]);
    EraseTagged(g2, GroupLabels[2]);
    EraseTagged(g3, GroupLabels[3]);
    EraseAppend(t0, t1);
    EraseAppend(t0 + t1, t2);
    EraseAppend(t0 + t1 + t2, t3);
    forall t | t in Flattened(data) ensures t.category.Some? && t.category.value in GroupLabels {
      assert t in t0 || t in t1 || t in t2 || t in t3;
    }
  }

  lemma EraseTagged(issues: seq<Issue>, tag: string)
    ensures Erase(Tagged(issues, tag)) == Erase(issues)
  {
  }

  lemma EraseAppend(a: seq<Issue>, b: seq<Issue>)
    ensures Erase(a + b) == Erase(a) + Erase(b)
  {
  }

  /** extract_key_issues(news_content) as a value: the request with the sample as context,
      the fence stripped, the decoded object flattened; None when decoding fails. */
  function KeyIssues(content: string, llm: Llm, decode: Decoder): Option<seq<Issue>> {
    var response := CallOpenai(llm, IssuePrompt, NewsSample(content), 4000, Some(IssueSystemPrompt));
    match decode(StripFence(response))
    case None => None
    case Some(data) => Some(Flattened(data))
  }

  /** extract_key_issues(news_content). */
  method ExtractKeyIssues(content: string, llm: Llm, decode: Decoder) returns (r: Option<seq<Issue>>)
    ensures r == KeyIssues(content, llm, decode)
  {
    var response := CallOpenai(llm, IssuePrompt, NewsSample(content), 4000, Some(IssueSystemPrompt));
    var decoded := decode(StripFence(response));
    if decoded.None? {
      return None;
    }
    var all := FlattenIssues(decoded.value);
    return Some(all);
  }

  /** The extraction request carries the first SampleLimit characters of a non-empty log,
      a blank line and the extraction prompt. */
  lemma ExtractionRequest(content: string)
    requires content != ""
    ensures UserMessage(IssuePrompt, NewsSample(content)) == Take(content, SampleLimit) + "\n\n" + IssuePrompt
  {
    assert NewsSample(content) != "";
  }

  // ----- counting per category -----

  /** topic.get('category', '기타') */
  function Category(t: Issue): string {
    t.category.GetOr(OtherLabel)
  }

  function Categories(ts: seq<Issue>): seq<string> {
    seq(|ts|, i requires 0 <= i < |ts| => Category(ts[i]))
  }

  /** The categories dict, in insertion order: each category with its count. */
  type Tally = seq<(string, nat)>

  /** categories[cat] = categories.get(cat, 0) + 1 */
  function Bump(es: Tally, c: string): Tally {
    if es == [] then [(c, 1)]
    else if es[0].0 == c then [(c, es[0].1 + 1)] + es[1..]
    else [es[0]] + Bump(es[1..], c)
  }

  /** The dict after the loop over a list of categories. */
  function TallyOf(cs: seq<string>): Tally {
    if cs == [] then [] else Bump(TallyOf(cs[..|cs| - 1]), cs[|cs| - 1])
  }

  /** categories.get(c, 0) */
  function Lookup(es: Tally, c: string): nat {
    if es == [] then 0 else if es[0].0 == c then es[0].1 else Lookup(es[1..], c)
  }

  /** The sum of the counts. */
  function Total(es: Tally): nat {
    if es == [] then 0 else es[0].1 + Total(es[1..])
  }

  /** The categories the dict holds. */
  function KeySet(es: Tally): set<string> {
    if es == [] then {} else {es[0].0} + KeySet(es[1..])
  }

  /** No category is held twice. */
  predicate DistinctKeys(es: Tally) {
    es == [] || (es[0].0 !in KeySet(es[1..]) && DistinctKeys(es[1..]))
  }

  /** How many times c occurs in cs. */
  function Occurrences(cs: seq<string>, c: string): nat {
    if cs == [] then 0 else Occurrences(cs[..|cs| - 1], c) + (if cs[|cs| - 1] == c then 1 else 0)
  }

  /** The loop counting the topics of each category. */
  method CountCategories(topics: seq<Issue>) returns (categories: Tally)
    ensures categories == TallyOf(Categories(topics))
  {
    categories := [];
    for i := 0 to |topics|
      invariant categories == TallyOf(Categories(topics[..i]))
    {
      assert Categories(topics[..i + 1])[..i] == Categories(topics[..i]);
      var cat := Category(topics[i]);
      categories := Bump(categories, cat);
    }
    assert topics[..|topics|] == topics;
  }

  lemma {:induction false} BumpTotal(es: Tally, c: string)
    ensures Total(Bump(es, c)) == Total(es) + 1
  {
    if es != [] && es[0].0 != c {
      BumpTotal(es[1..], c);
    }
  }

  lemma {:induction false} BumpLookup(es: Tally, c: string, d: string)
    ensures Lookup(Bump(es, c), d) == Lookup(es, d) + (if d == c then 1 else 0)
  {
    if es != [] && es[0].0 != c {
      BumpLookup(es[1..], c, d);
    }
  }

  lemma {:induction false} BumpKeys(es: Tally, c: string)
    ensures KeySet(Bump(es, c)) == KeySet(es) + {c}
    ensures DistinctKeys(es) ==> DistinctKeys(Bump(es, c))
  {
    if es != [] && es[0].0 != c {
      BumpKeys(es[1..], c);
    }
  }

  /** The counting loop yields each category of the list once, with the number of topics
      in it; the counts add up to the number of topics. */
  lemma {:induction false} TallySpec(cs: seq<string>)
    ensures DistinctKeys(TallyOf(cs))
    ensures KeySet(TallyOf(cs)) == set c | c in cs
    ensures forall d :: Lookup(TallyOf(cs), d) == Occurrences(cs, d)
    ensures Total(TallyOf(cs)) == |cs|
  {
    if cs != [] {
      var init := cs[..|cs| - 1];
      TallySpec(init);
      BumpTotal(TallyOf(init), cs[|cs| - 1]);
      BumpKeys(TallyOf(init), cs[|cs| - 1]);
      forall d ensures Lookup(TallyOf(cs), d) == Occurrences(cs, d) {
        BumpLookup(TallyOf(init), cs[|cs| - 1], d);
      }
      assert forall c :: c in cs <==> c in init || c == cs[|cs| - 1] by {
        assert cs == init + [cs[|cs| - 1]];
      }
    }
  }

  lemma {:induction false} OccurrencesAppend(a: seq<string>, b: seq<string>, c: string)
    ensures Occurrences(a + b, c) == Occurrences(a, c) + Occurrences(b, c)
    decreases |b|
  {
    if b == [] {
      assert a + b == a;
    } else {
      assert (a + b)[..|a + b| - 1] == a + b[..|b| - 1];
      OccurrencesAppend(a, b[..|b| - 1], c);
    }
  }

  /** n copies of one tag hold n of it and none of another. */
  lemma {:induction false} OccurrencesOfLabel(issues: seq<Issue>, tag: string, c: string)
    ensures Occurrences(Categories(Tagged(issues, tag)), c) == if c == tag then |issues| else 0
  {
    if issues != [] {
      var init := issues[..|issues| - 1];
      OccurrencesOfLabel(init, tag, c);
      assert Categories(Tagged(issues, tag))[..|issues| - 1] == Categories(Tagged(init, tag));
    }
  }

  lemma CategoriesAppend(a: seq<Issue>, b: seq<Issue>)
    ensures Categories(a + b) == Categories(a) + Categories(b)
  {
  }

  /** After flattening, each of the four categories is counted with the size of its
      group. */
  lemma GroupCounts(data: IssueData, k: nat)
    requires k < 4
    ensures Lookup(TallyOf(Categories(Flattened(data))), GroupLabels[k]) == |Group(data, GroupKeys[k])|
  {
    var c := GroupLabels[k];
    var t0, t1, t2, t3 := Tagged(Group(data, GroupKeys[0]), GroupLabels[0]), Tagged(Group(data, GroupKeys[1]), GroupLabels[1]),
      Tagged(Group(data, GroupKeys[2]), GroupLabels[2]), Tagged(Group(data, GroupKeys[3]), GroupLabels[3]);
    CategoriesAppend(t0, t1);
    CategoriesAppend(t0 + t1, t2);
    CategoriesAppend(t0 + t1 + t2, t3);
    OccurrencesAppend(Categories(t0), Categories(t1), c);
    OccurrencesAppend(Categories(t0) + Categories(t1), Categories(t2), c);
    OccurrencesAppend(Categories(t0) + Categories(t1) + Categories(t2), Categories(t3), c);
    OccurrencesOfLabel(Group(data, GroupKeys[0]), GroupLabels[0], c);
    OccurrencesOfLabel(Group(data, GroupKeys[1]), GroupLabels[1], c);
    OccurrencesOfLabel(Group(data, GroupKeys[2]), GroupLabels[2], c);
    OccurrencesOfLabel(Group(data, GroupKeys[3]), GroupLabels[3], c);
    TallySpec(Categories(Flattened(data)));
  }

  // ----- the analysis sections -----

  function Rule(): string { Repeat('=', 100) }

  function HeaderLines(category: string): seq<string> {
    ["\n" + Rule(), "\n【 " + category + " 】\n", Rule() + "\n"]
  }

  function TopicLines(t: Issue, answer: string): seq<string> {
    [Repeat('━', 100), "\n■ " + t.title + "\n", answer, "\n\n"]
  }

  /** The analysis of one topic: its question alone, with the default system prompt. */
  function Analysis(llm: Llm, t: Issue): string {
    CallOpenai(llm, t.question, "", 1000, None)
  }

  /** A header opens before a topic exactly when its category differs from the current
      one; before the first topic there is none. */
  predicate StartsSection(current: Option<string>, t: Issue) {
    Some(Category(t)) != current
  }

  /** The lines the loop appends for one topic. */
  function Section(current: Option<string>, t: Issue, llm: Llm): seq<string> {
    (if StartsSection(current, t) then HeaderLines(Category(t)) else []) + TopicLines(t, Analysis(llm, t))
  }

  /** The lines the loop appends for the topics still to come, from the current category. */
  function AnalysesFrom(ts: seq<Issue>, current: Option<string>, llm: Llm): seq<string> {
    if ts == [] then []
    else Section(current, ts[0], llm) + AnalysesFrom(ts[1..], Some(Category(ts[0])), llm)
  }

  /** The lines the loop appends for all topics. */
  function Analyses(ts: seq<Issue>, llm: Llm): seq<string> {
    AnalysesFrom(ts, None, llm)
  }

  /** The categories of the section headers still to come, in order. */
  function SectionTitlesFrom(ts: seq<Issue>, current: Option<string>): seq<string> {
    if ts == [] then []
    else (if StartsSection(current, ts[0]) then [Category(ts[0])] else []) + SectionTitlesFrom(ts[1..], Some(Category(ts[0])))
  }

  /** The categories of the section headers of the report, in order. */
  function SectionTitles(ts: seq<Issue>): seq<string> {
    SectionTitlesFrom(ts, None)
  }

  /** One pass of the loop: the section header when the category differs from the current
      one, then the topic's title and its analysis. */
  method WriteTopic(t: Issue, llm: Llm, lines: seq<string>, current: Option<string>)
    returns (lines': seq<string>, current': Option<string>)
    ensures lines' == lines + Section(current, t, llm)
    ensures current' == Some(Category(t))
  {
    var category := Category(t);
    var header: seq<string> := [];
    current' := current;
    if Some(category) != current {
      header := HeaderLines(category);
      current' := Some(category);
    }
    lines' := lines + (header + TopicLines(t, Analysis(llm, t)));
  }

  /** What the loop has written once the first i topics are done. */
  ghost predicate WrittenUpTo(topics: seq<Issue>, llm: Llm, lines0: seq<string>, i: nat, lines: seq<string>, current: Option<string>, pauses: nat)
  {
    && i <= |topics|
    && lines + AnalysesFrom(topics[i..], current, llm) == lines0 + Analyses(topics, llm)
    && pauses == if i < |topics| then i else if i == 0 then 0 else i - 1
  }

  /** One pass of the loop, with its pause after every topic but the last. */
  method WriteNext(topics: seq<Issue>, llm: Llm, ghost lines0: seq<string>, i: nat, lines: seq<string>, current: Option<string>, pauses: nat)
    returns (lines': seq<string>, current': Option<string>, pauses': nat)
    requires i < |topics| && WrittenUpTo(topics, llm, lines0, i, lines, current, pauses)
    ensures WrittenUpTo(topics, llm, lines0, i + 1, lines', current', pauses')
  {
    ghost var rest := topics[i..];
    assert rest[0] == topics[i] && rest[1..] == topics[i + 1..];
    assert AnalysesFrom(rest, current, llm) == Section(current, topics[i], llm) + AnalysesFrom(topics[i + 1..], Some(Category(topics[i])), llm);
    lines', current' := WriteTopic(topics[i], llm, lines, current);
    pauses' := if i + 1 < |topics| then pauses + 1 else pauses;
  }

  /** The loop of main over the topics: a header when the category changes, then the title
      and the analysis; a pause after every topic but the last. */
  method WriteAnalyses(topics: seq<Issue>, llm: Llm, lines0: seq<string>) returns (lines: seq<string>, pauses: nat)
    ensures lines == lines0 + Analyses(topics, llm)
    ensures pauses == if topics == [] then 0 else |topics| - 1
  {
    lines := lines0;
    pauses := 0;
    var current: Option<string> := None;
    for i := 0 to |topics|
      invariant WrittenUpTo(topics, llm, lines0, i, lines, current, pauses)
    {
      lines, current, pauses := WriteNext(topics, llm, lines0, i, lines, current, pauses);
    }
    assert topics[|topics|..] == [];
  }

  /** Four lines per topic and three per header. */
  lemma {:induction false} AnalysesLength(ts: seq<Issue>, current: Option<string>, llm: Llm)
    ensures |AnalysesFrom(ts, current, llm)| == 4 * |ts| + 3 * |SectionTitlesFrom(ts, current)|
  {
    if ts != [] {
      AnalysesLength(ts[1..], Some(Category(ts[0])), llm);
    }
  }

  /** No two headers in a row name the same category, and the first differs from the
      current one: one header per maximal run of a category. */
  lemma {:induction false} SectionTitlesRuns(ts: seq<Issue>, current: Option<string>)
    ensures var st := SectionTitlesFrom(ts, current);
      && (current.Some? && st != [] ==> st[0] != current.value)
      && forall j :: 0 <= j < |st| - 1 ==> st[j] != st[j + 1]
  {
    if ts != [] {
      SectionTitlesRuns(ts[1..], Some(Category(ts[0])));
    }
  }

  /** Within a run of one category no header opens. */
  lemma {:induction false} RunHasNoHeader(issues: seq<Issue>, tag: string, rest: seq<Issue>)
    ensures SectionTitlesFrom(Tagged(issues, tag) + rest, Some(tag)) == SectionTitlesFrom(rest, Some(tag))
  {
    if issues == [] {
      assert Tagged(issues, tag) + rest == rest;
    } else {
      var ts := Tagged(issues, tag) + rest;
      assert ts[0] == issues[0].(category := Some(tag));
      assert ts[1..] == Tagged(issues[1..], tag) + rest;
      RunHasNoHeader(issues[1..], tag, rest);
    }
  }

  /** A group whose category is not the current one opens one header, or none when it is
      empty. */
  lemma GroupHeader(issues: seq<Issue>, tag: string, rest: seq<Issue>, current: Option<string>)
    requires current != Some(tag)
    ensures SectionTitlesFrom(Tagged(issues, tag) + rest, current)
      == GroupTitle(issues, tag) + SectionTitlesFrom(rest, CategoryAfter(current, issues, tag))
  {
    if issues == [] {
      assert Tagged(issues, tag) + rest == rest;
    } else {
      var ts := Tagged(issues, tag) + rest;
      assert ts[0] == issues[0].(category := Some(tag));
      assert ts[1..] == Tagged(issues[1..], tag) + rest;
      RunHasNoHeader(issues[1..], tag, rest);
    }
  }

  /** Over the flattened issues, the report has exactly one section per non-empty
      category, in the fixed order of the four. */
  lemma FlattenedSections(data: IssueData)
    ensures SectionTitles(Flattened(data)) == PresentLabels(data)
  {
    LabelsDistinct();
    RunsOpenOneHeaderEach(Groups(data), GroupLabels, None);
    FourRuns(Groups(data), GroupLabels);
    FourRunTitles(Groups(data), GroupLabels);
  }

  /** The four groups in flattening order. */
  function Groups(data: IssueData): (r: seq<seq<Issue>>)
    ensures |r| == 4
  {
    [Group(data, GroupKeys[0]), Group(data, GroupKeys[1]), Group(data, GroupKeys[2]), Group(data, GroupKeys[3])]
  }

  /** Four runs written out. */
  lemma FourRuns(groups: seq<seq<Issue>>, tags: seq<string>)
    requires |groups| == |tags| == 4
    ensures Runs(groups, tags) == Tagged(groups[0], tags[0]) + Tagged(groups[1], tags[1]) + Tagged(groups[2], tags[2]) + Tagged(groups[3], tags[3])
  {
    RunsSplit(groups, tags, 0);
    RunsSplit(groups, tags, 1);
    RunsSplit(groups, tags, 2);
    RunsSplit(groups, tags, 3);
    assert groups[0..] == groups && tags[0..] == tags;
  }

  /** The headers of four runs written out. */
  lemma FourRunTitles(groups: seq<seq<Issue>>, tags: seq<string>)
    requires |groups| == |tags| == 4
    ensures RunTitles(groups, tags) == GroupTitle(groups[0], tags[0]) + GroupTitle(groups[1], tags[1]) + GroupTitle(groups[2], tags[2]) + GroupTitle(groups[3], tags[3])
  {
    RunTitlesSplit(groups, tags, 0);
    RunTitlesSplit(groups, tags, 1);
    RunTitlesSplit(groups, tags, 2);
    RunTitlesSplit(groups, tags, 3);
    assert groups[0..] == groups && tags[0..] == tags;
  }

  /** One step of the runs from the k-th group on. */
  lemma RunsSplit(groups: seq<seq<Issue>>, tags: seq<string>, k: nat)
    requires |groups| == |tags| && k < |groups|
    ensures Runs(groups[k..], tags[k..]) == Tagged(groups[k], tags[k]) + Runs(groups[k + 1..], tags[k + 1..])
  {
    assert groups[k..][1..] == groups[k + 1..] && tags[k..][1..] == tags[k + 1..];
  }

  lemma RunTitlesSplit(groups: seq<seq<Issue>>, tags: seq<string>, k: nat)
    requires |groups| == |tags| && k < |groups|
    ensures RunTitles(groups[k..], tags[k..]) == GroupTitle(groups[k], tags[k]) + RunTitles(groups[k + 1..], tags[k + 1..])
  {
    assert groups[k..][1..] == groups[k + 1..] && tags[k..][1..] == tags[k + 1..];
  }

  lemma LabelsDistinct()
    ensures forall i, j :: 0 <= i < j < 4 ==> GroupLabels[i] != GroupLabels[j]
  {
    assert GroupLabels[0][0] != GroupLabels[2][0] && GroupLabels[0][0] != GroupLabels[3][0];
    assert GroupLabels[1][0] != GroupLabels[2][0] && GroupLabels[1][0] != GroupLabels[3][0];
    assert |GroupLabels[0]| != |GroupLabels[1]| && |GroupLabels[2]| != |GroupLabels[3]|;
  }

  /** The labels of the non-empty groups, in flattening order. */
  function PresentLabels(data: IssueData): seq<string> {
    GroupTitle(Group(data, GroupKeys[0]), GroupLabels[0]) + GroupTitle(Group(data, GroupKeys[1]), GroupLabels[1])
      + GroupTitle(Group(data, GroupKeys[2]), GroupLabels[2]) + GroupTitle(Group(data, GroupKeys[3]), GroupLabels[3])
  }

  /** The category after a group: the group's when it has issues, else the one before. */
  function CategoryAfter(current: Option<string>, issues: seq<Issue>, tag: string): Option<string> {
    if issues == [] then current else Some(tag)
  }

  /** The header a group opens: its tag, or none when it is empty. */
  function GroupTitle(issues: seq<Issue>, tag: string): seq<string> {
    if issues == [] then [] else [tag]
  }

  /** Groups one after the other, each tagged with its own category. */
  function Runs(groups: seq<seq<Issue>>, tags: seq<string>): seq<Issue>
    requires |groups| == |tags|
  {
    if groups == [] then [] else Tagged(groups[0], tags[0]) + Runs(groups[1..], tags[1..])
  }

  /** The headers those groups open, one per non-empty group. */
  function RunTitles(groups: seq<seq<Issue>>, tags: seq<string>): seq<string>
    requires |groups| == |tags|
  {
    if groups == [] then [] else GroupTitle(groups[0], tags[0]) + RunTitles(groups[1..], tags[1..])
  }

  /** Runs of distinct categories, none of them the current one, open one header each
      when they are not empty. */
  lemma {:induction false} RunsOpenOneHeaderEach(groups: seq<seq<Issue>>, tags: seq<string>, current: Option<string>)
    requires |groups| == |tags|
    requires forall i, j :: 0 <= i < j < |tags| ==> tags[i] != tags[j]
    requires current.Some? ==> current.value !in tags
    ensures SectionTitlesFrom(Runs(groups, tags), current) == RunTitles(groups, tags)
  {
    if groups == [] {
    } else {
      var next := CategoryAfter(current, groups[0], tags[0]);
      GroupHeader(groups[0], tags[0], Runs(groups[1..], tags[1..]), current);
      RunsOpenOneHeaderEach(groups[1..], tags[1..], next);
    }
  }

  // ----- main -----

  /** The report's path. */
  const ReportFile := "output/INDEPTH_ANALYSIS_REPORT.txt"

  /** A name glob('output/news_log_*.txt') matches. */
  predicate MatchesLogGlob(name: string) {
    |name| >= |"news_log_"| + |".txt"| && StartsWith(name, "news_log_") && EndsWith(name, ".txt")
  }

  /** The paths the glob returns, in listing order. */
  function LogPaths(names: seq<string>): (r: seq<string>)
    ensures forall p :: p in r <==> exists n :: n in names && MatchesLogGlob(n) && p == NewsProcessing.InDir("output", n)
  {
    if names == [] then []
    else
      var last := names[|names| - 1];
      LogPaths(names[..|names| - 1]) + (if MatchesLogGlob(last) then [NewsProcessing.InDir("output", last)] else [])
  }

  /** How main ends: no log, a log that cannot be read or is empty, no issues, or the report
      written. The report's fixed framing lines are not part of `lines`. */
  datatype IndepthRun =
    | NoLogFiles
    | LoadFailed
    | NoIssues
    | Written(source: string, topics: seq<Issue>, categories: Tally, lines: seq<string>, pauses: nat)

  /** main, as a value. */
  function Indepth(names: seq<string>, load: string -> Option<string>, llm: Llm, decode: Decoder): IndepthRun {
    var paths := LogPaths(names);
    if paths == [] then NoLogFiles
    else
      var latest := NewsProcessing.Greatest(paths);
      match load(latest)
      case None => LoadFailed
      case Some(content) =>
        if content == "" then LoadFailed
        else Report(latest, KeyIssues(content, llm, decode), llm)
  }

  /** The end of main once the issues are extracted: none is the same as a failed
      extraction; otherwise the counts and the analysis sections. */
  function Report(source: string, topics: Option<seq<Issue>>, llm: Llm): IndepthRun {
    match topics
    case None => NoIssues
    case Some(ts) =>
      if ts == [] then NoIssues
      else Written(source, ts, TallyOf(Categories(ts)), Analyses(ts, llm), |ts| - 1)
  }

  /** main(): the latest news log by name, its issues, the per-category counts and the
      analysis sections. */
  method GenerateReport(names: seq<string>, load: string -> Option<string>, llm: Llm, decode: Decoder)
    returns (run: IndepthRun)
    ensures run == Indepth(names, load, llm, decode)
  {
    var paths := LogPaths(names);
    if paths == [] {
      return NoLogFiles;
    }
    var latest := NewsProcessing.Greatest(paths);
    var loaded := load(latest);
    if loaded.None? || loaded.value == "" {
      return LoadFailed;
    }
    var topics := ExtractKeyIssues(loaded.value, llm, decode);
    run := WriteReport(latest, topics, llm);
  }

  /** The counting and the loop over the topics. */
  method WriteReport(source: string, topics: Option<seq<Issue>>, llm: Llm) returns (run: IndepthRun)
    ensures run == Report(source, topics, llm)
  {
    if topics.None? || topics.value == [] {
      return NoIssues;
    }
    var categories := CountCategories(topics.value);
    var lines, pauses := WriteAnalyses(topics.value, llm, []);
    return Written(source, topics.value, categories, lines, pauses);
  }

  /** A written report comes from the greatest log path, has at least one topic, counts
      that add up to the number of topics, four lines per topic and three per section, and
      one pause fewer than topics. */
  lemma WrittenReport(names: seq<string>, load: string -> Option<string>, llm: Llm, decode: Decoder)
    ensures var run := Indepth(names, load, llm, decode);
      run.Written? ==>
        && run.source in LogPaths(names)
        && (forall p :: p in LogPaths(names) ==> p == run.source || LexLess(p, run.source))
        && run.topics != []
        && Total(run.categories) == |run.topics|
        && |run.lines| == 4 * |run.topics| + 3 * |SectionTitles(run.topics)|
        && run.pauses + 1 == |run.topics|
  {
    var run := Indepth(names, load, llm, decode);
    if run.Written? {
      TallySpec(Categories(run.topics));
      AnalysesLength(run.topics, None, llm);
    }
  }

  /** The logs the collection step writes are found by the glob. */
  lemma CollectorLogsMatch(name: string, day: string)
    requires |day| == 8 && name == "news_log" + "_" + day + ".txt"
    ensures MatchesLogGlob(name)
  {
    assert name[..9] == "news_log_";
    assert name[|name| - 4..] == ".txt";
  }
}
