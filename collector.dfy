/** The collection run: both crawlers' collectors, duplicate removal by title, the sort
    by date (newest first), the text report and the file it is saved under. The current
    time, the crawlers' responses and the configuration values are parameters. */
module Collector {
  import opened Wrappers
  import opened Text
  import opened Dates
  import opened News
  import NaverNews
  import YahooFinance

  // ----- remove_duplicates -----

  /** The key two records are duplicates by: the lower-cased, stripped title. */
  function TitleKey(r: NewsRecord): string {
    Strip(Lower(r.title))
  }

  /** TitleKey as a value, the key the run removes duplicates by. */
  function ByTitle(): NewsRecord -> string {
    r => TitleKey(r)
  }

  function Keys(xs: seq<NewsRecord>, key: NewsRecord -> string): set<string> {
    set x | x in xs :: key(x)
  }

  /** The list with every element whose key an earlier element already has left out. */
  function Dedup(xs: seq<NewsRecord>, key: NewsRecord -> string): (d: seq<NewsRecord>)
    ensures |d| <= |xs|
    ensures forall x :: x in d ==> x in xs
  {
    if xs == [] then []
    else
      var init := xs[..|xs| - 1];
      var last := xs[|xs| - 1];
      if key(last) in Keys(init, key) then Dedup(init, key) else Dedup(init, key) + [last]
  }

  lemma KeysAppend(xs: seq<NewsRecord>, x: NewsRecord, key: NewsRecord -> string)
    ensures Keys(xs + [x], key) == Keys(xs, key) + {key(x)}
  {
    assert forall y :: y in xs + [x] <==> y in xs || y == x;
  }

  lemma DedupSnoc(xs: seq<NewsRecord>, x: NewsRecord, key: NewsRecord -> string)
    ensures Dedup(xs + [x], key) == if key(x) in Keys(xs, key) then Dedup(xs, key) else Dedup(xs, key) + [x]
  {
    assert (xs + [x])[..|xs|] == xs;
  }

  /** The loop of remove_duplicates over any key: one pass with the set of keys seen so
      far, appending each element whose key is new. */
  method KeepFirstOfEachKey(news: seq<NewsRecord>, key: NewsRecord -> string) returns (unique: seq<NewsRecord>, seen: set<string>)
    ensures unique == Dedup(news, key)
    ensures seen == Keys(news, key)
  {
    seen := {};
    unique := [];
    var i := 0;
    while i < |news|
      invariant 0 <= i <= |news|
      invariant unique == Dedup(news[..i], key)
      invariant seen == Keys(news[..i], key)
    {
      assert news[..i + 1] == news[..i] + [news[i]];
      DedupSnoc(news[..i], news[i], key);
      KeysAppend(news[..i], news[i], key);
      var k := key(news[i]);
      if k !in seen {
        seen := seen + {k};
        unique := unique + [news[i]];
      }
      i := i + 1;
    }
    assert news[..i] == news;
  }

  /** remove_duplicates: the first record with each lower-cased, stripped title is kept, in
      order; `removed` is the count it logs. */
  method RemoveDuplicates(news: seq<NewsRecord>) returns (unique: seq<NewsRecord>, removed: nat)
    ensures unique == Dedup(news, ByTitle())
    ensures removed == |news| - |unique|
  {
    var seen;
    unique, seen := KeepFirstOfEachKey(news, ByTitle());
    removed := |news| - |unique|;
  }

  /** Index `i` holds the first element of `xs` with its key. */
  predicate IsFirst(xs: seq<NewsRecord>, i: int, key: NewsRecord -> string) {
    0 <= i < |xs| && forall j :: 0 <= j < i ==> key(xs[j]) != key(xs[i])
  }

  /** No two kept elements share a key. */
  lemma {:induction false} DedupDistinct(xs: seq<NewsRecord>, key: NewsRecord -> string)
    ensures forall i, j :: 0 <= i < j < |Dedup(xs, key)| ==> key(Dedup(xs, key)[i]) != key(Dedup(xs, key)[j])
  {
    if xs != [] {
      var init := xs[..|xs| - 1];
      DedupDistinct(init, key);
      DedupKeys(init, key);
    }
  }

  /** Removing duplicates loses no key. */
  lemma {:induction false} DedupKeys(xs: seq<NewsRecord>, key: NewsRecord -> string)
    ensures Keys(Dedup(xs, key), key) == Keys(xs, key)
  {
    if xs != [] {
      var init := xs[..|xs| - 1];
      var last := xs[|xs| - 1];
      assert xs == init + [last];
      DedupKeys(init, key);
      KeysAppend(init, last, key);
      KeysAppend(Dedup(init, key), last, key);
    }
  }

  /** The kept elements are exactly the first occurrences of their keys, in their original
      order: `idx` lists their positions in `xs`, increasing. */
  lemma {:induction false} DedupKeepsFirsts(xs: seq<NewsRecord>, key: NewsRecord -> string) returns (idx: seq<int>)
    ensures |idx| == |Dedup(xs, key)|
    ensures forall k :: 0 <= k < |idx| ==> IsFirst(xs, idx[k], key) && Dedup(xs, key)[k] == xs[idx[k]]
    ensures forall k, l :: 0 <= k < l < |idx| ==> idx[k] < idx[l]
    ensures forall i :: IsFirst(xs, i, key) ==> i in idx
  {
    if xs == [] {
      idx := [];
    } else {
      var n := |xs| - 1;
      var prev := DedupKeepsFirsts(xs[..n], key);
      FirstsOfPrefix(xs, n, key);
      LastIsFirst(xs, key);
      if key(xs[n]) in Keys(xs[..n], key) {
        idx := prev;
      } else {
        idx := prev + [n];
      }
    }
  }

  /** Before position n, being the first of its key does not depend on what follows. */
  lemma FirstsOfPrefix(xs: seq<NewsRecord>, n: nat, key: NewsRecord -> string)
    requires n <= |xs|
    ensures forall i :: 0 <= i < n ==> (IsFirst(xs, i, key) <==> IsFirst(xs[..n], i, key))
  {
    forall i | 0 <= i < n ensures IsFirst(xs, i, key) <==> IsFirst(xs[..n], i, key) {
      assert forall j :: 0 <= j <= i ==> xs[j] == xs[..n][j];
    }
  }

  /** The last element is the first of its key exactly when no earlier one has that key. */
  lemma LastIsFirst(xs: seq<NewsRecord>, key: NewsRecord -> string)
    requires xs != []
    ensures IsFirst(xs, |xs| - 1, key) <==> key(xs[|xs| - 1]) !in Keys(xs[..|xs| - 1], key)
  {
    var n := |xs| - 1;
    var init := xs[..n];
    if key(xs[n]) in Keys(init, key) {
      var y :| y in init && key(y) == key(xs[n]);
      var j :| 0 <= j < n && init[j] == y;
      assert xs[j] == y;
    } else {
      forall j | 0 <= j < n ensures key(xs[j]) != key(xs[n]) {
        assert xs[j] == init[j] && init[j] in init;
      }
    }
  }

  /** A list without duplicate keys is left as it is. */
  lemma {:induction false} DedupOfDistinct(xs: seq<NewsRecord>, key: NewsRecord -> string)
    requires forall i, j :: 0 <= i < j < |xs| ==> key(xs[i]) != key(xs[j])
    ensures Dedup(xs, key) == xs
  {
    if xs != [] {
      var init := xs[..|xs| - 1];
      var last := xs[|xs| - 1];
      DedupOfDistinct(init, key);
      assert key(last) !in Keys(init, key) by {
        forall y | y in init ensures key(y) != key(last) {
          var j :| 0 <= j < |init| && init[j] == y;
          assert xs[j] == y;
        }
      }
      assert xs == init + [last];
    }
  }

  /** Removing duplicates twice is removing them once. */
  lemma DedupIdempotent(xs: seq<NewsRecord>, key: NewsRecord -> string)
    ensures Dedup(Dedup(xs, key), key) == Dedup(xs, key)
  {
    DedupDistinct(xs, key);
    DedupOfDistinct(Dedup(xs, key), key);
  }

  /** Of two elements with the same key, the one from the earlier list is kept: a kept
      element whose key occurs in `a` comes from `a`. */
  lemma EarlierListWins(a: seq<NewsRecord>, b: seq<NewsRecord>, x: NewsRecord, key: NewsRecord -> string)
    requires x in Dedup(a + b, key) && key(x) in Keys(a, key)
    ensures x in a
  {
    var xs := a + b;
    var idx := DedupKeepsFirsts(xs, key);
    var k :| 0 <= k < |Dedup(xs, key)| && Dedup(xs, key)[k] == x;
    var i := idx[k];
    assert IsFirst(xs, i, key) && xs[i] == x;
    var y :| y in a && key(y) == key(x);
    var j :| 0 <= j < |a| && a[j] == y;
    assert xs[j] == y;
    assert key(xs[j]) == key(xs[i]);
    assert i <= j;
    assert xs[i] == a[i];
  }

  /** The first element of a list is always kept. */
  lemma FirstIsKept(xs: seq<NewsRecord>, key: NewsRecord -> string)
    requires xs != []
    ensures xs[0] in Dedup(xs, key)
  {
    var idx := DedupKeepsFirsts(xs, key);
    assert IsFirst(xs, 0, key);
    var k :| 0 <= k < |idx| && idx[k] == 0;
    assert Dedup(xs, key)[k] == xs[0];
  }

  /** A list whose keys are pairwise distinct has as many keys as elements. */
  lemma {:induction false} DistinctKeysCount(xs: seq<NewsRecord>, key: NewsRecord -> string)
    requires forall i, j :: 0 <= i < j < |xs| ==> key(xs[i]) != key(xs[j])
    ensures |Keys(xs, key)| == |xs|
  {
    if xs != [] {
      var init, last := xs[..|xs| - 1], xs[|xs| - 1];
      DistinctKeysInit(xs, init, last, key);
      DistinctKeysCount(init, key);
      assert xs == init + [last];
      KeysAppend(init, last, key);
    }
  }

  /** The elements before the last of a list with distinct keys have distinct keys, none of
      them the last one's. */
  lemma DistinctKeysInit(xs: seq<NewsRecord>, init: seq<NewsRecord>, last: NewsRecord, key: NewsRecord -> string)
    requires xs == init + [last]
    requires forall i, j :: 0 <= i < j < |xs| ==> key(xs[i]) != key(xs[j])
    ensures forall i, j :: 0 <= i < j < |init| ==> key(init[i]) != key(init[j])
    ensures key(last) !in Keys(init, key)
  {
    assert forall i :: 0 <= i < |init| ==> init[i] == xs[i];
    assert xs[|init|] == last;
    forall y | y in init ensures key(y) != key(last) {
      var j :| 0 <= j < |init| && init[j] == y;
      assert xs[j] == y;
    }
  }

  /** The list without duplicates has exactly one record per distinct key. */
  lemma DedupCount(xs: seq<NewsRecord>, key: NewsRecord -> string)
    ensures |Dedup(xs, key)| == |Keys(xs, key)|
  {
    DedupDistinct(xs, key);
    DedupKeys(xs, key);
    DistinctKeysCount(Dedup(xs, key), key);
  }

  // ----- sort_news_by_date -----

  /** The date of a record as the sort key reads it. */
  function DateKey(): NewsRecord -> Option<DateTime> {
    r => DateOf(r)
  }

  /** Every key is present: the sort raises on none of them. */
  predicate Dated(rs: seq<NewsRecord>, key: NewsRecord -> Option<DateTime>) {
    forall r :: r in rs ==> key(r).Some?
  }

  /** Newest first: no record is older than a later one. */
  predicate NewestFirst(rs: seq<NewsRecord>, key: NewsRecord -> Option<DateTime>)
    requires Dated(rs, key)
  {
    forall i, j :: 0 <= i < j < |rs| ==> !Before(key(rs[i]).value, key(rs[j]).value)
  }

  /** Inserts `x` after every record not older than it. */
  function InsertNewestFirst(s: seq<NewsRecord>, x: NewsRecord, key: NewsRecord -> Option<DateTime>): (r: seq<NewsRecord>)
    requires Dated(s, key) && key(x).Some?
    ensures multiset(r) == multiset(s) + multiset{x}
    ensures Dated(r, key)
  {
    if s == [] then [x]
    else if Before(key(s[0]).value, key(x).value) then [x] + s
    else
      assert s == [s[0]] + s[1..];
      [s[0]] + InsertNewestFirst(s[1..], x, key)
  }

  /** Insertion sort from the front of the list: a stable sort, newest first. */
  function SortNewestFirst(rs: seq<NewsRecord>, key: NewsRecord -> Option<DateTime>): (r: seq<NewsRecord>)
    requires Dated(rs, key)
    ensures multiset(r) == multiset(rs)
    ensures Dated(r, key)
  {
    if rs == [] then []
    else
      assert rs == rs[..|rs| - 1] + [rs[|rs| - 1]];
      InsertNewestFirst(SortNewestFirst(rs[..|rs| - 1], key), rs[|rs| - 1], key)
  }

  /** sorted(news, key=date, reverse=True), or the list unchanged when a date does not read
      (the ValueError the handler catches). */
  function SortByDate(rs: seq<NewsRecord>, key: NewsRecord -> Option<DateTime>): seq<NewsRecord> {
    if Dated(rs, key) then SortNewestFirst(rs, key) else rs
  }

  /** sort_news_by_date */
  function SortNewsByDate(rs: seq<NewsRecord>): seq<NewsRecord> {
    SortByDate(rs, DateKey())
  }

  /** The records after the first of a dated, newest-first list are dated and newest first. */
  lemma TailNewestFirst(s: seq<NewsRecord>, key: NewsRecord -> Option<DateTime>)
    requires s != [] && Dated(s, key) && NewestFirst(s, key)
    ensures Dated(s[1..], key) && NewestFirst(s[1..], key)
  {
    var t := s[1..];
    assert Dated(t, key) by { forall r | r in t ensures key(r).Some? { assert r in s; } }
    forall i, j | 0 <= i < j < |t| ensures !Before(key(t[i]).value, key(t[j]).value) {
      assert t[i] == s[i + 1] && t[j] == s[j + 1];
    }
  }

  lemma {:induction false} InsertKeepsOrder(s: seq<NewsRecord>, x: NewsRecord, key: NewsRecord -> Option<DateTime>)
    requires Dated(s, key) && key(x).Some? && NewestFirst(s, key)
    ensures NewestFirst(InsertNewestFirst(s, x, key), key)
  {
    if s == [] {
      assert InsertNewestFirst(s, x, key) == [x];
    } else if Before(key(s[0]).value, key(x).value) {
      assert InsertNewestFirst(s, x, key) == [x] + s;
      BeforeIsStrictTotalOrder();
      forall k | 0 <= k < |s| ensures !Before(key(x).value, key(s[k]).value) {
        if k > 0 {
          assert !Before(key(s[0]).value, key(s[k]).value);
        }
      }
      ConsKeepsOrder(x, s, key);
    } else {
      var h, t := s[0], s[1..];
      TailNewestFirst(s, key);
      InsertKeepsOrder(t, x, key);
      var r := InsertNewestFirst(t, x, key);
      assert InsertNewestFirst(s, x, key) == [h] + r;
      forall k | 0 <= k < |r| ensures !Before(key(h).value, key(r[k]).value) {
        assert r[k] in multiset(r);
        assert r[k] in t || r[k] == x;
        if r[k] in t {
          var j :| 0 <= j < |t| && t[j] == r[k];
          assert s[j + 1] == r[k];
        }
      }
      ConsKeepsOrder(h, r, key);
    }
  }

  /** A record not older than any of a newest-first list may go in front of it. */
  lemma ConsKeepsOrder(h: NewsRecord, r: seq<NewsRecord>, key: NewsRecord -> Option<DateTime>)
    requires key(h).Some? && Dated(r, key) && NewestFirst(r, key)
    requires forall k :: 0 <= k < |r| ==> !Before(key(h).value, key(r[k]).value)
    ensures Dated([h] + r, key) && NewestFirst([h] + r, key)
  {
    var c := [h] + r;
    assert forall k :: 0 < k < |c| ==> c[k] == r[k - 1];
    forall i, j | 0 <= i < j < |c| ensures !Before(key(c[i]).value, key(c[j]).value) {
      if i > 0 {
        assert c[i] == r[i - 1];
      }
    }
  }

  /** The sort puts every record after every record not older than it. */
  lemma {:induction false} SortIsNewestFirst(rs: seq<NewsRecord>, key: NewsRecord -> Option<DateTime>)
    requires Dated(rs, key)
    ensures NewestFirst(SortNewestFirst(rs, key), key)
  {
    if rs != [] {
      var init := rs[..|rs| - 1];
      assert Dated(init, key) by { forall r | r in init ensures key(r).Some? { assert r in rs; } }
      SortIsNewestFirst(init, key);
      InsertKeepsOrder(SortNewestFirst(init, key), rs[|rs| - 1], key);
    }
  }

  /** The records of `rs` dated `d`, in order. */
  function WithDate(rs: seq<NewsRecord>, d: DateTime, key: NewsRecord -> Option<DateTime>): seq<NewsRecord> {
    if rs == [] then []
    else (if key(rs[0]) == Some(d) then [rs[0]] else []) + WithDate(rs[1..], d, key)
  }

  lemma {:induction false} WithDateAppend(a: seq<NewsRecord>, b: seq<NewsRecord>, d: DateTime, key: NewsRecord -> Option<DateTime>)
    ensures WithDate(a + b, d, key) == WithDate(a, d, key) + WithDate(b, d, key)
  {
    if a == [] {
      assert a + b == b;
    } else {
      assert (a + b)[0] == a[0] && (a + b)[1..] == a[1..] + b;
      WithDateAppend(a[1..], b, d, key);
    }
  }

  /** Inserting puts `x` after the records with its own date. */
  lemma {:induction false} InsertAfterEqual(s: seq<NewsRecord>, x: NewsRecord, d: DateTime, key: NewsRecord -> Option<DateTime>)
    requires Dated(s, key) && key(x).Some? && NewestFirst(s, key)
    ensures WithDate(InsertNewestFirst(s, x, key), d, key) == WithDate(s, d, key) + (if key(x) == Some(d) then [x] else [])
  {
    if s == [] {
      InsertAtFront(s, x, d, key);
      assert InsertNewestFirst(s, x, key) == [x] + s;
    } else if Before(key(s[0]).value, key(x).value) {
      InsertAtFront(s, x, d, key);
      assert InsertNewestFirst(s, x, key) == [x] + s;
    } else {
      var h, t := s[0], s[1..];
      TailNewestFirst(s, key);
      InsertAfterEqual(t, x, d, key);
      var r := InsertNewestFirst(t, x, key);
      assert InsertNewestFirst(s, x, key) == [h] + r;
      WithDateCons(h, r, d, key);
      assert s == [h] + t;
      WithDateCons(h, t, d, key);
      AppendAssoc(if key(h) == Some(d) then [h] else [], WithDate(t, d, key), if key(x) == Some(d) then [x] else []);
    }
  }

  /** Inserting before every record: the new record comes after the others dated `d`,
      which are none when it is dated `d` itself. */
  lemma InsertAtFront(s: seq<NewsRecord>, x: NewsRecord, d: DateTime, key: NewsRecord -> Option<DateTime>)
    requires Dated(s, key) && key(x).Some? && NewestFirst(s, key)
    requires s == [] || Before(key(s[0]).value, key(x).value)
    ensures WithDate([x] + s, d, key) == WithDate(s, d, key) + (if key(x) == Some(d) then [x] else [])
  {
    WithDateCons(x, s, d, key);
    if key(x) == Some(d) && s != [] {
      NoneWithDate(s, d, key);
    }
  }

  lemma WithDateCons(h: NewsRecord, r: seq<NewsRecord>, d: DateTime, key: NewsRecord -> Option<DateTime>)
    ensures WithDate([h] + r, d, key) == (if key(h) == Some(d) then [h] else []) + WithDate(r, d, key)
  {
    assert ([h] + r)[0] == h && ([h] + r)[1..] == r;
  }

  /** A newest-first list whose head is older than `d` holds nothing dated `d`. */
  lemma NoneWithDate(s: seq<NewsRecord>, d: DateTime, key: NewsRecord -> Option<DateTime>)
    requires Dated(s, key) && NewestFirst(s, key) && s != [] && Before(key(s[0]).value, d)
    ensures WithDate(s, d, key) == []
  {
    BeforeIsStrictTotalOrder();
    forall i | 0 <= i < |s| ensures key(s[i]) != Some(d) {
      if i > 0 {
        assert !Before(key(s[0]).value, key(s[i]).value);
      }
    }
    NoneWithDateHelper(s, d, key);
  }

  lemma {:induction false} NoneWithDateHelper(s: seq<NewsRecord>, d: DateTime, key: NewsRecord -> Option<DateTime>)
    requires forall i :: 0 <= i < |s| ==> key(s[i]) != Some(d)
    ensures WithDate(s, d, key) == []
  {
    if s != [] {
      NoneWithDateHelper(s[1..], d, key);
    }
  }

  /** The sort is stable: the records sharing a date keep their relative order. */
  lemma {:induction false} SortIsStable(rs: seq<NewsRecord>, d: DateTime, key: NewsRecord -> Option<DateTime>)
    requires Dated(rs, key)
    ensures WithDate(SortNewestFirst(rs, key), d, key) == WithDate(rs, d, key)
  {
    if rs != [] {
      var init := rs[..|rs| - 1];
      var last := rs[|rs| - 1];
      assert rs == init + [last];
      DatedPrefix(rs, key);
      SortIsStable(init, d, key);
      SortStep(init, last, d, key);
    }
  }

  lemma DatedPrefix(rs: seq<NewsRecord>, key: NewsRecord -> Option<DateTime>)
    requires Dated(rs, key) && rs != []
    ensures Dated(rs[..|rs| - 1], key) && key(rs[|rs| - 1]).Some?
  {
    forall r | r in rs[..|rs| - 1] ensures key(r).Some? { assert r in rs; }
  }

  lemma SortStep(init: seq<NewsRecord>, last: NewsRecord, d: DateTime, key: NewsRecord -> Option<DateTime>)
    requires Dated(init, key) && key(last).Some?
    requires WithDate(SortNewestFirst(init, key), d, key) == WithDate(init, d, key)
    ensures Dated(init + [last], key)
    ensures WithDate(SortNewestFirst(init + [last], key), d, key) == WithDate(init + [last], d, key)
  {
    var rs := init + [last];
    assert rs[..|rs| - 1] == init && rs[|rs| - 1] == last;
    SortIsNewestFirst(init, key);
    InsertAfterEqual(SortNewestFirst(init, key), last, d, key);
    WithDateAppend(init, [last], d, key);
    assert WithDate([last], d, key) == (if key(last) == Some(d) then [last] else []);
  }

  /** When every date reads, the result is newest first, a permutation of the input, and
      stable; otherwise it is the input. */
  lemma SortByDateSpec(rs: seq<NewsRecord>, key: NewsRecord -> Option<DateTime>)
    ensures Dated(rs, key) ==> Dated(SortByDate(rs, key), key) && NewestFirst(SortByDate(rs, key), key)
    ensures multiset(SortByDate(rs, key)) == multiset(rs)
    ensures Dated(rs, key) ==> forall d :: WithDate(SortByDate(rs, key), d, key) == WithDate(rs, d, key)
    ensures !Dated(rs, key) ==> SortByDate(rs, key) == rs
  {
    if Dated(rs, key) {
      SortIsNewestFirst(rs, key);
      forall d ensures WithDate(SortByDate(rs, key), d, key) == WithDate(rs, d, key) {
        SortIsStable(rs, d, key);
      }
    }
  }

  // ----- save_news_to_file -----

  /** One "[Tag: value]" line of the report. */
  function Field(tag: string, value: string): string {
    "[" + tag + ": " + value + "]\n"
  }

  /** The title line, the time of writing, the article count and the rule of '='. */
  function Header(count: nat, stamp: string): string {
    "Financial News Report\n" + "Generated: " + stamp + "\n"
      + "Total Articles: " + Show(count) + "\n" + Repeat('=', 80) + "\n\n"
  }

  /** The block of one record: the URL line is written only when the url is non-empty. */
  function Block(r: NewsRecord): string {
    Field("Date", r.date) + Field("Title", r.title) + Field("Source", r.source)
      + (if r.url != "" then Field("URL", r.url) else "")
      + Field("Content", r.content) + Repeat('-', 80) + "\n\n"
  }

  function Blocks(rs: seq<NewsRecord>): string {
    if rs == [] then "" else Block(rs[0]) + Blocks(rs[1..])
  }

  /** The text of the report file for the list, written at `generated`. */
  function Report(rs: seq<NewsRecord>, generated: DateTime): string
    requires Valid(generated)
  {
    Header(|rs|, Strftime(DateSecond, generated)) + Blocks(rs)
  }

  lemma {:induction false} BlocksAppend(a: seq<NewsRecord>, b: seq<NewsRecord>)
    ensures Blocks(a + b) == Blocks(a) + Blocks(b)
  {
    if a == [] {
      assert a + b == b;
    } else {
      assert (a + b)[0] == a[0] && (a + b)[1..] == a[1..] + b;
      BlocksAppend(a[1..], b);
      AppendAssoc(Block(a[0]), Blocks(a[1..]), Blocks(b));
    }
  }

  /** The writes of save_news_to_file: the header, then one block per record in list order. */
  method SaveNewsToFile(news: seq<NewsRecord>, generated: DateTime) returns (text: string)
    requires Valid(generated)
    ensures text == Report(news, generated)
  {
    var stamp := Strftime(DateSecond, generated);
    text := WriteHeader(|news|, stamp);
    assert text == Header(|news|, stamp) + Blocks(news[..0]);
    var i := 0;
    while i < |news|
      invariant 0 <= i <= |news|
      invariant text == Header(|news|, stamp) + Blocks(news[..i])
    {
      BlocksStep(Header(|news|, stamp), news, i);
      text := WriteBlock(text, news[i]);
      i := i + 1;
    }
    assert news[..i] == news;
  }

  /** The writes before the first record. */
  method WriteHeader(count: nat, stamp: string) returns (text: string)
    ensures text == Header(count, stamp)
  {
    text := "Financial News Report\n";
    text := text + "Generated: " + stamp + "\n";
    text := text + "Total Articles: " + Show(count) + "\n";
    text := text + Repeat('=', 80) + "\n\n";
  }

  /** The writes for one record, appended to the text written so far. */
  method WriteBlock(before: string, r: NewsRecord) returns (text: string)
    ensures text == before + Block(r)
  {
    text := before + Field("Date", r.date);
    text := text + Field("Title", r.title);
    text := text + Field("Source", r.source);
    if r.url != "" {
      text := text + Field("URL", r.url);
    }
    text := text + Field("Content", r.content);
    text := text + Repeat('-', 80) + "\n\n";
    BlockWrites(before, r);
  }

  /** Writing the lines of a block one after the other appends the block. */
  lemma BlockWrites(before: string, r: NewsRecord)
    ensures r.url != "" ==>
      (before + Field("Date", r.date) + Field("Title", r.title) + Field("Source", r.source)
       + Field("URL", r.url) + Field("Content", r.content) + Repeat('-', 80) + "\n\n" == before + Block(r))
    ensures r.url == "" ==>
      (before + Field("Date", r.date) + Field("Title", r.title) + Field("Source", r.source)
       + Field("Content", r.content) + Repeat('-', 80) + "\n\n" == before + Block(r))
  {
    var date, title, source, content := Field("Date", r.date), Field("Title", r.title), Field("Source", r.source), Field("Content", r.content);
    var url := if r.url != "" then Field("URL", r.url) else "";
    var rule, gap := Repeat('-', 80), "\n\n";
    assert Block(r) == date + title + source + url + content + rule + gap;
    Regroup(before, date, title, source, url, content, rule, gap);
    if r.url == "" {
      assert before + date + title + source + url == before + date + title + source;
    }
  }

  /** Appending seven pieces one by one appends their concatenation. */
  lemma Regroup(x: string, a: string, b: string, c: string, d: string, e: string, f: string, g: string)
    ensures x + a + b + c + d + e + f + g == x + (a + b + c + d + e + f + g)
  {
  }

  lemma BlocksStep(head: string, rs: seq<NewsRecord>, i: nat)
    requires i < |rs|
    ensures head + Blocks(rs[..i]) + Block(rs[i]) == head + Blocks(rs[..i + 1])
  {
    BlocksSnoc(rs[..i], rs[i]);
    assert rs[..i + 1] == rs[..i] + [rs[i]];
    AppendAssoc(head, Blocks(rs[..i]), Block(rs[i]));
  }

  lemma BlocksSnoc(rs: seq<NewsRecord>, r: NewsRecord)
    ensures Blocks(rs + [r]) == Blocks(rs) + Block(r)
  {
    BlocksAppend(rs, [r]);
    var b := Block(r);
    assert [r][1..] == [];
    assert Blocks([r]) == b + Blocks([]);
    assert b + [] == b;
  }

  // Reading a report back.

  /** The index of the first newline at or after i, or |s|. */
  function LineEnd(s: string, i: nat): (e: nat)
    requires i <= |s|
    ensures i <= e <= |s|
    ensures forall j :: i <= j < e ==> s[j] != '\n'
    ensures e < |s| ==> s[e] == '\n'
    decreases |s| - i
  {
    if i == |s| || s[i] == '\n' then i else LineEnd(s, i + 1)
  }

  /** The first line of `s` and the text after its newline; None when `s` has no newline. */
  function NextLine(s: string): (r: Option<(string, string)>)
    ensures r.Some? ==> |r.value.1| < |s|
  {
    var e := LineEnd(s, 0);
    if e == |s| then None else Some((s[..e], s[e + 1..]))
  }

  lemma NextLineOf(line: string, rest: string)
    requires '\n' !in line
    ensures NextLine(line + "\n" + rest) == Some((line, rest))
  {
    var s := line + "\n" + rest;
    var e := LineEnd(s, 0);
    assert s[|line|] == '\n';
    assert s[..|line|] == line && s[|line| + 1..] == rest;
  }

  /** The value of a "[Tag: value]" line. */
  function Unfield(tag: string, line: string): Option<string> {
    var open := "[" + tag + ": ";
    if |open| < |line| && line[..|open|] == open && line[|line| - 1] == ']' then Some(line[|open|..|line| - 1])
    else None
  }

  /** The value of the first line of `s` read as a "[Tag: value]" line, and the text after it. */
  function ReadField(tag: string, s: string): (r: Option<(string, string)>)
    ensures r.Some? ==> |r.value.1| < |s|
  {
    match NextLine(s)
    case None => None
    case Some((line, rest)) =>
      match Unfield(tag, line)
      case None => None
      case Some(v) => Some((v, rest))
  }

  lemma ReadFieldOf(tag: string, value: string, rest: string)
    requires '\n' !in tag && '\n' !in value
    ensures ReadField(tag, Field(tag, value) + rest) == Some((value, rest))
  {
    var line := "[" + tag + ": " + value + "]";
    assert Field(tag, value) + rest == line + "\n" + rest;
    NextLineOf(line, rest);
    var open := "[" + tag + ": ";
    assert line[..|open|] == open && line[|open|..|line| - 1] == value;
  }

  /** A content line is not read as a URL line. */
  lemma ContentIsNoUrl(value: string, rest: string)
    requires '\n' !in value
    ensures ReadField("URL", Field("Content", value) + rest) == None
  {
    var line := "[Content: " + value + "]";
    assert Field("Content", value) + rest == line + "\n" + rest;
    NextLineOf(line, rest);
    assert line[1] == 'C';
  }

  /** The value of a URL line, when the first line is one, and the text after it. */
  function ReadUrl(s: string): (r: (string, string))
    ensures |r.1| <= |s|
  {
    match ReadField("URL", s)
    case Some(u) => u
    case None => ("", s)
  }

  /** The text after the rule of '-' and the blank line that end a block. */
  function ReadRule(s: string): (r: Option<string>)
    ensures r.Some? ==> |r.value| < |s|
  {
    match NextLine(s)
    case None => None
    case Some((rule, s1)) =>
      match NextLine(s1)
      case None => None
      case Some((blank, s2)) => if rule == Repeat('-', 80) && blank == "" then Some(s2) else None
  }

  /** One block, and the text after it. */
  function ReadBlock(s: string): (r: Option<(NewsRecord, string)>)
    ensures r.Some? ==> |r.value.1| < |s|
  {
    match ReadField("Date", s)
    case None => None
    case Some((date, s1)) =>
      match ReadField("Title", s1)
      case None => None
      case Some((title, s2)) =>
        match ReadField("Source", s2)
        case None => None
        case Some((source, s3)) =>
          var (url, s4) := ReadUrl(s3);
          match ReadField("Content", s4)
          case None => None
          case Some((content, s5)) =>
            match ReadRule(s5)
            case None => None
            case Some(s6) => Some((NewsRecord(date, title, content, source, url), s6))
  }

  /** Blocks up to the end of the text. */
  function ReadBlocks(s: string): Option<seq<NewsRecord>>
    decreases |s|
  {
    if s == [] then Some([])
    else match ReadBlock(s)
      case None => None
      case Some((r, rest)) =>
        match ReadBlocks(rest)
        case None => None
        case Some(rs) => Some([r] + rs)
  }

  /** What a report says: when it was written, its article count and its records. */
  datatype ReportContents = ReportContents(generated: DateTime, total: nat, news: seq<NewsRecord>)

  /** The time of writing and the article count of the header, and the text after it. */
  function ReadHeader(s: string): Option<(DateTime, nat, string)> {
    match NextLine(s)
    case None => None
    case Some((title, s1)) =>
      match NextLine(s1)
      case None => None
      case Some((stamp, s2)) =>
        match NextLine(s2)
        case None => None
        case Some((count, s3)) =>
          match NextLine(s3)
          case None => None
          case Some((rule, s4)) =>
            match NextLine(s4)
            case None => None
            case Some((blank, s5)) =>
              if title == "Financial News Report" && StartsWith(stamp, "Generated: ")
                && StartsWith(count, "Total Articles: ") && AllDigits(count[16..])
                && rule == Repeat('=', 80) && blank == ""
              then
                match Strptime(stamp[11..], DateSecond)
                case None => None
                case Some(g) => Some((g, Value(count[16..]), s5))
              else None
  }

  function ReadReport(s: string): Option<ReportContents> {
    match ReadHeader(s)
    case None => None
    case Some((g, total, rest)) =>
      match ReadBlocks(rest)
      case None => None
      case Some(rs) => Some(ReportContents(g, total, rs))
  }

  /** No field of the record holds a line break. */
  predicate OneLineFields(r: NewsRecord) {
    '\n' !in r.date && '\n' !in r.title && '\n' !in r.source && '\n' !in r.url && '\n' !in r.content
  }

  lemma BlockRoundTrip(r: NewsRecord, rest: string)
    requires OneLineFields(r)
    ensures ReadBlock(Block(r) + rest) == Some((r, rest))
  {
    var tail := Repeat('-', 80) + "\n\n" + rest;
    var s4 := Field("Content", r.content) + tail;
    var s3 := (if r.url != "" then Field("URL", r.url) else "") + s4;
    var s2 := Field("Source", r.source) + s3;
    var s1 := Field("Title", r.title) + s2;
    BlockSplits(r, rest);
    ReadFieldOf("Date", r.date, s1);
    ReadFieldOf("Title", r.title, s2);
    ReadFieldOf("Source", r.source, s3);
    UrlLineRoundTrip(r.url, r.content, tail);
    ReadFieldOf("Content", r.content, tail);
    RuleRoundTrip(rest);
    ReadBlockSteps(Block(r) + rest, r, s1, s2, s3, s4, tail, rest);
  }

  lemma BlockSplits(r: NewsRecord, rest: string)
    ensures Block(r) + rest == Field("Date", r.date) + (Field("Title", r.title) + (Field("Source", r.source)
      + ((if r.url != "" then Field("URL", r.url) else "") + (Field("Content", r.content) + (Repeat('-', 80) + "\n\n" + rest)))))
  {
  }

  lemma ReadBlockSteps(s: string, r: NewsRecord, s1: string, s2: string, s3: string, s4: string, s5: string, s6: string)
    requires ReadField("Date", s) == Some((r.date, s1))
    requires ReadField("Title", s1) == Some((r.title, s2))
    requires ReadField("Source", s2) == Some((r.source, s3))
    requires ReadUrl(s3) == (r.url, s4)
    requires ReadField("Content", s4) == Some((r.content, s5))
    requires ReadRule(s5) == Some(s6)
    ensures ReadBlock(s) == Some((r, s6))
  {
  }

  /** The URL line is read when the url is non-empty; otherwise the content line is next. */
  lemma UrlLineRoundTrip(url: string, content: string, rest: string)
    requires '\n' !in url && '\n' !in content
    ensures ReadUrl((if url != "" then Field("URL", url) else "") + (Field("Content", content) + rest))
      == (url, Field("Content", content) + rest)
  {
    if url != "" {
      ReadFieldOf("URL", url, Field("Content", content) + rest);
    } else {
      ContentIsNoUrl(content, rest);
      assert "" + (Field("Content", content) + rest) == Field("Content", content) + rest;
    }
  }

  lemma RuleRoundTrip(rest: string)
    ensures ReadRule(Repeat('-', 80) + "\n\n" + rest) == Some(rest)
  {
    assert '\n' !in Repeat('-', 80);
    assert Repeat('-', 80) + "\n\n" + rest == Repeat('-', 80) + "\n" + ("\n" + rest);
    NextLineOf(Repeat('-', 80), "\n" + rest);
    BlankLine(rest);
  }

  lemma BlankLine(rest: string)
    ensures NextLine("\n" + rest) == Some(("", rest))
  {
    assert "\n" + rest == "" + "\n" + rest;
    NextLineOf("", rest);
  }

  lemma {:induction false} BlocksRoundTrip(rs: seq<NewsRecord>)
    requires forall r :: r in rs ==> OneLineFields(r)
    ensures ReadBlocks(Blocks(rs)) == Some(rs)
  {
    if rs != [] {
      var r, tail := rs[0], rs[1..];
      assert rs == [r] + tail;
      var rest := Blocks(tail);
      assert Blocks(rs) == Block(r) + rest;
      assert r in rs && forall x :: x in tail ==> x in rs;
      BlocksRoundTrip(tail);
      BlockRoundTrip(r, rest);
      BlockIsNotEmpty(r);
      ReadBlocksStep(Block(r) + rest, r, rest, tail);
    }
  }

  lemma ReadBlocksStep(s: string, r: NewsRecord, rest: string, rs: seq<NewsRecord>)
    requires s != [] && ReadBlock(s) == Some((r, rest)) && ReadBlocks(rest) == Some(rs)
    ensures ReadBlocks(s) == Some([r] + rs)
  {
  }

  lemma BlockIsNotEmpty(r: NewsRecord)
    ensures Block(r) != []
  {
    assert Field("Date", r.date)[0] == '[';
  }

  /** The report reads back: its time of writing to the second, the number of records and
      every record in order, as long as no field holds a line break. */
  lemma ReportRoundTrip(rs: seq<NewsRecord>, generated: DateTime)
    requires Valid(generated)
    requires forall r :: r in rs ==> OneLineFields(r)
    ensures ReadReport(Report(rs, generated)) == Some(ReportContents(generated.(micro := 0), |rs|, rs))
  {
    HeaderRoundTrip(|rs|, generated, Blocks(rs));
    BlocksRoundTrip(rs);
  }

  lemma HeaderRoundTrip(count: nat, generated: DateTime, rest: string)
    requires Valid(generated)
    ensures ReadHeader(Header(count, Strftime(DateSecond, generated)) + rest) == Some((generated.(micro := 0), count, rest))
  {
    var stamp := Strftime(DateSecond, generated);
    SecondTextIsOneLine(generated);
    DateSecondRoundTrip(generated);
    ReadHeaderOf(count, stamp, rest);
  }

  lemma ReadHeaderOf(count: nat, stamp: string, rest: string)
    requires '\n' !in stamp
    ensures ReadHeader(Header(count, stamp) + rest) ==
      match Strptime(stamp, DateSecond) case None => None case Some(g) => Some((g, count, rest))
  {
    var digits := Show(count);
    var s4 := "\n" + rest;
    var s3 := Repeat('=', 80) + "\n" + s4;
    var s2 := "Total Articles: " + digits + "\n" + s3;
    var s1 := "Generated: " + stamp + "\n" + s2;
    HeaderSplits(count, stamp, rest);
    HeaderTop(stamp, s2);
    HeaderBottom(digits, rest);
    ShowValue(count);
    ReadHeaderSteps(Header(count, stamp) + rest, s1, s2, s3, s4, rest, "Generated: " + stamp, "Total Articles: " + digits);
  }

  lemma HeaderSplits(count: nat, stamp: string, rest: string)
    ensures Header(count, stamp) + rest == "Financial News Report" + "\n" + ("Generated: " + stamp + "\n"
      + ("Total Articles: " + Show(count) + "\n" + (Repeat('=', 80) + "\n" + ("\n" + rest))))
  {
  }

  lemma HeaderTop(stamp: string, s2: string)
    requires '\n' !in stamp
    ensures NextLine("Financial News Report" + "\n" + ("Generated: " + stamp + "\n" + s2))
      == Some(("Financial News Report", "Generated: " + stamp + "\n" + s2))
    ensures NextLine("Generated: " + stamp + "\n" + s2) == Some(("Generated: " + stamp, s2))
    ensures StartsWith("Generated: " + stamp, "Generated: ") && ("Generated: " + stamp)[11..] == stamp
  {
    NextLineOf("Financial News Report", "Generated: " + stamp + "\n" + s2);
    NextLineOf("Generated: " + stamp, s2);
  }

  lemma HeaderBottom(digits: string, rest: string)
    requires AllDigits(digits)
    ensures NextLine("Total Articles: " + digits + "\n" + (Repeat('=', 80) + "\n" + ("\n" + rest)))
      == Some(("Total Articles: " + digits, Repeat('=', 80) + "\n" + ("\n" + rest)))
    ensures NextLine(Repeat('=', 80) + "\n" + ("\n" + rest)) == Some((Repeat('=', 80), "\n" + rest))
    ensures NextLine("\n" + rest) == Some(("", rest))
    ensures StartsWith("Total Articles: " + digits, "Total Articles: ") && ("Total Articles: " + digits)[16..] == digits
  {
    assert forall i :: 0 <= i < |digits| ==> IsDigit(digits[i]);
    NextLineOf("Total Articles: " + digits, Repeat('=', 80) + "\n" + ("\n" + rest));
    assert '\n' !in Repeat('=', 80);
    NextLineOf(Repeat('=', 80), "\n" + rest);
    BlankLine(rest);
  }

  lemma ReadHeaderSteps(s: string, s1: string, s2: string, s3: string, s4: string, s5: string, stampLine: string, countLine: string)
    requires NextLine(s) == Some(("Financial News Report", s1))
    requires NextLine(s1) == Some((stampLine, s2)) && StartsWith(stampLine, "Generated: ")
    requires NextLine(s2) == Some((countLine, s3)) && StartsWith(countLine, "Total Articles: ") && AllDigits(countLine[16..])
    requires NextLine(s3) == Some((Repeat('=', 80), s4))
    requires NextLine(s4) == Some(("", s5))
    ensures ReadHeader(s) ==
      match Strptime(stampLine[11..], DateSecond) case None => None case Some(g) => Some((g, Value(countLine[16..]), s5))
  {
  }

  // ----- collect_yahoo_news -----

  /** The tickers whose feeds are read, in order. */
  const YahooTickers: seq<string> := ["AAPL", "TSLA", "NVDA", "MSFT", "GOOGL"]

  /** The records of the ticker feeds, ticker by ticker in order. */
  function TickerNews(tickers: seq<string>, feeds: string -> Fetch<seq<YahooFinance.FeedItem>>, cutoff: DateTime): seq<NewsRecord> {
    if tickers == [] then []
    else
      var ticker := tickers[|tickers| - 1];
      TickerNews(tickers[..|tickers| - 1], feeds, cutoff) + YahooFinance.FeedNews(feeds(ticker), YahooFinance.TickerLabel(ticker), cutoff)
  }

  /** What collect_yahoo_news returns or raises: the market records, then the records of
      each ticker; an exception of the crawler leaves the function. */
  function YahooCollected(market: Fetch<seq<YahooFinance.FeedItem>>, feeds: string -> Fetch<seq<YahooFinance.FeedItem>>,
                          cutoff: DateTime, logger: YahooFinance.Logger): Outcome<seq<NewsRecord>> {
    if logger == YahooFinance.Unbound then Raised
    else Returned(YahooFinance.FeedNews(market, YahooFinance.MarketLabel, cutoff) + TickerNews(YahooTickers, feeds, cutoff))
  }

  method CollectYahooNews(market: Fetch<seq<YahooFinance.FeedItem>>, feeds: string -> Fetch<seq<YahooFinance.FeedItem>>,
                          cutoff: DateTime, logger: YahooFinance.Logger)
    returns (r: Outcome<seq<NewsRecord>>)
    ensures r == YahooCollected(market, feeds, cutoff, logger)
  {
    var marketNews := YahooFinance.GetMarketNews(market, cutoff, logger);
    if marketNews.Raised? {
      return Raised;
    }
    var tickerNews := CollectTickerNews(YahooTickers, feeds, cutoff, logger);
    return Returned(marketNews.value + tickerNews);
  }

  /** The loop over the tickers of collect_yahoo_news, once the market call has returned. */
  method CollectTickerNews(tickers: seq<string>, feeds: string -> Fetch<seq<YahooFinance.FeedItem>>,
                           cutoff: DateTime, logger: YahooFinance.Logger)
    returns (all: seq<NewsRecord>)
    requires logger == YahooFinance.Bound
    ensures all == TickerNews(tickers, feeds, cutoff)
  {
    all := [];
    var i := 0;
    while i < |tickers|
      invariant 0 <= i <= |tickers|
      invariant all == TickerNews(tickers[..i], feeds, cutoff)
    {
      var ticker := tickers[i];
      var news := YahooFinance.GetNewsForTicker(ticker, feeds(ticker), cutoff, logger);
      TickerNewsStep(tickers, i, feeds, cutoff);
      all := all + news.value;
      i := i + 1;
    }
    assert tickers[..i] == tickers;
  }

  lemma TickerNewsStep(tickers: seq<string>, i: nat, feeds: string -> Fetch<seq<YahooFinance.FeedItem>>, cutoff: DateTime)
    requires i < |tickers|
    ensures TickerNews(tickers[..i + 1], feeds, cutoff)
      == TickerNews(tickers[..i], feeds, cutoff) + YahooFinance.FeedNews(feeds(tickers[i]), YahooFinance.TickerLabel(tickers[i]), cutoff)
  {
    assert tickers[..i + 1][..i] == tickers[..i];
  }

  lemma {:induction false} TickerNewsInWindow(tickers: seq<string>, feeds: string -> Fetch<seq<YahooFinance.FeedItem>>, cutoff: DateTime)
    ensures forall r :: r in TickerNews(tickers, feeds, cutoff) ==> InWindow(r, Truncate(cutoff))
  {
    if tickers != [] {
      var ticker := tickers[|tickers| - 1];
      TickerNewsInWindow(tickers[..|tickers| - 1], feeds, cutoff);
      if feeds(ticker).Ok? {
        YahooFinance.FeedRecordsInWindow(feeds(ticker).payload, YahooFinance.TickerLabel(ticker), cutoff);
      }
    }
  }

  // ----- collect_naver_news -----

  /** The topics searched through the API, in order. */
  const SearchQueries: seq<string> := ["주식 시장", "증권", "경제", "금융"]

  /** The records of the API searches, query by query in order; a failed request adds none. */
  function ApiNews(queries: seq<string>, responses: string -> Fetch<seq<NaverNews.ApiItem>>, cutoff: DateTime): seq<NewsRecord> {
    if queries == [] then []
    else
      var query := queries[|queries| - 1];
      ApiNews(queries[..|queries| - 1], responses, cutoff)
        + (if responses(query).Ok? then NaverNews.ApiRecords(responses(query).payload, query, cutoff) else [])
  }

  /** What collect_naver_news returns: five listing pages, then the API searches when both
      credentials are set. */
  function NaverCollected(listing: seq<Fetch<seq<NaverNews.ListingItem>>>, now: DateTime, cutoff: DateTime,
                          clientId: string, clientSecret: string, responses: string -> Fetch<seq<NaverNews.ApiItem>>): seq<NewsRecord>
    requires Valid(now)
  {
    NaverNews.FinanceCrawl(listing, 5, now, cutoff).records
      + (if clientId != "" && clientSecret != "" then ApiNews(SearchQueries, responses, cutoff) else [])
  }

  method CollectNaverNews(listing: seq<Fetch<seq<NaverNews.ListingItem>>>, now: DateTime, cutoff: DateTime,
                          clientId: string, clientSecret: string, responses: string -> Fetch<seq<NaverNews.ApiItem>>)
    returns (all: seq<NewsRecord>)
    requires Valid(now)
    ensures all == NaverCollected(listing, now, cutoff, clientId, clientSecret, responses)
  {
    var financeNews, _ := NaverNews.GetFinanceNews(listing, 5, now, cutoff);
    all := financeNews;
    if clientId != "" && clientSecret != "" {
      var apiNews := SearchAll(SearchQueries, clientId, clientSecret, responses, cutoff);
      all := all + apiNews;
    }
  }

  /** The loop over the search queries, with both credentials set. */
  method SearchAll(queries: seq<string>, clientId: string, clientSecret: string,
                   responses: string -> Fetch<seq<NaverNews.ApiItem>>, cutoff: DateTime)
    returns (all: seq<NewsRecord>)
    requires clientId != "" && clientSecret != ""
    ensures all == ApiNews(queries, responses, cutoff)
  {
    all := [];
    var i := 0;
    while i < |queries|
      invariant 0 <= i <= |queries|
      invariant all == ApiNews(queries[..i], responses, cutoff)
    {
      var query := queries[i];
      var result := NaverNews.SearchNewsApi(query, 50, clientId, clientSecret, responses(query), cutoff);
      assert queries[..i + 1][..i] == queries[..i];
      all := all + result.records;
      i := i + 1;
    }
    assert queries[..i] == queries;
  }

  lemma {:induction false} ApiNewsInWindow(queries: seq<string>, responses: string -> Fetch<seq<NaverNews.ApiItem>>, cutoff: DateTime)
    ensures forall r :: r in ApiNews(queries, responses, cutoff) ==> InWindow(r, Truncate(cutoff))
  {
    if queries != [] {
      var query := queries[|queries| - 1];
      ApiNewsInWindow(queries[..|queries| - 1], responses, cutoff);
      if responses(query).Ok? {
        NaverNews.ApiRecordsInWindow(responses(query).payload, query, cutoff);
      }
    }
  }

  // ----- main -----

  /** The responses and the configuration the run reads: the market feed, the feed of each
      ticker, the listing pages, the API credentials and the API response for each query. */
  datatype Sources = Sources(
    market: Fetch<seq<YahooFinance.FeedItem>>,
    tickerFeeds: string -> Fetch<seq<YahooFinance.FeedItem>>,
    listing: seq<Fetch<seq<NaverNews.ListingItem>>>,
    clientId: string,
    clientSecret: string,
    apiResponses: string -> Fetch<seq<NaverNews.ApiItem>>)

  /** How a run ends: nothing collected and nothing written, or the records saved under a
      file name with the text of the file. */
  datatype RunResult = NoNews | Saved(fileName: string, news: seq<NewsRecord>, text: string)

  const LogFilePrefix := "news_log"

  /** The report's file name: the prefix, an underscore, the day as '%Y%m%d' and ".txt". */
  function LogFileName(today: DateTime): string
    requires Valid(today)
  {
    LogFilePrefix + "_" + Strftime(CompactDay, today) + ".txt"
  }

  /** Everything collected, Yahoo first; a collector that raises contributes nothing. */
  function Collected(src: Sources, now: DateTime, cutoff: DateTime, logger: YahooFinance.Logger): seq<NewsRecord>
    requires Valid(now)
  {
    var yahoo := YahooCollected(src.market, src.tickerFeeds, cutoff, logger);
    (if yahoo.Returned? then yahoo.value else [])
      + NaverCollected(src.listing, now, cutoff, src.clientId, src.clientSecret, src.apiResponses)
  }

  /** main: nothing is written when nothing was collected; otherwise the records without
      duplicates, newest first, are saved under the day's file name. */
  function RunOutcome(src: Sources, now: DateTime, cutoff: DateTime, today: DateTime, generated: DateTime,
                      logger: YahooFinance.Logger): RunResult
    requires Valid(now) && Valid(today) && Valid(generated)
  {
    var all := Collected(src, now, cutoff, logger);
    if all == [] then NoNews
    else
      var news := SortNewsByDate(Dedup(all, ByTitle()));
      Saved(LogFileName(today), news, Report(news, generated))
  }

  method CollectAndSave(src: Sources, now: DateTime, cutoff: DateTime, today: DateTime, generated: DateTime,
                        logger: YahooFinance.Logger)
    returns (result: RunResult)
    requires Valid(now) && Valid(today) && Valid(generated)
    ensures result == RunOutcome(src, now, cutoff, today, generated, logger)
  {
    var all: seq<NewsRecord> := [];
    var yahoo := CollectYahooNews(src.market, src.tickerFeeds, cutoff, logger);
    if yahoo.Returned? {
      all := all + yahoo.value;
    }
    var naver := CollectNaverNews(src.listing, now, cutoff, src.clientId, src.clientSecret, src.apiResponses);
    all := all + naver;
    assert all == Collected(src, now, cutoff, logger);
    if all == [] {
      return NoNews;
    }
    var unique, _ := RemoveDuplicates(all);
    var news := SortNewsByDate(unique);
    var text := SaveNewsToFile(news, generated);
    return Saved(LogFileName(today), news, text);
  }

  /** Every record the run collects carries a date that reads. */
  lemma CollectedAreDated(src: Sources, now: DateTime, cutoff: DateTime, logger: YahooFinance.Logger)
    requires Valid(now)
    ensures forall r :: r in Collected(src, now, cutoff, logger) ==> InWindow(r, Truncate(cutoff))
  {
    TruncateKeepsOrder(cutoff, cutoff);
    if logger == YahooFinance.Bound && src.market.Ok? {
      YahooFinance.FeedRecordsInWindow(src.market.payload, YahooFinance.MarketLabel, cutoff);
    }
    TickerNewsInWindow(YahooTickers, src.tickerFeeds, cutoff);
    NaverNews.FinanceRecordsInWindow(src.listing, 5, now, cutoff);
    forall r | r in NaverNews.FinanceCrawl(src.listing, 5, now, cutoff).records
      ensures InWindow(r, Truncate(cutoff))
    {
      TruncateKeepsOrder(DateOf(r).value, cutoff);
      DateMinuteReadsWholeMinutes(r.date);
    }
    ApiNewsInWindow(SearchQueries, src.apiResponses, cutoff);
  }

  /** A run writes a file exactly when something was collected; the file holds one record
      per title, newest first, and a title of every record collected. */
  lemma SavedRun(src: Sources, now: DateTime, cutoff: DateTime, today: DateTime, generated: DateTime, logger: YahooFinance.Logger)
    requires Valid(now) && Valid(today) && Valid(generated)
    ensures var result := RunOutcome(src, now, cutoff, today, generated, logger);
      var all := Collected(src, now, cutoff, logger);
      && (result.Saved? <==> all != [])
      && (result.Saved? ==>
        && result.fileName == LogFileName(today)
        && result.text == Report(result.news, generated)
        && Dated(result.news, DateKey()) && NewestFirst(result.news, DateKey())
        && multiset(result.news) == multiset(Dedup(all, ByTitle()))
        && Keys(result.news, ByTitle()) == Keys(all, ByTitle())
        && |result.news| == |Keys(all, ByTitle())|)
  {
    var all := Collected(src, now, cutoff, logger);
    if all != [] {
      var unique := Dedup(all, ByTitle());
      CollectedAreDated(src, now, cutoff, logger);
      assert Dated(unique, DateKey());
      SortByDateSpec(unique, DateKey());
      var news := SortNewsByDate(unique);
      DedupKeys(all, ByTitle());
      DedupCount(all, ByTitle());
      assert Keys(news, ByTitle()) == Keys(unique, ByTitle()) by {
        forall x | x in news ensures x in unique { assert x in multiset(news); }
        forall x | x in unique ensures x in news { assert x in multiset(unique); }
      }
    }
  }

  /** As the crawler module is written, the Yahoo collector always raises, so the run holds
      the Naver records alone, whatever the feeds say. */
  lemma YahooBatchDropped(src: Sources, now: DateTime, cutoff: DateTime)
    requires Valid(now)
    ensures Collected(src, now, cutoff, YahooFinance.ModuleLogger)
      == NaverCollected(src.listing, now, cutoff, src.clientId, src.clientSecret, src.apiResponses)
  {
    assert YahooCollected(src.market, src.tickerFeeds, cutoff, YahooFinance.ModuleLogger) == Raised;
  }

  /** With `logger` bound, the first market record is always saved. */
  lemma MarketNewsSaved(src: Sources, now: DateTime, cutoff: DateTime, today: DateTime, generated: DateTime)
    requires Valid(now) && Valid(today) && Valid(generated)
    requires YahooFinance.FeedNews(src.market, YahooFinance.MarketLabel, cutoff) != []
    ensures var result := RunOutcome(src, now, cutoff, today, generated, YahooFinance.Bound);
      result.Saved? && YahooFinance.FeedNews(src.market, YahooFinance.MarketLabel, cutoff)[0] in result.news
  {
    var all := Collected(src, now, cutoff, YahooFinance.Bound);
    var market := YahooFinance.FeedNews(src.market, YahooFinance.MarketLabel, cutoff);
    assert all[0] == market[0];
    FirstIsKept(all, ByTitle());
    SortByDateSpec(Dedup(all, ByTitle()), DateKey());
    assert all[0] in multiset(SortNewsByDate(Dedup(all, ByTitle())));
  }

  /** With `logger` bound, a saved record whose title a Yahoo record has is a Yahoo record:
      the Yahoo batch comes first and wins every duplicate. */
  lemma YahooWinsDuplicates(src: Sources, now: DateTime, cutoff: DateTime, today: DateTime, generated: DateTime, x: NewsRecord)
    requires Valid(now) && Valid(today) && Valid(generated)
    requires var result := RunOutcome(src, now, cutoff, today, generated, YahooFinance.Bound);
      result.Saved? && x in result.news
    requires TitleKey(x) in Keys(YahooCollected(src.market, src.tickerFeeds, cutoff, YahooFinance.Bound).value, ByTitle())
    ensures x in YahooCollected(src.market, src.tickerFeeds, cutoff, YahooFinance.Bound).value
  {
    var yahoo := YahooCollected(src.market, src.tickerFeeds, cutoff, YahooFinance.Bound).value;
    var naver := NaverCollected(src.listing, now, cutoff, src.clientId, src.clientSecret, src.apiResponses);
    var all := Collected(src, now, cutoff, YahooFinance.Bound);
    assert all == yahoo + naver;
    var unique := Dedup(all, ByTitle());
    SortByDateSpec(unique, DateKey());
    assert x in multiset(SortNewsByDate(unique));
    assert x in unique;
    EarlierListWins(yahoo, naver, x, ByTitle());
  }
}
