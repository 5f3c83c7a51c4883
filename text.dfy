/** The string operations of Python that the crawlers and the report writers rely on:
    str.isspace, str.lower, str.strip, str.startswith/endswith, `in`, str.replace,
    str.join, slicing, str(int), and the three regular-expression substitutions
    the source applies (`\s+` -> ' ', `(\n\s*)+` -> "\n\n", `<[^>]+>` -> ''). */
module Text {
  import opened Wrappers

  /** The characters for which Python's str.isspace() holds: what str.strip()
      removes and what the regular-expression class \s matches in a str pattern. */
  predicate IsSpace(c: char) {
    c == ' ' || '\t' <= c <= '\r' || '\U{1C}' <= c <= '\U{1F}'
    || c == '\U{85}' || c == '\U{A0}' || c == '\U{1680}' || '\U{2000}' <= c <= '\U{200A}'
    || c == '\U{2028}' || c == '\U{2029}' || c == '\U{202F}' || c == '\U{205F}' || c == '\U{3000}'
  }

  function LowerChar(c: char): char {
    if 'A' <= c <= 'Z' then (c as int + 32) as char else c
  }

  /** str.lower(), restricted to ASCII letters (see README, "Left out"). */
  function Lower(s: string): (r: string)
    ensures |r| == |s|
    ensures forall i :: 0 <= i < |s| ==> r[i] == LowerChar(s[i])
  {
    seq(|s|, i requires 0 <= i < |s| => LowerChar(s[i]))
  }

  /** str.lstrip(): the longest suffix that does not start with whitespace. */
  function StripLeft(s: string): (r: string)
    ensures |r| <= |s| && r == s[|s| - |r|..]
    ensures forall i :: 0 <= i < |s| - |r| ==> IsSpace(s[i])
    ensures r == [] || !IsSpace(r[0])
  {
    if s != [] && IsSpace(s[0]) then StripLeft(s[1..]) else s
  }

  /** str.rstrip(): the longest prefix that does not end with whitespace. */
  function StripRight(s: string): (r: string)
    ensures |r| <= |s| && r == s[..|r|]
    ensures forall i :: |r| <= i < |s| ==> IsSpace(s[i])
    ensures r == [] || !IsSpace(r[|r| - 1])
  {
    if s != [] && IsSpace(s[|s| - 1]) then StripRight(s[..|s| - 1]) else s
  }

  /** str.strip() */
  function Strip(s: string): (r: string)
    ensures |r| <= |s|
    ensures r == [] || (!IsSpace(r[0]) && !IsSpace(r[|r| - 1]))
  {
    StripRight(StripLeft(s))
  }

  /** Concatenation regrouped; stated over any element type so that it is proved apart
      from the literals of a caller. */
  lemma AppendAssoc<T>(a: seq<T>, b: seq<T>, c: seq<T>)
    ensures a + (b + c) == (a + b) + c
  {
  }

  predicate StartsWith(s: string, prefix: string) {
    |prefix| <= |s| && s[..|prefix|] == prefix
  }

  predicate EndsWith(s: string, suffix: string) {
    |suffix| <= |s| && s[|s| - |suffix|..] == suffix
  }

  /** `pat` occurs in `s` starting at index `k`. */
  predicate OccursAt(s: string, pat: string, k: nat) {
    k + |pat| <= |s| && s[k..k + |pat|] == pat
  }

  /** str.find(pat, k), with None for -1: the first occurrence at or after k. */
  function FindFrom(s: string, pat: string, k: nat): (r: Option<nat>)
    decreases |s| - k
    ensures r.Some? ==> k <= r.value && OccursAt(s, pat, r.value)
    ensures r.Some? ==> forall j :: k <= j < r.value ==> !OccursAt(s, pat, j)
    ensures r.None? ==> forall j :: k <= j ==> !OccursAt(s, pat, j)
  {
    if k + |pat| > |s| then None
    else if s[k..k + |pat|] == pat then Some(k)
    else FindFrom(s, pat, k + 1)
  }

  /** `pat in s` */
  predicate Contains(s: string, pat: string) {
    FindFrom(s, pat, 0).Some?
  }

  /** s.replace(pat, ''): occurrences are removed left to right, without overlap. */
  function RemoveAll(s: string, pat: string): (r: string)
    requires pat != []
    ensures |r| <= |s|
    decreases |s|
  {
    if |s| < |pat| then s
    else if s[..|pat|] == pat then RemoveAll(s[|pat|..], pat)
    else [s[0]] + RemoveAll(s[1..], pat)
  }

  /** A prefix free of the first character of `pat` is left alone by RemoveAll. */
  lemma {:induction false} RemoveAllSkips(x: string, y: string, pat: string)
    requires pat != [] && pat[0] !in x
    ensures RemoveAll(x + y, pat) == x + RemoveAll(y, pat)
  {
    if x != [] {
      assert (x + y)[0] == x[0] != pat[0];
      assert (x + y)[1..] == x[1..] + y;
      if |x + y| >= |pat| {
        assert (x + y)[..|pat|][0] == x[0];
      }
      RemoveAllSkips(x[1..], y, pat);
    } else {
      assert x + y == y;
    }
  }

  /** sep.join(parts) */
  function Join(parts: seq<string>, sep: string): (r: string)
    ensures |parts| == 1 ==> r == parts[0]
  {
    if |parts| == 0 then ""
    else if |parts| == 1 then parts[0]
    else Join(parts[..|parts| - 1], sep) + sep + parts[|parts| - 1]
  }

  /** Joining two non-empty runs of parts puts the separator between their joins. */
  lemma {:induction false} JoinAppend(a: seq<string>, b: seq<string>, sep: string)
    requires a != [] && b != []
    ensures Join(a + b, sep) == Join(a, sep) + sep + Join(b, sep)
    decreases |b|
  {
    var c := a + b;
    assert c[..|c| - 1] == a + b[..|b| - 1] && c[|c| - 1] == b[|b| - 1];
    if |b| > 1 {
      JoinAppend(a, b[..|b| - 1], sep);
    } else {
      assert a + b[..|b| - 1] == a;
    }
  }

  /** The index of the first whitespace character of `s` at or after `i`, or |s|. */
  function WordEnd(s: string, i: nat): (e: nat)
    requires i <= |s|
    decreases |s| - i
    ensures i <= e <= |s|
    ensures forall j :: i <= j < e ==> !IsSpace(s[j])
    ensures e < |s| ==> IsSpace(s[e])
  {
    if i == |s| || IsSpace(s[i]) then i else WordEnd(s, i + 1)
  }

  /** s.split()[0], with None where Python raises IndexError: the text has no word. */
  function FirstWord(s: string): (r: Option<string>)
    ensures r.None? <==> forall i :: 0 <= i < |s| ==> IsSpace(s[i])
    ensures r.Some? ==> r.value != [] && forall i :: 0 <= i < |r.value| ==> !IsSpace(r.value[i])
  {
    var t := StripLeft(s);
    if t == [] then None else Some(t[..WordEnd(t, 0)])
  }

  /** A word followed by nothing or by whitespace is the first word. */
  lemma FirstWordOf(w: string, rest: string)
    requires w != [] && forall i :: 0 <= i < |w| ==> !IsSpace(w[i])
    requires rest == [] || IsSpace(rest[0])
    ensures FirstWord(w + rest) == Some(w)
  {
    var s := w + rest;
    assert StripLeft(s) == s;
    WordEndOf(s, 0, |w|);
    assert s[..|w|] == w;
  }

  lemma {:induction false} WordEndOf(s: string, i: nat, e: nat)
    requires i <= e <= |s|
    requires forall j :: i <= j < e ==> !IsSpace(s[j])
    requires e == |s| || IsSpace(s[e])
    decreases e - i
    ensures WordEnd(s, i) == e
  {
    if i < e {
      WordEndOf(s, i + 1, e);
    }
  }

  /** `[p for p in parts if p]` */
  function NonEmpty(parts: seq<string>): (r: seq<string>)
    ensures |r| <= |parts|
    ensures forall p :: p in r ==> p != "" && p in parts
    ensures forall p :: p in parts && p != "" ==> p in r
  {
    if parts == [] then []
    else if parts[|parts| - 1] == "" then NonEmpty(parts[..|parts| - 1])
    else NonEmpty(parts[..|parts| - 1]) + [parts[|parts| - 1]]
  }

  /** The filter keeps order and repeats: it works part by part. */
  lemma {:induction false} NonEmptyAppend(a: seq<string>, b: seq<string>)
    ensures NonEmpty(a + b) == NonEmpty(a) + NonEmpty(b)
    decreases |b|
  {
    var c := a + b;
    if b == [] {
      assert c == a;
    } else {
      assert c[..|c| - 1] == a + b[..|b| - 1] && c[|c| - 1] == b[|b| - 1];
      NonEmptyAppend(a, b[..|b| - 1]);
    }
  }

  /** c * n */
  function Repeat(c: char, n: nat): (r: string)
    ensures |r| == n && forall i :: 0 <= i < n ==> r[i] == c
  {
    seq(n, _ => c)
  }

  /** s[:n] for n >= 0 */
  function Take(s: string, n: nat): (r: string)
    ensures |r| == if n < |s| then n else |s|
    ensures r == s[..|r|]
  {
    if n < |s| then s[..n] else s
  }

  // ----- re.sub(r'\s+', ' ', s) -----

  /** No character is whitespace other than ' ', and no two whitespace characters are adjacent. */
  predicate SpaceCollapsed(r: string) {
    forall i :: 0 <= i < |r| && IsSpace(r[i]) ==> r[i] == ' ' && (i + 1 < |r| ==> !IsSpace(r[i + 1]))
  }

  /** re.sub(r'\s+', ' ', s): every maximal run of whitespace becomes one space. */
  function CollapseSpace(s: string): (r: string)
    decreases |s|
    ensures |r| <= |s|
    ensures r == [] <==> s == []
    ensures s != [] ==> (IsSpace(r[0]) <==> IsSpace(s[0]))
    ensures SpaceCollapsed(r)
  {
    if s == [] then []
    else if IsSpace(s[0]) then [' '] + CollapseSpace(StripLeft(s))
    else [s[0]] + CollapseSpace(s[1..])
  }

  // ----- re.sub(r'(\n\s*)+', '\n\n', s) -----

  /** re.sub(r'(\n\s*)+', '\n\n', s): a newline together with all the whitespace that
      follows it becomes exactly two newlines. */
  function CollapseNewlines(s: string): (r: string)
    decreases |s|
  {
    if s == [] then []
    else if s[0] == '\n' then "\n\n" + CollapseNewlines(StripLeft(s[1..]))
    else [s[0]] + CollapseNewlines(s[1..])
  }

  /** On a string without a newline the second substitution changes nothing. */
  lemma {:induction false} CollapseNewlinesNoop(s: string)
    requires '\n' !in s
    ensures CollapseNewlines(s) == s
  {
    if s != [] {
      assert s[0] in s;
      assert forall c :: c in s[1..] ==> c in s;
      CollapseNewlinesNoop(s[1..]);
    }
  }

  /** The content cleanup of the detail page: the second substitution is a no-op
      after the first, because \s+ -> ' ' has already removed every newline. */
  lemma CleanupSecondStepNoop(s: string)
    ensures '\n' !in CollapseSpace(s)
    ensures CollapseNewlines(CollapseSpace(s)) == CollapseSpace(s)
  {
    var r := CollapseSpace(s);
    assert forall i :: 0 <= i < |r| ==> r[i] != '\n' by {
      forall i | 0 <= i < |r| ensures r[i] != '\n' {
        assert IsSpace('\n');
      }
    }
    CollapseNewlinesNoop(r);
  }

  // ----- re.sub(r'<[^>]+>', '', s) -----

  /** `<[^>]+>` matches at i: a '<', at least one non-'>' character, then the '>' at k. */
  predicate TagAt(s: string, i: nat, k: nat) {
    i + 2 <= k < |s| && s[i] == '<' && s[k] == '>' && forall j :: i < j < k ==> s[j] != '>'
  }

  predicate NoTags(s: string) {
    forall i, k :: 0 <= i < k < |s| ==> !TagAt(s, i, k)
  }

  /** re.sub(r'<[^>]+>', '', s), scanning left to right. */
  function StripTags(s: string): (r: string)
    decreases |s|
    ensures |r| <= |s|
    ensures forall c :: c in r ==> c in s
  {
    if s == [] then []
    else if s[0] == '<' && FindFrom(s, ">", 1).Some? && FindFrom(s, ">", 1).value >= 2 then
      StripTags(s[FindFrom(s, ">", 1).value + 1..])
    else [s[0]] + StripTags(s[1..])
  }

  /** A character that starts no tag, followed by a tag-free string, gives a tag-free string. */
  lemma ConsNoTags(c: char, t: string)
    requires NoTags(t)
    requires forall k :: 0 < k <= |t| ==> !TagAt([c] + t, 0, k)
    ensures NoTags([c] + t)
  {
    var r := [c] + t;
    assert r[1..] == t;
    forall i, k | 0 <= i < k < |r| ensures !TagAt(r, i, k) {
      if i > 0 {
        TagAtTail(r, i - 1, k - 1);
      }
    }
  }

  /** The first character, when StripTags keeps it, starts no tag of the result. */
  lemma KeptHeadStartsNoTag(s: string)
    requires s != []
    requires !(s[0] == '<' && FindFrom(s, ">", 1).Some? && FindFrom(s, ">", 1).value >= 2)
    ensures forall k :: 0 < k <= |StripTags(s[1..])| ==> !TagAt([s[0]] + StripTags(s[1..]), 0, k)
  {
    if s[0] == '<' {
      if FindFrom(s, ">", 1).Some? {
        ClosedAtOnce(s);
      } else {
        NeverClosed(s);
      }
    }
  }

  /** "<>" followed by anything: the kept '<' is followed by the kept '>'. */
  lemma ClosedAtOnce(s: string)
    requires s != [] && FindFrom(s, ">", 1).Some? && FindFrom(s, ">", 1).value < 2
    ensures forall k :: 0 < k <= |StripTags(s[1..])| ==> !TagAt([s[0]] + StripTags(s[1..]), 0, k)
  {
    assert OccursAt(s, ">", 1);
    assert s[1..2] == ">";
    var u := s[1..];
    assert u[0] == '>';
    assert StripTags(u) == [u[0]] + StripTags(u[1..]);
    var r := [s[0]] + StripTags(u);
    assert r[1] == '>';
  }

  /** A '<' with no '>' after it: nothing after it in the result is a '>'. */
  lemma NeverClosed(s: string)
    requires s != [] && FindFrom(s, ">", 1).None?
    ensures forall k :: 0 < k <= |StripTags(s[1..])| ==> !TagAt([s[0]] + StripTags(s[1..]), 0, k)
  {
    NoCloseInTail(s);
    var t := StripTags(s[1..]);
    assert '>' !in t;
    NoCloseNoTag(s[0], t);
  }

  /** When the search for '>' from index 1 fails, no '>' follows the first character. */
  lemma NoCloseInTail(s: string)
    requires s != [] && FindFrom(s, ">", 1).None?
    ensures '>' !in s[1..]
  {
    forall j | 1 <= j < |s| ensures s[j] != '>' {
      assert !OccursAt(s, ">", j);
      assert s[j..j + 1] == [s[j]];
    }
  }

  /** A text with no '>' closes no tag opened just before it. */
  lemma NoCloseNoTag(c: char, t: string)
    requires '>' !in t
    ensures forall k :: 0 < k <= |t| ==> !TagAt([c] + t, 0, k)
  {
    var r := [c] + t;
    forall k | 0 < k <= |t| ensures !TagAt(r, 0, k) {
      if k < |r| {
        assert r[k] == t[k - 1];
      }
    }
  }

  /** Whatever StripTags returns holds no `<…>` span any more. */
  lemma {:induction false} StripTagsLeavesNoTag(s: string)
    ensures NoTags(StripTags(s))
  {
    if s == [] {
    } else if s[0] == '<' && FindFrom(s, ">", 1).Some? && FindFrom(s, ">", 1).value >= 2 {
      StripTagsLeavesNoTag(s[FindFrom(s, ">", 1).value + 1..]);
    } else {
      StripTagsLeavesNoTag(s[1..]);
      KeptHeadStartsNoTag(s);
      ConsNoTags(s[0], StripTags(s[1..]));
    }
  }

  /** A span of the tail is the span one further in the whole. */
  lemma TagAtTail(s: string, i: nat, k: nat)
    requires s != []
    ensures TagAt(s[1..], i, k) <==> TagAt(s, i + 1, k + 1)
  {
    if TagAt(s, i + 1, k + 1) {
      forall j | i < j < k ensures s[1..][j] != '>' {
        assert s[1..][j] == s[j + 1];
      }
    }
  }

  /** A string without `<…>` spans is returned unchanged. */
  lemma {:induction false} StripTagsNoop(s: string)
    requires NoTags(s)
    ensures StripTags(s) == s
  {
    if s != [] {
      var f := FindFrom(s, ">", 1);
      if s[0] == '<' && f.Some? && f.value >= 2 {
        assert TagAt(s, 0, f.value) by {
          forall j | 0 < j < f.value ensures s[j] != '>' {
            assert !OccursAt(s, ">", j);
          }
        }
        assert false;
      }
      assert NoTags(s[1..]) by {
        forall i, k | 0 <= i < k < |s[1..]| ensures !TagAt(s[1..], i, k) {
          TagAtTail(s, i, k);
        }
      }
      StripTagsNoop(s[1..]);
    }
  }

  /** Tag stripping is idempotent. */
  lemma StripTagsIdempotent(s: string)
    ensures StripTags(StripTags(s)) == StripTags(s)
  {
    StripTagsLeavesNoTag(s);
    StripTagsNoop(StripTags(s));
  }

  // ----- decimal digits -----

  predicate IsDigit(c: char) { '0' <= c <= '9' }

  predicate AllDigits(s: string) { forall i :: 0 <= i < |s| ==> IsDigit(s[i]) }

  function DigitChar(d: nat): (c: char)
    requires d < 10
    ensures IsDigit(c)
  {
    ('0' as int + d) as char
  }

  function Pow10(w: nat): (p: nat)
    ensures p >= 1
  {
    if w == 0 then 1 else 10 * Pow10(w - 1)
  }

  /** int(s) for a string of decimal digits. */
  function Value(s: string): nat
    requires AllDigits(s)
  {
    if s == [] then 0 else Value(s[..|s| - 1]) * 10 + (s[|s| - 1] as int - '0' as int)
  }

  /** The last `w` decimal digits of n, zero-padded (`%0wd` of n mod 10^w). */
  function Pad(n: nat, w: nat): (r: string)
    ensures |r| == w && AllDigits(r)
  {
    if w == 0 then [] else Pad(n / 10, w - 1) + [DigitChar(n % 10)]
  }

  /** Reading back a zero-padded field gives the number that was written. */
  lemma {:induction false} PadValue(n: nat, w: nat)
    requires n < Pow10(w)
    ensures Value(Pad(n, w)) == n
  {
    if w > 0 {
      PadValue(n / 10, w - 1);
      var p := Pad(n, w);
      assert p[..|p| - 1] == Pad(n / 10, w - 1);
    }
  }

  /** str(n) */
  function Show(n: nat): (r: string)
    ensures |r| >= 1 && AllDigits(r)
  {
    if n < 10 then [DigitChar(n)] else Show(n / 10) + [DigitChar(n % 10)]
  }

  /** Reading back the decimal text of a number gives the number. */
  lemma {:induction false} ShowValue(n: nat)
    ensures Value(Show(n)) == n
  {
    if n >= 10 {
      ShowValue(n / 10);
      var r := Show(n);
      assert r[..|r| - 1] == Show(n / 10);
    }
  }

  /** A number with exactly w digits prints as its zero-padded w-digit field. */
  lemma {:induction false} ShowIsPad(n: nat, w: nat)
    requires w >= 1 && Pow10(w - 1) <= n < Pow10(w)
    ensures Show(n) == Pad(n, w)
  {
    if w > 1 {
      assert Pow10(w - 2) <= n / 10 < Pow10(w - 1);
      ShowIsPad(n / 10, w - 1);
    } else {
      assert n < 10;
      assert Pad(n / 10, 0) == [];
    }
  }

  // ----- string order -----

  /** a < b on strings: the first differing character decides, and a proper prefix comes first. */
  predicate LexLess(a: string, b: string)
    decreases |a|
  {
    b != [] && (a == [] || a[0] < b[0] || (a[0] == b[0] && LexLess(a[1..], b[1..])))
  }

  lemma {:induction false} LexLessIrreflexive(a: string)
    ensures !LexLess(a, a)
    decreases |a|
  {
    if a != [] {
      LexLessIrreflexive(a[1..]);
    }
  }

  lemma {:induction false} LexLessTransitive(a: string, b: string, c: string)
    requires LexLess(a, b) && LexLess(b, c)
    ensures LexLess(a, c)
    decreases |a|
  {
    if a != [] && a[0] == b[0] && b[0] == c[0] {
      LexLessTransitive(a[1..], b[1..], c[1..]);
    }
  }

  lemma {:induction false} LexLessTotal(a: string, b: string)
    requires a != b
    ensures LexLess(a, b) || LexLess(b, a)
    decreases |a|
  {
    if a != [] && b != [] && a[0] == b[0] {
      assert a == [a[0]] + a[1..] && b == [b[0]] + b[1..];
      LexLessTotal(a[1..], b[1..]);
    }
  }

  /** Behind a common prefix, the order is that of the rest. */
  lemma {:induction false} LexLessBehindPrefix(p: string, x: string, y: string)
    ensures LexLess(p + x, p + y) <==> LexLess(x, y)
    decreases |p|
  {
    if p != [] {
      assert (p + x)[1..] == p[1..] + x && (p + y)[1..] == p[1..] + y;
      LexLessBehindPrefix(p[1..], x, y);
    } else {
      assert p + x == x && p + y == y;
    }
  }

  /** Of two texts of equal length, the smaller stays smaller whatever follows each. */
  lemma {:induction false} LexLessExtended(p: string, q: string, x: string, y: string)
    requires |p| == |q| && LexLess(p, q)
    ensures LexLess(p + x, q + y)
    decreases |p|
  {
    assert (p + x)[0] == p[0] && (q + y)[0] == q[0];
    if p[0] == q[0] {
      assert (p + x)[1..] == p[1..] + x && (q + y)[1..] == q[1..] + y;
      LexLessExtended(p[1..], q[1..], x, y);
    }
  }

  /** Zero-padded fields of one width sort as the numbers they hold. */
  lemma {:induction false} PadOrder(a: nat, b: nat, w: nat)
    requires a < b < Pow10(w)
    ensures LexLess(Pad(a, w), Pad(b, w))
  {
    assert w > 0;
    var pa := Pad(a / 10, w - 1);
    var pb := Pad(b / 10, w - 1);
    if a / 10 < b / 10 {
      PadOrder(a / 10, b / 10, w - 1);
      LexLessExtended(pa, pb, [DigitChar(a % 10)], [DigitChar(b % 10)]);
    } else {
      assert a / 10 == b / 10 && a % 10 < b % 10;
      LexLessBehindPrefix(pa, [DigitChar(a % 10)], [DigitChar(b % 10)]);
    }
  }
}
