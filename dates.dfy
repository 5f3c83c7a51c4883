/** Python's naive `datetime`, and `strptime` / `strftime` for the format strings the
    crawlers use. A format is a list of directives; parsing walks the directives left to
    right over the text, as CPython's `_strptime` does with the regular expression it
    builds from the format, and then builds the datetime, which fails when the fields do
    not form a real date. */
module Dates {
  import opened Wrappers
  import opened Text

  /** A naive datetime: no time zone, microsecond precision. */
  datatype DateTime = DateTime(year: int, month: int, day: int, hour: int, minute: int, second: int, micro: int)

  predicate IsLeap(y: int) {
    y % 4 == 0 && (y % 100 != 0 || y % 400 == 0)
  }

  function DaysIn(y: int, m: int): int {
    if m == 2 then (if IsLeap(y) then 29 else 28)
    else if m == 4 || m == 6 || m == 9 || m == 11 then 30
    else 31
  }

  /** The field ranges the datetime constructor accepts. */
  predicate Valid(t: DateTime) {
    && 1 <= t.year <= 9999
    && 1 <= t.month <= 12
    && 1 <= t.day <= DaysIn(t.year, t.month)
    && 0 <= t.hour < 24 && 0 <= t.minute < 60 && 0 <= t.second < 60
    && 0 <= t.micro < 1000000
  }

  /** `a < b` on datetimes: the fields compared from the year down to the microsecond. */
  predicate Before(a: DateTime, b: DateTime) {
    if a.year != b.year then a.year < b.year
    else if a.month != b.month then a.month < b.month
    else if a.day != b.day then a.day < b.day
    else if a.hour != b.hour then a.hour < b.hour
    else if a.minute != b.minute then a.minute < b.minute
    else if a.second != b.second then a.second < b.second
    else a.micro < b.micro
  }

  lemma BeforeIsStrictTotalOrder()
    ensures forall a :: !Before(a, a)
    ensures forall a, b :: a != b ==> Before(a, b) || Before(b, a)
    ensures forall a, b :: Before(a, b) ==> !Before(b, a)
    ensures forall a, b, c :: Before(a, b) && Before(b, c) ==> Before(a, c)
  {
  }

  /** The value a datetime keeps when it is written with minute precision and read back. */
  function Truncate(t: DateTime): DateTime {
    t.(second := 0, micro := 0)
  }

  /** Truncating both sides to the minute keeps `a` not earlier than `b`. */
  lemma TruncateKeepsOrder(a: DateTime, b: DateTime)
    requires !Before(a, b)
    ensures !Before(Truncate(a), Truncate(b))
  {
  }

  // ----- formats -----

  /** One element of a format string: a literal character or a `%` directive. */
  datatype Directive =
    | Lit(c: char)
    | Year          // %Y
    | Month         // %m
    | Day           // %d
    | Hour          // %H
    | Minute        // %M
    | Second        // %S
    | WeekdayName   // %a
    | MonthName     // %b
    | Zone          // %z

  type Format = seq<Directive>

  /** '%Y-%m-%d %H:%M', the date field of every record. */
  const DateMinute: Format := [Year, Lit('-'), Month, Lit('-'), Day, Lit(' '), Hour, Lit(':'), Minute]
  /** '%Y-%m-%d %H:%M:%S', the generation stamp of the report. */
  const DateSecond: Format := DateMinute + [Lit(':'), Second]
  /** '%Y%m%d', the date in output file names. */
  const CompactDay: Format := [Year, Month, Day]
  /** '%Y.%m.%d %H:%M', the Naver article page. */
  const DottedMinute: Format := [Year, Lit('.'), Month, Lit('.'), Day, Lit(' '), Hour, Lit(':'), Minute]
  /** '%Y.%m.%d', the Naver listing and the date-only article page. */
  const DottedDay: Format := [Year, Lit('.'), Month, Lit('.'), Day]
  /** '%a, %d %b %Y %H:%M:%S', an RSS pubDate without its zone. */
  const RfcNaive: Format := [WeekdayName, Lit(','), Lit(' '), Day, Lit(' '), MonthName, Lit(' '), Year,
                             Lit(' '), Hour, Lit(':'), Minute, Lit(':'), Second]
  /** '%a, %d %b %Y %H:%M:%S %z', a pubDate of the Naver search API. */
  const RfcZoned: Format := RfcNaive + [Lit(' '), Zone]

  /** The abbreviated names as `_strptime` holds them (lower case, Monday first). */
  const WeekdayNames: seq<string> := ["mon", "tue", "wed", "thu", "fri", "sat", "sun"]
  const MonthNames: seq<string> := ["jan", "feb", "mar", "apr", "may", "jun", "jul", "aug", "sep", "oct", "nov", "dec"]

  /** The fields a parse starts from, as in `_strptime`. */
  const Default := DateTime(1900, 1, 1, 0, 0, 0, 0)

  /** The number of characters a numeric directive reads. */
  function Width(d: Directive): nat {
    if d == Year then 4 else 2
  }

  predicate Numeric(d: Directive) {
    d == Year || d == Month || d == Day || d == Hour || d == Minute || d == Second
  }

  /** The datetime `acc` with the field of numeric directive `d` set to `v`. */
  function SetField(d: Directive, v: int, acc: DateTime): DateTime
    requires Numeric(d)
  {
    match d
    case Year => acc.(year := v)
    case Month => acc.(month := v)
    case Day => acc.(day := v)
    case Hour => acc.(hour := v)
    case Minute => acc.(minute := v)
    case Second => acc.(second := v)
  }

  /** The index of the name the text starts with, compared case-insensitively, as the
      IGNORECASE regular expression of `_strptime` does. */
  function NameIndex(names: seq<string>, s: string): (r: Option<nat>)
    ensures r.Some? ==> |s| >= 3 && r.value < |names| && Lower(s[..3]) == names[r.value]
    ensures r.None? ==> |s| < 3 || Lower(s[..3]) !in names
  {
    if |s| < 3 then None else FirstIndex(names, Lower(s[..3]), 0)
  }

  function FirstIndex(names: seq<string>, key: string, i: nat): (r: Option<nat>)
    decreases |names| - i
    ensures r.Some? ==> i <= r.value < |names| && names[r.value] == key
    ensures r.Some? ==> forall j :: i <= j < r.value ==> names[j] != key
    ensures r.None? ==> forall j :: i <= j < |names| ==> names[j] != key
  {
    if i >= |names| then None
    else if names[i] == key then Some(i)
    else FirstIndex(names, key, i + 1)
  }

  /** The length of the UTC offset `%z` reads at the start of `s`: `Z`, `+HHMM` or
      `+HH:MM` (either sign), with hours below 24; 0 when there is none. */
  function ZoneLength(s: string): (n: nat)
    ensures n <= |s|
  {
    if |s| >= 1 && s[0] == 'Z' then 1
    else if |s| >= 6 && (s[0] == '+' || s[0] == '-') && AllDigits(s[1..3]) && s[3] == ':'
            && AllDigits(s[4..6]) && Value(s[1..3]) < 24 && Value(s[4..6]) < 60 then 6
    else if |s| >= 5 && (s[0] == '+' || s[0] == '-') && AllDigits(s[1..3]) && AllDigits(s[3..5])
            && Value(s[1..3]) < 24 && Value(s[3..5]) < 60 then 5
    else 0
  }

  /** Reads `s` against the directives, setting the fields of `acc`; None when the text does
      not match the format or has characters left over. */
  function Match(fmt: Format, s: string, acc: DateTime): Option<DateTime>
    decreases |fmt|
  {
    if fmt == [] then (if s == [] then Some(acc) else None)
    else
      match fmt[0]
      case Lit(c) =>
        if s != [] && s[0] == c then Match(fmt[1..], s[1..], acc) else None
      case WeekdayName =>
        if NameIndex(WeekdayNames, s).Some? then Match(fmt[1..], s[3..], acc) else None
      case MonthName =>
        var i := NameIndex(MonthNames, s);
        if i.Some? then Match(fmt[1..], s[3..], acc.(month := i.value + 1)) else None
      case Zone =>
        var n := ZoneLength(s);
        if n > 0 then Match(fmt[1..], s[n..], acc) else None
      case _ =>
        var w := Width(fmt[0]);
        if |s| >= w && AllDigits(s[..w]) then Match(fmt[1..], s[w..], SetField(fmt[0], Value(s[..w]), acc))
        else None
  }

  /** datetime.strptime(s, fmt), with None for the ValueError. */
  function Strptime(s: string, fmt: Format): (r: Option<DateTime>)
    ensures r.Some? ==> Valid(r.value)
  {
    var m := Match(fmt, s, Default);
    if m.Some? && Valid(m.value) then m else None
  }

  /** The weekday of a date (0 = Monday), by Sakamoto's method. */
  function Weekday(t: DateTime): (w: nat)
    requires Valid(t)
    ensures w < 7
  {
    var offsets := [0, 3, 2, 5, 0, 3, 5, 1, 4, 6, 2, 4];
    var y := if t.month < 3 then t.year - 1 else t.year;
    var sunday0 := (y + y / 4 - y / 100 + y / 400 + offsets[t.month - 1] + t.day) % 7;
    (sunday0 + 6) % 7
  }

  function UpperChar(c: char): char {
    if 'a' <= c <= 'z' then (c as int - 32) as char else c
  }

  /** "thu" -> "Thu" */
  function Capitalize(name: string): string {
    if name == [] then [] else [UpperChar(name[0])] + name[1..]
  }

  /** What strftime writes for one directive. A naive datetime has no offset, so `%z`
      writes nothing. */
  function Render(d: Directive, t: DateTime): string
    requires Valid(t)
  {
    match d
    case Lit(c) => [c]
    case Year => Pad(t.year, 4)
    case Month => Pad(t.month, 2)
    case Day => Pad(t.day, 2)
    case Hour => Pad(t.hour, 2)
    case Minute => Pad(t.minute, 2)
    case Second => Pad(t.second, 2)
    case WeekdayName => Capitalize(WeekdayNames[Weekday(t)])
    case MonthName => Capitalize(MonthNames[t.month - 1])
    case Zone => ""
  }

  /** t.strftime(fmt) */
  function Strftime(fmt: Format, t: DateTime): string
    requires Valid(t)
  {
    if fmt == [] then "" else Render(fmt[0], t) + Strftime(fmt[1..], t)
  }

  lemma {:induction false} StrftimeAppend(f: Format, g: Format, t: DateTime)
    requires Valid(t)
    ensures Strftime(f + g, t) == Strftime(f, t) + Strftime(g, t)
  {
    if f == [] {
      assert f + g == g;
    } else {
      assert (f + g)[0] == f[0] && (f + g)[1..] == f[1..] + g;
      StrftimeAppend(f[1..], g, t);
    }
  }

  /** The fields of `acc` that the directives of `fmt` overwrite with those of `t`. */
  function Overlay(fmt: Format, t: DateTime, acc: DateTime): DateTime {
    DateTime(
      if Year in fmt then t.year else acc.year,
      if Month in fmt || MonthName in fmt then t.month else acc.month,
      if Day in fmt then t.day else acc.day,
      if Hour in fmt then t.hour else acc.hour,
      if Minute in fmt then t.minute else acc.minute,
      if Second in fmt then t.second else acc.second,
      acc.micro)
  }

  lemma NamesAreLowerCase()
    ensures forall i :: 0 <= i < |WeekdayNames| ==> |WeekdayNames[i]| == 3 && forall j :: 0 <= j < 3 ==> 'a' <= WeekdayNames[i][j] <= 'z'
    ensures forall i :: 0 <= i < |MonthNames| ==> |MonthNames[i]| == 3 && forall j :: 0 <= j < 3 ==> 'a' <= MonthNames[i][j] <= 'z'
  {
  }

  /** A capitalized name, followed by anything, is read back as that name. */
  lemma NameIndexCapitalized(names: seq<string>, i: nat, rest: string)
    requires i < |names|
    requires forall k :: 0 <= k < |names| ==> |names[k]| == 3 && forall j :: 0 <= j < 3 ==> 'a' <= names[k][j] <= 'z'
    requires forall k, l :: 0 <= k < l < |names| ==> names[k] != names[l]
    ensures NameIndex(names, Capitalize(names[i]) + rest) == Some(i)
  {
    var s := Capitalize(names[i]) + rest;
    assert s[..3] == Capitalize(names[i]);
    assert Lower(s[..3]) == names[i];
    var r := FirstIndex(names, names[i], 0);
    assert r.Some?;
  }

  /** The fields of `acc` after reading what directive `d` wrote for `t`. */
  function Absorb(d: Directive, t: DateTime, acc: DateTime): DateTime {
    match d
    case Year => acc.(year := t.year)
    case Month => acc.(month := t.month)
    case MonthName => acc.(month := t.month)
    case Day => acc.(day := t.day)
    case Hour => acc.(hour := t.hour)
    case Minute => acc.(minute := t.minute)
    case Second => acc.(second := t.second)
    case _ => acc
  }

  /** The field of `t` that numeric directive `d` writes. */
  function FieldOf(d: Directive, t: DateTime): int
    requires Numeric(d)
  {
    match d
    case Year => t.year
    case Month => t.month
    case Day => t.day
    case Hour => t.hour
    case Minute => t.minute
    case Second => t.second
  }

  /** One directive reads back exactly the characters it wrote. */
  lemma MatchStep(d: Directive, rest: Format, t: DateTime, tail: string, acc: DateTime)
    requires Valid(t) && d != Zone
    ensures Match([d] + rest, Render(d, t) + tail, acc) == Match(rest, tail, Absorb(d, t, acc))
  {
    match d
    case Lit(c) => MatchLit(c, rest, tail, acc);
    case WeekdayName => MatchWeekdayName(rest, t, tail, acc);
    case MonthName => MatchMonthName(rest, t, tail, acc);
    case Year => MatchNumber(d, rest, t, tail, acc);
    case Month => MatchNumber(d, rest, t, tail, acc);
    case Day => MatchNumber(d, rest, t, tail, acc);
    case Hour => MatchNumber(d, rest, t, tail, acc);
    case Minute => MatchNumber(d, rest, t, tail, acc);
    case Second => MatchNumber(d, rest, t, tail, acc);
  }

  lemma MatchLit(c: char, rest: Format, tail: string, acc: DateTime)
    ensures Match([Lit(c)] + rest, [c] + tail, acc) == Match(rest, tail, acc)
  {
    var f := [Lit(c)] + rest;
    assert f[0] == Lit(c) && f[1..] == rest;
    assert ([c] + tail)[1..] == tail;
  }

  lemma MatchWeekdayName(rest: Format, t: DateTime, tail: string, acc: DateTime)
    requires Valid(t)
    ensures Match([WeekdayName] + rest, Render(WeekdayName, t) + tail, acc) == Match(rest, tail, acc)
  {
    var f := [WeekdayName] + rest;
    var text := Render(WeekdayName, t) + tail;
    assert f[0] == WeekdayName && f[1..] == rest;
    NamesAreLowerCase();
    NamesDistinct();
    NameIndexCapitalized(WeekdayNames, Weekday(t), tail);
    assert text[3..] == tail;
  }

  lemma MatchMonthName(rest: Format, t: DateTime, tail: string, acc: DateTime)
    requires Valid(t)
    ensures Match([MonthName] + rest, Render(MonthName, t) + tail, acc) == Match(rest, tail, acc.(month := t.month))
  {
    var f := [MonthName] + rest;
    var text := Render(MonthName, t) + tail;
    assert f[0] == MonthName && f[1..] == rest;
    NamesAreLowerCase();
    NamesDistinct();
    NameIndexCapitalized(MonthNames, t.month - 1, tail);
    assert text[3..] == tail;
  }

  lemma MatchNumber(d: Directive, rest: Format, t: DateTime, tail: string, acc: DateTime)
    requires Valid(t) && Numeric(d)
    ensures Match([d] + rest, Render(d, t) + tail, acc) == Match(rest, tail, Absorb(d, t, acc))
  {
    var f := [d] + rest;
    assert f[0] == d && f[1..] == rest;
    var w := Width(d);
    var v := FieldOf(d, t);
    var text := Render(d, t) + tail;
    assert Render(d, t) == Pad(v, w);
    assert text[..w] == Pad(v, w) && text[w..] == tail;
    assert Pow10(2) == 100 && Pow10(4) == 10000;
    PadValue(v, w);
    assert SetField(d, v, acc) == Absorb(d, t, acc);
  }

  lemma NamesDistinct()
    ensures forall k, l :: 0 <= k < l < |WeekdayNames| ==> WeekdayNames[k] != WeekdayNames[l]
    ensures forall k, l :: 0 <= k < l < |MonthNames| ==> MonthNames[k] != MonthNames[l]
  {
  }

  lemma OverlayStep(d: Directive, rest: Format, t: DateTime, acc: DateTime)
    ensures Overlay([d] + rest, t, acc) == Overlay(rest, t, Absorb(d, t, acc))
  {
    var f := [d] + rest;
    assert forall x :: x in f <==> x == d || x in rest;
  }

  /** Writing a datetime with a format and reading the text back sets exactly the fields
      the format names; the rest of the text is left for the following directives. */
  lemma {:induction false} MatchStrftime(f: Format, g: Format, t: DateTime, s: string, acc: DateTime)
    requires Valid(t) && Zone !in f
    ensures Match(f + g, Strftime(f, t) + s, acc) == Match(g, s, Overlay(f, t, acc))
  {
    if f == [] {
      assert f + g == g;
      assert Strftime(f, t) + s == s;
      assert Overlay(f, t, acc) == acc;
    } else {
      var d := f[0];
      var tail := Strftime(f[1..], t) + s;
      assert Strftime(f, t) + s == Render(d, t) + tail;
      assert f + g == [d] + (f[1..] + g);
      assert f == [d] + f[1..];
      assert d != Zone && Zone !in f[1..];
      MatchStep(d, f[1..] + g, t, tail, acc);
      MatchStrftime(f[1..], g, t, s, Absorb(d, t, acc));
      OverlayStep(d, f[1..], t, acc);
    }
  }

  /** strptime(strftime(t, fmt), fmt) for a format without `%z`. */
  lemma StrptimeStrftime(fmt: Format, t: DateTime)
    requires Valid(t) && Zone !in fmt && Valid(Overlay(fmt, t, Default))
    ensures Strptime(Strftime(fmt, t), fmt) == Some(Overlay(fmt, t, Default))
  {
    MatchStrftime(fmt, [], t, [], Default);
    assert fmt + [] == fmt && Strftime(fmt, t) + [] == Strftime(fmt, t);
  }

  /** A record's date, written '%Y-%m-%d %H:%M' and read back, is the datetime
      truncated to the minute. */
  lemma DateMinuteRoundTrip(t: DateTime)
    requires Valid(t)
    ensures Strptime(Strftime(DateMinute, t), DateMinute) == Some(Truncate(t))
  {
    assert Overlay(DateMinute, t, Default) == Truncate(t);
    StrptimeStrftime(DateMinute, t);
  }

  /** Every text that reads as '%Y-%m-%d %H:%M' holds a datetime with second and
      microsecond zero, and within the range of the datetime constructor. */
  lemma DateMinuteReadsWholeMinutes(s: string)
    requires Strptime(s, DateMinute).Some?
    ensures Strptime(s, DateMinute).value == Truncate(Strptime(s, DateMinute).value)
  {
    MatchKeepsUnset(DateMinute, s, Default);
  }

  /** Reading never touches the fields the format does not name. */
  lemma {:induction false} MatchKeepsUnset(fmt: Format, s: string, acc: DateTime)
    requires Match(fmt, s, acc).Some?
    ensures Second !in fmt ==> Match(fmt, s, acc).value.second == acc.second
    ensures Match(fmt, s, acc).value.micro == acc.micro
  {
    if fmt != [] {
      assert fmt == [fmt[0]] + fmt[1..];
      match fmt[0]
      case Lit(c) => MatchKeepsUnset(fmt[1..], s[1..], acc);
      case WeekdayName => MatchKeepsUnset(fmt[1..], s[3..], acc);
      case MonthName =>
        MatchKeepsUnset(fmt[1..], s[3..], acc.(month := NameIndex(MonthNames, s).value + 1));
      case Zone => MatchKeepsUnset(fmt[1..], s[ZoneLength(s)..], acc);
      case _ =>
        var w := Width(fmt[0]);
        MatchKeepsUnset(fmt[1..], s[w..], SetField(fmt[0], Value(s[..w]), acc));
    }
  }

  /** Writing with a format that has no `%S` does not look at the seconds. */
  lemma {:induction false} StrftimeIgnoresSeconds(fmt: Format, t: DateTime)
    requires Valid(t) && Second !in fmt
    ensures Strftime(fmt, Truncate(t)) == Strftime(fmt, t)
  {
    if fmt != [] {
      assert Weekday(Truncate(t)) == Weekday(t);
      assert Render(fmt[0], Truncate(t)) == Render(fmt[0], t);
      assert Second !in fmt[1..];
      StrftimeIgnoresSeconds(fmt[1..], t);
    }
  }

  lemma {:induction false} StrftimeCons(d: Directive, f: Format, t: DateTime)
    requires Valid(t)
    ensures Strftime([d] + f, t) == Render(d, t) + Strftime(f, t)
  {
    assert ([d] + f)[0] == d && ([d] + f)[1..] == f;
  }

  /** '%Y.%m.%d' writes the three fields zero-padded and separated by dots. */
  lemma DottedDayText(t: DateTime)
    requires Valid(t)
    ensures Strftime(DottedDay, t) == Pad(t.year, 4) + "." + Pad(t.month, 2) + "." + Pad(t.day, 2)
  {
    StrftimeOfThree(Year, Month, Day, '.', t);
  }

  /** Three directives joined by one separator write their texts joined by it. */
  lemma StrftimeOfThree(a: Directive, b: Directive, c: Directive, sep: char, t: DateTime)
    requires Valid(t) && Numeric(a) && Numeric(b) && Numeric(c)
    ensures Strftime([a, Lit(sep), b, Lit(sep), c], t) == Render(a, t) + ([sep] + (Render(b, t) + ([sep] + Render(c, t))))
  {
    var f4: Format := [c];
    var f3 := [Lit(sep)] + f4;
    var f2 := [b] + f3;
    var f1 := [Lit(sep)] + f2;
    assert [a] + f1 == [a, Lit(sep), b, Lit(sep), c];
    assert Strftime(f4, t) == Render(c, t) by {
      assert [c] + [] == f4;
      StrftimeCons(c, [], t);
      assert Render(c, t) + [] == Render(c, t);
    }
    StrftimeCons(Lit(sep), f4, t);
    StrftimeCons(b, f3, t);
    StrftimeCons(Lit(sep), f2, t);
    StrftimeCons(a, f1, t);
  }

  /** The date of `t` at midnight, as '%Y.%m.%d' reads it back. */
  function Midnight(t: DateTime): DateTime {
    DateTime(t.year, t.month, t.day, 0, 0, 0, 0)
  }

  lemma DottedDayRoundTrip(t: DateTime)
    requires Valid(t)
    ensures Strptime(Strftime(DottedDay, t), DottedDay) == Some(Midnight(t))
  {
    assert Overlay(DottedDay, t, Default) == Midnight(t);
    StrptimeStrftime(DottedDay, t);
  }

  /** A date written '%Y.%m.%d' does not read as '%Y.%m.%d %H:%M'. */
  lemma DayIsNotMinute(t: DateTime)
    requires Valid(t)
    ensures Strptime(Strftime(DottedDay, t), DottedMinute) == None
  {
    var rest: Format := [Lit(' '), Hour, Lit(':'), Minute];
    assert DottedMinute == DottedDay + rest;
    assert Zone !in DottedDay;
    MatchStrftime(DottedDay, rest, t, [], Default);
    assert Strftime(DottedDay, t) + [] == Strftime(DottedDay, t);
  }

  /** '%Y.%m.%d %H:%M' read back gives the datetime truncated to the minute. */
  lemma DottedMinuteRoundTrip(t: DateTime)
    requires Valid(t)
    ensures Strptime(Strftime(DottedMinute, t), DottedMinute) == Some(Truncate(t))
  {
    assert Overlay(DottedMinute, t, Default) == Truncate(t);
    StrptimeStrftime(DottedMinute, t);
  }

  /** Which directives an RSS date holds. */
  lemma RfcNaiveDirectives()
    ensures Year in RfcNaive && MonthName in RfcNaive && Day in RfcNaive && Hour in RfcNaive
    ensures Minute in RfcNaive && Second in RfcNaive && Month !in RfcNaive && Zone !in RfcNaive
    ensures Zone !in RfcNaive[..13] && RfcNaive == RfcNaive[..13] + [Second]
    ensures forall d :: d in RfcNaive ==> d != Lit('G')
  {
    var f := RfcNaive;
    assert f[0] == WeekdayName && f[3] == Day && f[5] == MonthName && f[7] == Year;
    assert f[9] == Hour && f[11] == Minute && f[13] == Second;
    assert forall i :: 0 <= i < |f| ==> f[i] != Month && f[i] != Zone && f[i] != Lit('G');
    assert f[..13] + [Second] == f;
  }

  /** An RSS date starts with the weekday name. */
  lemma RfcStartsWithWeekday(t: DateTime)
    requires Valid(t)
    ensures Strftime(RfcNaive, t) == Capitalize(WeekdayNames[Weekday(t)]) + Strftime(RfcNaive[1..], t)
  {
    assert RfcNaive == [WeekdayName] + RfcNaive[1..];
    StrftimeCons(WeekdayName, RfcNaive[1..], t);
  }

  lemma WeekdayNameStartsWithLetter(t: DateTime)
    requires Valid(t)
    ensures |Capitalize(WeekdayNames[Weekday(t)])| == 3 && 'A' <= Capitalize(WeekdayNames[Weekday(t)])[0] <= 'Z'
  {
    var w := Weekday(t);
    assert w in {0, 1, 2, 3, 4, 5, 6};
  }

  /** An RSS date is its text up to the seconds followed by the two digits of the seconds. */
  lemma RfcNaiveEndsWithSeconds(t: DateTime)
    requires Valid(t)
    ensures RfcNaive == RfcNaive[..13] + [Second]
    ensures Strftime(RfcNaive, t) == Strftime(RfcNaive[..13], t) + Pad(t.second, 2)
  {
    RfcNaiveDirectives();
    EndsWithSeconds(RfcNaive[..13], t);
  }

  /** A format ending in '%S' writes the two digits of the seconds last. */
  lemma EndsWithSeconds(f: Format, t: DateTime)
    requires Valid(t)
    ensures Strftime(f + [Second], t) == Strftime(f, t) + Pad(t.second, 2)
  {
    StrftimeAppend(f, [Second], t);
    assert Strftime([Second], t) == Pad(t.second, 2) + Strftime([], t);
    assert Pad(t.second, 2) + [] == Pad(t.second, 2);
  }

  /** The RSS date text without its seconds does not read as an RSS date. */
  lemma RfcWithoutSecondsFails(t: DateTime)
    requires Valid(t)
    ensures Strptime(Strftime(RfcNaive[..13], t), RfcNaive) == None
  {
    RfcNaiveEndsWithSeconds(t);
    RfcNaiveDirectives();
    var f := RfcNaive[..13];
    MatchStrftime(f, [Second], t, [], Default);
    assert Strftime(f, t) + [] == Strftime(f, t);
  }

  /** The RSS date text reads back as the datetime without its microseconds. */
  lemma RfcRoundTrip(t: DateTime)
    requires Valid(t)
    ensures Strptime(Strftime(RfcNaive, t), RfcNaive) == Some(t.(micro := 0))
  {
    RfcNaiveDirectives();
    assert Overlay(RfcNaive, t, Default) == t.(micro := 0);
    StrptimeStrftime(RfcNaive, t);
  }

  /** A space and a well-formed UTC offset read as ' %z'. */
  lemma ZoneSuffix(z: string, acc: DateTime)
    requires 0 < ZoneLength(z) == |z|
    ensures Match([Lit(' '), Zone], " " + z, acc) == Some(acc)
  {
    var g: Format := [Lit(' '), Zone];
    assert g[1..] == [Zone] && (" " + z)[1..] == z;
    assert [Zone][1..] == [] && z[|z|..] == [];
  }

  /** A format followed by ' %z' reads what the format wrote followed by any offset. */
  lemma ZonedReadsOffset(f: Format, t: DateTime, z: string)
    requires Valid(t) && Zone !in f && Valid(Overlay(f, t, Default))
    requires 0 < ZoneLength(z) == |z|
    ensures Strptime(Strftime(f, t) + " " + z, f + [Lit(' '), Zone]) == Some(Overlay(f, t, Default))
  {
    MatchStrftime(f, [Lit(' '), Zone], t, " " + z, Default);
    assert Strftime(f, t) + " " + z == Strftime(f, t) + (" " + z);
    ZoneSuffix(z, Overlay(f, t, Default));
  }

  /** '%a, %d %b %Y %H:%M:%S %z' accepts any well-formed UTC offset after the date and
      keeps the wall-clock fields only: the offset is read and dropped. */
  lemma RfcZonedDropsOffset(t: DateTime, z: string)
    requires Valid(t) && 0 < ZoneLength(z) == |z|
    ensures Strptime(Strftime(RfcNaive, t) + " " + z, RfcZoned) == Some(t.(micro := 0))
  {
    RfcNaiveDirectives();
    assert Overlay(RfcNaive, t, Default) == t.(micro := 0);
    ZonedReadsOffset(RfcNaive, t, z);
  }

  lemma NamesHaveNoG()
    ensures forall i :: 0 <= i < |WeekdayNames| ==> 'G' !in Capitalize(WeekdayNames[i])
    ensures forall i :: 0 <= i < |MonthNames| ==> 'G' !in Capitalize(MonthNames[i])
  {
  }

  lemma NamesHaveNoNewline()
    ensures forall i :: 0 <= i < |WeekdayNames| ==> '\n' !in Capitalize(WeekdayNames[i])
    ensures forall i :: 0 <= i < |MonthNames| ==> '\n' !in Capitalize(MonthNames[i])
  {
  }

  /** A character that is no digit, appears in no name and is no literal of the format is
      never written. */
  lemma {:induction false} TextOmits(c: char, fmt: Format, t: DateTime)
    requires Valid(t) && !IsDigit(c) && forall d :: d in fmt ==> d != Lit(c)
    requires forall i :: 0 <= i < |WeekdayNames| ==> c !in Capitalize(WeekdayNames[i])
    requires forall i :: 0 <= i < |MonthNames| ==> c !in Capitalize(MonthNames[i])
    ensures c !in Strftime(fmt, t)
  {
    if fmt != [] {
      var d := fmt[0];
      assert d in fmt;
      assert c !in Render(d, t);
      assert forall x :: x in fmt[1..] ==> x in fmt;
      TextOmits(c, fmt[1..], t);
    }
  }

  /** No directive of a format free of the literal 'G' writes the letter 'G'. */
  lemma TextHasNoG(fmt: Format, t: DateTime)
    requires Valid(t) && forall d :: d in fmt ==> d != Lit('G')
    ensures 'G' !in Strftime(fmt, t)
  {
    NamesHaveNoG();
    TextOmits('G', fmt, t);
  }

  /** A text written '%Y-%m-%d %H:%M:%S' is one line. */
  lemma SecondTextIsOneLine(t: DateTime)
    requires Valid(t)
    ensures '\n' !in Strftime(DateSecond, t)
  {
    NamesHaveNoNewline();
    TextOmits('\n', DateSecond, t);
  }

  /** A datetime written '%Y-%m-%d %H:%M:%S' and read back loses only its microseconds. */
  lemma DateSecondRoundTrip(t: DateTime)
    requires Valid(t)
    ensures Strptime(Strftime(DateSecond, t), DateSecond) == Some(t.(micro := 0))
  {
    var f := DateSecond;
    assert f[0] == Year && f[2] == Month && f[4] == Day && f[6] == Hour && f[8] == Minute && f[10] == Second;
    assert forall i :: 0 <= i < |f| ==> f[i] != Zone;
    assert Overlay(DateSecond, t, Default) == t.(micro := 0);
    StrptimeStrftime(DateSecond, t);
  }

  /** The text of '%Y%m%d'. */
  lemma CompactDayText(t: DateTime)
    requires Valid(t)
    ensures Strftime(CompactDay, t) == Pad(t.year, 4) + Pad(t.month, 2) + Pad(t.day, 2)
  {
    assert CompactDay == [Year] + ([Month] + ([Day] + []));
    StrftimeCons(Day, [], t);
    StrftimeCons(Month, [Day], t);
    StrftimeCons(Year, [Month, Day], t);
  }

  /** '%Y%m%d' texts sort as the days they name. */
  lemma CompactDayOrder(a: DateTime, b: DateTime)
    requires Valid(a) && Valid(b) && Before(Midnight(a), Midnight(b))
    ensures LexLess(Strftime(CompactDay, a), Strftime(CompactDay, b))
  {
    CompactDayText(a);
    CompactDayText(b);
    var ya, yb := Pad(a.year, 4), Pad(b.year, 4);
    var ma, mb := Pad(a.month, 2), Pad(b.month, 2);
    var da, db := Pad(a.day, 2), Pad(b.day, 2);
    assert Pow10(2) == 100 && Pow10(4) == 10000;
    if a.year != b.year {
      PadOrder(a.year, b.year, 4);
      LexLessExtended(ya, yb, ma + da, mb + db);
      assert ya + ma + da == ya + (ma + da) && yb + mb + db == yb + (mb + db);
    } else if a.month != b.month {
      PadOrder(a.month, b.month, 2);
      LexLessExtended(ma, mb, da, db);
      LexLessBehindPrefix(ya, ma + da, mb + db);
      assert ya + ma + da == ya + (ma + da) && yb + mb + db == ya + (mb + db);
    } else {
      PadOrder(a.day, b.day, 2);
      LexLessBehindPrefix(ya + ma, da, db);
    }
  }
}
