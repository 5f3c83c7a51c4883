/** The record every collector produces, and the minute-precision date text it carries. */
module News {
  import opened Wrappers
  import opened Dates

  /** One article: the dictionary with keys date, title, content, source and url. */
  datatype NewsRecord = NewsRecord(date: string, title: string, content: string, source: string, url: string)

  /** t.strftime('%Y-%m-%d %H:%M'), the date text of every record; it reads back as the
      datetime truncated to the minute. */
  function Stamp(t: DateTime): (r: string)
    requires Valid(t)
    ensures Strptime(r, DateMinute) == Some(Truncate(t))
  {
    DateMinuteRoundTrip(t);
    Strftime(DateMinute, t)
  }

  /** The date of a record as the time filters and the sort read it. */
  function DateOf(r: NewsRecord): Option<DateTime> {
    Strptime(r.date, DateMinute)
  }

  /** The record's date reads as '%Y-%m-%d %H:%M' and is not earlier than the cutoff. */
  predicate InWindow(r: NewsRecord, cutoff: DateTime) {
    DateOf(r).Some? && !Before(DateOf(r).value, cutoff)
  }

  /** Two datetimes equal up to the seconds are stamped with the same text. */
  lemma StampIgnoresSeconds(t: DateTime)
    requires Valid(t)
    ensures Stamp(Truncate(t)) == Stamp(t)
  {
    StrftimeIgnoresSeconds(DateMinute, t);
  }
}
