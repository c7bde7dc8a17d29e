/** The request models of the web layer: `EventData`, whose date and time
    fields carry a pattern and a parsing validator, and `FreeSlotRequest`,
    whose optional fields have defaults. Validation either yields the typed
    record or the list of offending field names, as pydantic collects all
    failures of one model. */
module Schemas {
  import opened Wrappers
  import opened Text
  import opened Civil
  import opened Strptime

  /** The field pattern `^\d{4}-\d{2}-\d{2}$`. */
  predicate DatePattern(s: string)
  {
    |s| == 10 && s[4] == '-' && s[7] == '-'
    && IsDigit(s[0]) && IsDigit(s[1]) && IsDigit(s[2]) && IsDigit(s[3])
    && IsDigit(s[5]) && IsDigit(s[6]) && IsDigit(s[8]) && IsDigit(s[9])
  }

  /** The field pattern `^\d{2}:\d{2}$`. */
  predicate TimePattern(s: string)
  {
    |s| == 5 && s[2] == ':' && IsDigit(s[0]) && IsDigit(s[1]) && IsDigit(s[3]) && IsDigit(s[4])
  }

  /** `EventData.date`: the pattern, then `validate_date`'s strptime. */
  predicate DateAccepted(s: string)
  {
    DatePattern(s) && ParseDate(s).Some?
  }

  /** `EventData.start_range` / `end_range`: the pattern, then `validate_time`. */
  predicate TimeAccepted(s: string)
  {
    TimePattern(s) && ParseHM(s).Some?
  }

  /** The date the ten characters of a `DatePattern` string spell. */
  function PatternDate(s: string): Date
    requires DatePattern(s)
  {
    Date(Value2(s[0], s[1]) * 100 + Value2(s[2], s[3]), Value2(s[5], s[6]), Value2(s[8], s[9]))
  }

  function Value2(a: char, b: char): nat
    requires IsDigit(a) && IsDigit(b)
  {
    DigitValue(a) * 10 + DigitValue(b)
  }

  /** A date string is accepted exactly when it has the pattern and names a
      real calendar date (year 1 or later, month 1 to 12, a day of that
      month); the validator then reads that very date. */
  lemma DateAcceptedIff(s: string)
    requires DatePattern(s)
    ensures DateAccepted(s) <==> ValidDate(PatternDate(s))
    ensures DateAccepted(s) ==> ParseDate(s) == Some(PatternDate(s))
  {
    var d := PatternDate(s);
    FourDigits(s[..4]);
    TwoDigits(s[5..7]);
    assert DigitsValue(s[..4]) == d.year && DigitsValue(s[5..7]) == d.month;
    var rest := s[8..];
    assert Strptime.MonthLength(s) == 0 || (Strptime.MonthLength(s) == 2 && s[6 + Strptime.MonthLength(s)..] == rest);
    if ValidDate(d) {
      assert Strptime.MonthLength(s) == 2;
      assert DayText(rest) && DayValue(rest) == d.day;
    }
  }

  /** A time string is accepted exactly when it has the pattern, its hour is
      00 to 23 and its minute 00 to 59. */
  lemma TimeAcceptedIff(s: string)
    requires TimePattern(s)
    ensures TimeAccepted(s) <==> Value2(s[0], s[1]) <= 23 && Value2(s[3], s[4]) <= 59
    ensures TimeAccepted(s) ==> ParseHM(s) == Some(HM(Value2(s[0], s[1]), Value2(s[3], s[4])))
  {
    TwoDigits(s[..2]);
    TwoDigits(s[3..]);
  }

  lemma PadTwo(n: nat)
    requires n < 100
    ensures |ZeroPad(n, 2)| == 2 && Value2(ZeroPad(n, 2)[0], ZeroPad(n, 2)[1]) == n
  {
    DecimalLength(n, 2, Pow10(2));
    TwoDigits(ZeroPad(n, 2));
  }

  lemma PadFour(n: nat)
    requires n < 10000
    ensures |ZeroPad(n, 4)| == 4
    ensures Value2(ZeroPad(n, 4)[0], ZeroPad(n, 4)[1]) * 100 + Value2(ZeroPad(n, 4)[2], ZeroPad(n, 4)[3]) == n
  {
    DecimalLength(n, 4, Pow10(4));
    FourDigits(ZeroPad(n, 4));
  }

  lemma JoinedDatePattern(a: string, b: string, c: string)
    requires |a| == 4 && |b| == 2 && |c| == 2 && AllDigits(a) && AllDigits(b) && AllDigits(c)
    ensures DatePattern(a + "-" + b + "-" + c)
    ensures PatternDate(a + "-" + b + "-" + c)
         == Date(Value2(a[0], a[1]) * 100 + Value2(a[2], a[3]), Value2(b[0], b[1]), Value2(c[0], c[1]))
  {
    var s := a + "-" + b + "-" + c;
    assert s[0] == a[0] && s[1] == a[1] && s[2] == a[2] && s[3] == a[3] && s[4] == '-';
    assert s[5] == b[0] && s[6] == b[1] && s[7] == '-' && s[8] == c[0] && s[9] == c[1];
  }

  lemma FormatDatePattern(d: Date)
    requires ValidDate(d) && d.year <= 9999
    ensures DatePattern(FormatDate(d)) && PatternDate(FormatDate(d)) == d
  {
    PadFour(d.year);
    PadTwo(d.month);
    PadTwo(d.day);
    JoinedDatePattern(ZeroPad(d.year, 4), ZeroPad(d.month, 2), ZeroPad(d.day, 2));
  }

  /** `strftime("%Y-%m-%d")` of a date in datetime's range is accepted by the
      `EventData` date validator, which reads back the same date. */
  lemma FormatDateRoundTrip(d: Date)
    requires ValidDate(d) && d.year <= 9999
    ensures DateAccepted(FormatDate(d)) && ParseDate(FormatDate(d)) == Some(d)
  {
    FormatDatePattern(d);
    DateAcceptedIff(FormatDate(d));
  }

  /** `strftime("%H:%M")` of a valid time is accepted by `validate_time`,
      which reads back the same hour and minute. */
  lemma FormatHMRoundTrip(h: nat, m: nat)
    requires h < 24 && m < 60
    ensures TimeAccepted(FormatHM(h, m)) && ParseHM(FormatHM(h, m)) == Some(HM(h, m))
  {
    PadTwo(h);
    PadTwo(m);
    var s := FormatHM(h, m);
    assert s[..2] == ZeroPad(h, 2);
    assert s[3..] == ZeroPad(m, 2);
    assert TimePattern(s);
    TimeAcceptedIff(s);
  }

  datatype EventData = EventData(
    title: string, date: string, startRange: string, endRange: string,
    duration: int, participants: seq<string>)

  /** The names of the failing fields of one model, in declaration order. */
  function Failing(checks: seq<(string, bool)>): (names: seq<string>)
    ensures names == [] <==> forall i :: 0 <= i < |checks| ==> checks[i].1
  {
    if checks == [] then []
    else (if checks[0].1 then [] else [checks[0].0]) + Failing(checks[1..])
  }

  /** `EventData(**parsed_data)`: every field is required and none may be
      null; the date and both times must pass pattern and validator. */
  function ValidateEventData(
    title: Field<string>, date: Field<string>, startRange: Field<string>, endRange: Field<string>,
    duration: Field<int>, participants: Field<seq<string>>): (r: Result<EventData, seq<string>>)
    ensures r.Ok? <==>
      title.Present? && date.Present? && DateAccepted(date.value)
      && startRange.Present? && TimeAccepted(startRange.value)
      && endRange.Present? && TimeAccepted(endRange.value)
      && duration.Present? && participants.Present?
    ensures r.Ok? ==> r.value == EventData(title.value, date.value, startRange.value, endRange.value,
                                           duration.value, participants.value)
    ensures r.Err? ==> r.error != []
  {
    var checks := [
      ("title", title.Present?),
      ("date", date.Present? && DateAccepted(date.value)),
      ("start_range", startRange.Present? && TimeAccepted(startRange.value)),
      ("end_range", endRange.Present? && TimeAccepted(endRange.value)),
      ("duration", duration.Present?),
      ("participants", participants.Present?)];
    if checks[0].1 && checks[1].1 && checks[2].1 && checks[3].1 && checks[4].1 && checks[5].1 then
      Ok(EventData(title.value, date.value, startRange.value, endRange.value, duration.value, participants.value))
    else
      assert !checks[0].1 || !checks[1].1 || !checks[2].1 || !checks[3].1 || !checks[4].1 || !checks[5].1;
      Err(Failing(checks))
  }

  datatype FreeSlotRequest = FreeSlotRequest(
    date: string, startRange: Option<string>, endRange: Option<string>, duration: Option<int>)

  /** An `Optional[...]` field with a default: a missing key takes the
      default, an explicit null stays `None`. */
  function Defaulted<T>(f: Field<T>, default: T): (r: Option<T>)
    ensures f.Absent? ==> r == Some(default)
    ensures f.Null? ==> r == None
    ensures f.Present? ==> r == Some(f.value)
  {
    match f
    case Absent => Some(default)
    case Null => None
    case Present(v) => Some(v)
  }

  const DefaultStart := "08:00"
  const DefaultEnd := "20:00"
  const DefaultDuration := 60

  /** `FreeSlotRequest(**parsed_data)`: only `date` is required (and not
      null); the other three fall back to 08:00, 20:00 and 60 minutes when
      their key is missing. */
  function ValidateFreeSlotRequest(
    date: Field<string>, startRange: Field<string>, endRange: Field<string>, duration: Field<int>)
    : (r: Result<FreeSlotRequest, seq<string>>)
    ensures r.Ok? <==> date.Present?
    ensures r.Ok? ==> r.value.date == date.value
    ensures r.Ok? && startRange.Absent? ==> r.value.startRange == Some("08:00")
    ensures r.Ok? && endRange.Absent? ==> r.value.endRange == Some("20:00")
    ensures r.Ok? && duration.Absent? ==> r.value.duration == Some(60)
    ensures r.Ok? && duration.Present? ==> r.value.duration == Some(duration.value)
    ensures r.Ok? ==> r.value.startRange == Defaulted(startRange, "08:00")
                      && r.value.endRange == Defaulted(endRange, "20:00")
                      && r.value.duration == Defaulted(duration, 60)
  {
    if date.Present? then
      Ok(FreeSlotRequest(date.value, Defaulted(startRange, DefaultStart),
                         Defaulted(endRange, DefaultEnd), Defaulted(duration, DefaultDuration)))
    else Err(["date"])
  }
}
