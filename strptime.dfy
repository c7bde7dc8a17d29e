/** The two `datetime.strptime` formats the calendar code parses with,
    `"%Y-%m-%d"` and `"%H:%M"`. Python compiles each directive to a regular
    expression (`%Y` four digits, `%m` `1[0-2]|0[1-9]|[1-9]`, `%d`
    `3[01]|[12]\d|0[1-9]|[1-9]| [1-9]`, `%H` `2[0-3]|[0-1]\d|\d`, `%M`
    `[0-5]\d|\d`), matches it at the start of the string, rejects the input
    when characters are left over, and finally rejects dates that are not in
    the calendar. So `"2025-7-5"` and `"8:30"` parse, `"24:00"` and
    `"2025-02-30"` do not. */
module Strptime {
  import opened Wrappers
  import opened Text
  import opened Civil

  /** A time of day as `strptime(..., "%H:%M")` reads it. */
  datatype HM = HM(hour: int, minute: int) {
    /** Minutes since midnight. */
    function Minutes(): int
    {
      hour * 60 + minute
    }
  }

  predicate TwoDigitHour(a: char, b: char)
  {
    (a == '2' && '0' <= b <= '3') || ((a == '0' || a == '1') && IsDigit(b))
  }

  /** How many characters `%H` takes before the `:`, or 0 if none. */
  function HourLength(s: string): (n: nat)
    ensures n <= 2 && (n > 0 ==> |s| > n && s[n] == ':' && AllDigits(s[..n]))
  {
    if |s| >= 3 && TwoDigitHour(s[0], s[1]) && s[2] == ':' then 2
    else if |s| >= 2 && IsDigit(s[0]) && s[1] == ':' then 1
    else 0
  }

  /** `%M` followed by the check that nothing is left over. */
  predicate MinuteText(rest: string)
  {
    (|rest| == 2 && '0' <= rest[0] <= '5' && IsDigit(rest[1])) || (|rest| == 1 && IsDigit(rest[0]))
  }

  function ParseHM(s: string): (r: Option<HM>)
    ensures r.Some? ==> 0 <= r.value.hour <= 23 && 0 <= r.value.minute <= 59
  {
    var n := HourLength(s);
    if n == 0 then None
    else
      var rest := s[n + 1..];
      if !MinuteText(rest) then None
      else
        var h := DigitsValue(s[..n]);
        var m := DigitsValue(rest);
        assert h <= 23 by {
          if n == 2 { TwoDigits(s[..n]); } else { OneDigit(s[..n]); }
        }
        assert m <= 59 by {
          if |rest| == 2 { TwoDigits(rest); } else { OneDigit(rest); }
        }
        Some(HM(h, m))
  }

  predicate TwoDigitMonth(a: char, b: char)
  {
    (a == '1' && '0' <= b <= '2') || (a == '0' && '1' <= b <= '9')
  }

  predicate TwoCharDay(a: char, b: char)
  {
    (a == '3' && (b == '0' || b == '1')) || ((a == '1' || a == '2') && IsDigit(b))
    || (a == '0' && '1' <= b <= '9') || (a == ' ' && '1' <= b <= '9')
  }

  /** How many characters `%m` takes before the second `-`, or 0. */
  function MonthLength(s: string): (n: nat)
    requires |s| >= 5
    ensures n <= 2 && (n > 0 ==> |s| > 5 + n && s[5 + n] == '-' && AllDigits(s[5..5 + n]))
  {
    if |s| >= 8 && TwoDigitMonth(s[5], s[6]) && s[7] == '-' then 2
    else if |s| >= 7 && '1' <= s[5] <= '9' && s[6] == '-' then 1
    else 0
  }

  /** `%d` followed by the check that nothing is left over. */
  predicate DayText(rest: string)
  {
    (|rest| == 2 && TwoCharDay(rest[0], rest[1])) || (|rest| == 1 && '1' <= rest[0] <= '9')
  }

  function DayValue(rest: string): nat
    requires DayText(rest)
  {
    if |rest| == 1 then DigitValue(rest[0])
    else if rest[0] == ' ' then DigitValue(rest[1])
    else DigitValue(rest[0]) * 10 + DigitValue(rest[1])
  }

  function ParseDate(s: string): (r: Option<Date>)
    ensures r.Some? ==> ValidDate(r.value) && r.value.year <= 9999
  {
    if |s| < 5 || !AllDigits(s[..4]) || s[4] != '-' then None
    else
      var n := MonthLength(s);
      if n == 0 then None
      else
        var rest := s[6 + n..];
        if !DayText(rest) then None
        else
          var y := DigitsValue(s[..4]);
          DigitsBelow(s[..4]);
          var d := Date(y, DigitsValue(s[5..5 + n]), DayValue(rest));
          if ValidDate(d) then Some(d) else None
  }

  lemma {:induction false} DigitsBelow(s: string)
    requires AllDigits(s)
    ensures DigitsValue(s) < Pow10(|s|)
  {
    if s != [] {
      DigitsBelow(s[..|s| - 1]);
    }
  }
}
