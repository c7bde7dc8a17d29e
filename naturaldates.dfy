/** `replace_natural_dates`: the rewriting of relative date words in the
    user's message into `YYYY-MM-DD` dates, computed from the current date.
    The regular expressions the rewriter substitutes with are modelled as
    matchers on the text; `re.sub` is `Sub`, which scans left to right and
    replaces every non-overlapping match. Character classes are the ASCII
    ones of the Text module. */
module NaturalDates {
  import opened Wrappers
  import opened Text
  import opened Civil

  /** A word character at position `i` (out-of-range positions are not). */
  predicate WordAt(text: string, i: int)
  {
    0 <= i < |text| && IsWordChar(text[i])
  }

  /** `\b`: a word character on exactly one side of position `i`. */
  predicate Boundary(text: string, i: int)
  {
    WordAt(text, i - 1) != WordAt(text, i)
  }

  /** The text at `i` spells the lower-case `w` when compared ignoring case. */
  predicate CiAt(text: string, i: int, w: string)
    decreases |w|
  {
    0 <= i && i + |w| <= |text| && (w == [] || (ToLower(text[i]) == w[0] && CiAt(text, i + 1, w[1..])))
  }

  /** The patterns the rewriter uses: `\b<words>\b` for a fixed lower-case
      phrase (`today`, `next friday`, `on friday`, ...), and the ordinal-day
      pattern `\bon (?:the )?(\d{1,2})(st|nd|rd|th)?\b`. All are matched
      with `re.IGNORECASE`. */
  datatype Pattern = Phrase(words: string) | OnOrdinal

  /** One match of the ordinal-day pattern: where it ends and the value of
      its digit group. */
  datatype Hit = Hit(end: nat, day: nat)

  predicate OrdinalSuffixAt(text: string, q: int)
  {
    CiAt(text, q, "st") || CiAt(text, q, "nd") || CiAt(text, q, "rd") || CiAt(text, q, "th")
  }

  /** The ordinal-day pattern matched at `i`, with the regex engine's
      backtracking resolved: `(?:the )?` is taken whenever present, `\d{1,2}`
      takes two digits when there are two (one digit then cannot be followed
      by `\b`), and the suffix is kept only when `\b` follows it. */
  function OrdinalAt(text: string, i: nat): (h: Option<Hit>)
    ensures h.Some? ==> i < h.value.end <= |text| && h.value.day < 100
  {
    if !(Boundary(text, i) && CiAt(text, i, "on ")) then None
    else
      var p := if CiAt(text, i + 3, "the ") then i + 7 else i + 3;
      if !(p < |text| && IsDigit(text[p])) then None
      else
        var two := p + 1 < |text| && IsDigit(text[p + 1]);
        var q := if two then p + 2 else p + 1;
        var day := if two then DigitValue(text[p]) * 10 + DigitValue(text[p + 1]) else DigitValue(text[p]);
        if OrdinalSuffixAt(text, q) && Boundary(text, q + 2) then Some(Hit(q + 2, day))
        else if Boundary(text, q) then Some(Hit(q, day))
        else None
  }

  /** Where a match of `p` starting at `i` ends, if there is one. A phrase
      pattern is never empty. */
  function MatchEnd(p: Pattern, text: string, i: nat): (j: Option<nat>)
    ensures j.Some? ==> i < j.value <= |text|
  {
    match p
    case Phrase(w) =>
      if |w| > 0 && CiAt(text, i, w) && Boundary(text, i) && Boundary(text, i + |w|) then Some(i + |w|)
      else None
    case OnOrdinal =>
      match OrdinalAt(text, i)
      case Some(h) => Some(h.end)
      case None => None
  }

  /** `re.search(p, text)` succeeds. */
  predicate Found(p: Pattern, text: string)
  {
    exists k :: 0 <= k < |text| && MatchEnd(p, text, k).Some?
  }

  /** `re.sub(p, repl, text)` from position `i` on: every match found
      scanning left to right is replaced by `repl`, the scan resuming after
      it; everything else is copied. */
  function SubFrom(p: Pattern, text: string, repl: string, i: nat): string
    requires i <= |text|
    decreases |text| - i
  {
    if i == |text| then []
    else
      match MatchEnd(p, text, i)
      case Some(j) => repl + SubFrom(p, text, repl, j)
      case None => [text[i]] + SubFrom(p, text, repl, i + 1)
  }

  function Sub(p: Pattern, text: string, repl: string): string
  {
    SubFrom(p, text, repl, 0)
  }

  /** Without a match from `i` on, substitution copies the rest of the text. */
  lemma {:induction false} SubFromNoMatch(p: Pattern, text: string, repl: string, i: nat)
    requires i <= |text|
    requires forall k :: i <= k < |text| ==> MatchEnd(p, text, k).None?
    ensures SubFrom(p, text, repl, i) == text[i..]
    decreases |text| - i
  {
    if i < |text| {
      SubFromNoMatch(p, text, repl, i + 1);
      assert text[i..] == [text[i]] + text[i + 1..];
    }
  }

  /** A text in which the pattern does not occur is left as it is. */
  lemma SubUnchanged(p: Pattern, text: string, repl: string)
    requires !Found(p, text)
    ensures Sub(p, text, repl) == text
  {
    SubFromNoMatch(p, text, repl, 0);
  }

  /** Substitution copies the text up to the first match, replaces that
      match and goes on after it. */
  lemma {:induction false} SubFromFirstMatch(p: Pattern, text: string, repl: string, i: nat, k: nat)
    requires i <= k < |text| && MatchEnd(p, text, k).Some?
    requires forall m :: i <= m < k ==> MatchEnd(p, text, m).None?
    ensures SubFrom(p, text, repl, i) == text[i..k] + repl + SubFrom(p, text, repl, MatchEnd(p, text, k).value)
    decreases k - i
  {
    var rest := SubFrom(p, text, repl, MatchEnd(p, text, k).value);
    if i < k {
      calc {
        SubFrom(p, text, repl, i);
      == { SubFromCopies(p, text, repl, i); }
        [text[i]] + SubFrom(p, text, repl, i + 1);
      == { SubFromFirstMatch(p, text, repl, i + 1, k); }
        [text[i]] + (text[i + 1..k] + repl + rest);
      == { assert text[i..k] == [text[i]] + text[i + 1..k]; }
        text[i..k] + repl + rest;
      }
    } else {
      SubFromReplaces(p, text, repl, i);
      assert text[i..k] == [];
    }
  }

  /** One step of the scan where nothing matches: the character is copied. */
  lemma SubFromCopies(p: Pattern, text: string, repl: string, i: nat)
    requires i < |text| && MatchEnd(p, text, i).None?
    ensures SubFrom(p, text, repl, i) == [text[i]] + SubFrom(p, text, repl, i + 1)
  {
  }

  /** One step of the scan at a match: the match is replaced. */
  lemma SubFromReplaces(p: Pattern, text: string, repl: string, i: nat)
    requires i < |text| && MatchEnd(p, text, i).Some?
    ensures SubFrom(p, text, repl, i) == repl + SubFrom(p, text, repl, MatchEnd(p, text, i).value)
  {
  }

  /** The day number of the first match of the ordinal-day pattern at or
      after `i` (`re.search(...).group(1)`), or None. */
  function FirstOrdinalFrom(text: string, i: nat): (r: Option<nat>)
    requires i <= |text|
    ensures r.None? <==> forall k :: i <= k < |text| ==> OrdinalAt(text, k).None?
    ensures r.Some? ==> exists k :: i <= k < |text| && OrdinalAt(text, k).Some?
                                  && OrdinalAt(text, k).value.day == r.value
                                  && forall m :: i <= m < k ==> OrdinalAt(text, m).None?
    decreases |text| - i
  {
    if i == |text| then None
    else
      match OrdinalAt(text, i)
      case Some(h) => Some(h.day)
      case None => FirstOrdinalFrom(text, i + 1)
  }

  /** The date `datetime(year, month, day)` builds for an ordinal day: this
      month's `day`, or next month's when `day` is already past (December
      rolling into January of the next year); None where the constructor
      raises ValueError (no such day in that month, or a year past 9999). */
  function OrdinalDate(today: Date, day: nat): (r: Option<Date>)
    requires ValidDate(today)
  {
    var (year, month) :=
      if day >= today.day then (today.year, today.month)
      else if today.month < 12 then (today.year, today.month + 1)
      else (today.year + 1, 1);
    var d := Date(year, month, day);
    if ValidDate(d) && year <= 9999 then Some(d) else None
  }

  /** An ordinal day resolves to a date with that day of the month, on or
      after today and at most 30 days ahead. A day not yet past is taken in
      this month, a day already past in the next one (January of the next
      year after December); it fails exactly when that month has no such
      day (or the year would pass 9999). */
  lemma {:induction false} OrdinalDateWithinAMonth(today: Date, day: nat)
    requires ValidDate(today)
    ensures OrdinalDate(today, day).Some? ==>
              var d := OrdinalDate(today, day).value;
              ValidDate(d) && d.day == day && OnOrAfter(d, today)
              && 0 <= Ordinal(d) - Ordinal(today) <= 30
    ensures OrdinalDate(today, day).Some? ==>
              var d := OrdinalDate(today, day).value;
              (day >= today.day ==> d.year == today.year && d.month == today.month)
              && (day < today.day ==>
                    (d.year, d.month) == if today.month < 12 then (today.year, today.month + 1) else (today.year + 1, 1))
    ensures day >= today.day ==>
              (OrdinalDate(today, day).Some? <==> day <= DaysInMonth(today.year, today.month) && today.year <= 9999)
    ensures day < today.day && today.month < 12 ==>
              (OrdinalDate(today, day).Some? <==>
                 1 <= day <= DaysInMonth(today.year, today.month + 1) && today.year <= 9999)
    ensures day < today.day && today.month == 12 ==>
              (OrdinalDate(today, day).Some? <==> 1 <= day && today.year + 1 <= 9999)
  {
    if OrdinalDate(today, day).Some? {
      var d := OrdinalDate(today, day).value;
      if day >= today.day {
      } else if today.month < 12 {
        MonthLength(today.year, today.month);
      } else {
        YearLength(today.year);
      }
    }
  }

  /** The step for the ordinal pattern: the date is computed from the
      first match only, and when it exists every match is rewritten to
      `on <date>`; otherwise the text is left as it is. */
  function OrdinalDays(text: string, today: Date): string
    requires ValidDate(today)
  {
    match FirstOrdinalFrom(text, 0)
    case None => text
    case Some(day) =>
      match OrdinalDate(today, day)
      case None => text
      case Some(d) => Sub(OnOrdinal, text, "on " + FormatDate(d))
  }

  /** The step for "today" and "tomorrow", in that order. */
  function RelativeDays(text: string, today: Date): string
    requires ValidDate(today)
  {
    Sub(Phrase("tomorrow"), Sub(Phrase("today"), text, FormatDate(today)), FormatDate(NextDay(today)))
  }

  const WeekdayNames: seq<string> := ["monday", "tuesday", "wednesday", "thursday", "friday", "saturday", "sunday"]

  /** Days from a day with weekday `current` to "next <target>": the
      nearest occurrence (today counting as one) plus a week. */
  function NextOffset(current: int, target: int): int
  {
    (target - current + 7) % 7 + 7
  }

  /** Days from a day with weekday `current` to "on <target>": the nearest
      occurrence, a full week when today is that weekday. */
  function OnOffset(current: int, target: int): int
  {
    var d := (target - current + 7) % 7;
    if d == 0 then 7 else d
  }

  /** "next <weekday>" lies 7 to 13 days ahead and falls on that weekday. */
  lemma NextOffsetLandsOnTarget(today: Date, target: int)
    requires ValidDate(today) && 0 <= target < 7
    ensures 7 <= NextOffset(Weekday(today), target) <= 13
    ensures Weekday(AddDays(today, NextOffset(Weekday(today), target))) == target
  {
    OffsetsArith(Weekday(today), target);
    LandsOn(today, NextOffset(Weekday(today), target), target);
  }

  /** "on <weekday>" lies 1 to 7 days ahead, never today, and falls on
      that weekday. */
  lemma OnOffsetLandsOnTarget(today: Date, target: int)
    requires ValidDate(today) && 0 <= target < 7
    ensures 1 <= OnOffset(Weekday(today), target) <= 7
    ensures Weekday(AddDays(today, OnOffset(Weekday(today), target))) == target
  {
    var c := Weekday(today);
    OffsetsArith(c, target);
    LandsOn(today, OnOffset(c, target), target);
  }

  /** No day after today and before "on <weekday>" falls on that weekday. */
  lemma OnOffsetIsNearest(today: Date, target: int)
    requires ValidDate(today) && 0 <= target < 7
    ensures forall k: nat :: 1 <= k < OnOffset(Weekday(today), target) ==> Weekday(AddDays(today, k)) != target
  {
    var c := Weekday(today);
    forall k: nat | 1 <= k < OnOffset(c, target)
      ensures Weekday(AddDays(today, k)) != target
    {
      OnOffsetArith(c, target, k);
      MissesOn(today, k, target);
    }
  }

  /** `off` days after `today` falls on weekday `target` when today's
      weekday plus `off` is `target` modulo 7 ... */
  lemma LandsOn(today: Date, off: nat, target: int)
    requires ValidDate(today) && (Weekday(today) + off) % 7 == target
    ensures Weekday(AddDays(today, off)) == target
  {
    WeekdayAfter(today, off);
  }

  /** ... and misses it otherwise. */
  lemma MissesOn(today: Date, off: nat, target: int)
    requires ValidDate(today) && (Weekday(today) + off) % 7 != target
    ensures Weekday(AddDays(today, off)) != target
  {
    WeekdayAfter(today, off);
  }

  lemma OffsetsArith(c: int, target: int)
    requires 0 <= c < 7 && 0 <= target < 7
    ensures (c + OnOffset(c, target)) % 7 == target
    ensures (c + NextOffset(c, target)) % 7 == target
  {
    if c <= target {
      assert c + OnOffset(c, target) == target + (if c == target then 7 else 0);
      assert c + NextOffset(c, target) == target + 7;
    } else {
      assert c + OnOffset(c, target) == target + 7;
      assert c + NextOffset(c, target) == target + 14;
    }
  }

  lemma OnOffsetArith(c: int, target: int, k: int)
    requires 0 <= c < 7 && 0 <= target < 7 && 1 <= k < OnOffset(c, target)
    ensures (c + k) % 7 != target
  {
    if c < target {
      assert OnOffset(c, target) == target - c;
    } else if c == target {
      assert OnOffset(c, target) == 7;
    } else {
      assert OnOffset(c, target) == target - c + 7;
    }
  }

  /** The date "next <weekday w>" stands for, as `YYYY-MM-DD`. */
  function NextDate(today: Date, w: nat): string
    requires ValidDate(today)
  {
    FormatDate(AddDays(today, NextOffset(Weekday(today), w)))
  }

  /** The date "on <weekday w>" stands for, as `YYYY-MM-DD`. */
  function OnDate(today: Date, w: nat): string
    requires ValidDate(today)
  {
    FormatDate(AddDays(today, OnOffset(Weekday(today), w)))
  }

  /** One turn of the loop over the weekday names: the "next" form wins;
      only when it is absent is the "on" form looked for. */
  function WeekdayStep(text: string, today: Date, w: nat): string
    requires ValidDate(today) && w < 7
  {
    var name := WeekdayNames[w];
    var next := Phrase("next " + name);
    var on := Phrase("on " + name);
    if Found(next, text) then Sub(next, text, NextDate(today, w))
    else if Found(on, text) then Sub(on, text, OnDate(today, w))
    else text
  }

  /** The first `k` turns of the loop over the weekday names. */
  function WeekdaySteps(text: string, today: Date, k: nat): string
    requires ValidDate(today) && k <= 7
  {
    if k == 0 then text else WeekdayStep(WeekdaySteps(text, today, k - 1), today, k - 1)
  }

  /** When a weekday's "next" form occurs, that turn rewrites only the
      "next" form; the "on" form of the same weekday is not processed. */
  lemma NextFormWins(text: string, today: Date, w: nat)
    requires ValidDate(today) && w < 7
    requires Found(Phrase("next " + WeekdayNames[w]), text)
    ensures WeekdayStep(text, today, w)
         == Sub(Phrase("next " + WeekdayNames[w]), text, NextDate(today, w))
  {
  }

  /** The ordinal-day step of `replace_natural_dates`: the first match
      decides the date, and every match is rewritten to it. */
  method RewriteOrdinalDays(text: string, today: Date) returns (out: string)
    requires ValidDate(today)
    ensures out == OrdinalDays(text, today)
  {
    out := text;
    var ordinal := FirstOrdinalFrom(out, 0);
    if ordinal.Some? {
      var future := ResolveOrdinal(today, ordinal.value);
      if future.Some? {
        out := Sub(OnOrdinal, out, "on " + FormatDate(future.value));
      }
    }
  }

  /** `month` and `year` start at today's and move on a month when the day
      is already past; the date constructor then accepts or rejects them. */
  method ResolveOrdinal(today: Date, day: nat) returns (future: Option<Date>)
    requires ValidDate(today)
    ensures future == OrdinalDate(today, day)
  {
    var month := today.month;
    var year := today.year;
    if day < today.day {
      month := month + 1;
      if month > 12 {
        month := 1;
        year := year + 1;
      }
    }
    var d := Date(year, month, day);
    future := if ValidDate(d) && year <= 9999 then Some(d) else None;
  }

  /** The loop of `replace_natural_dates` over the seven weekday names, in
      order Monday to Sunday; a name whose "next" form is present skips its
      "on" form (`continue`). */
  method RewriteWeekdays(text: string, today: Date) returns (out: string)
    requires ValidDate(today)
    ensures out == WeekdaySteps(text, today, 7)
  {
    out := text;
    for w := 0 to 7
      invariant out == WeekdaySteps(text, today, w)
    {
      assert WeekdaySteps(text, today, w + 1) == WeekdayStep(out, today, w);
      var name := WeekdayNames[w];
      var next := Phrase("next " + name);
      if Found(next, out) {
        out := Sub(next, out, NextDate(today, w));
        continue;
      }
      var on := Phrase("on " + name);
      if Found(on, out) {
        out := Sub(on, out, OnDate(today, w));
      }
    }
  }

  /** `replace_natural_dates(text)` with `datetime.now()`'s date passed in
      as `today`: the text is rebound by each substitution in turn. */
  method ReplaceNaturalDates(text: string, today: Date) returns (out: string)
    requires ValidDate(today)
    ensures out == WeekdaySteps(OrdinalDays(RelativeDays(text, today), today), today, 7)
  {
    var tomorrow := NextDay(today);
    out := Sub(Phrase("today"), text, FormatDate(today));
    out := Sub(Phrase("tomorrow"), out, FormatDate(tomorrow));
    out := RewriteOrdinalDays(out, today);
    out := RewriteWeekdays(out, today);
  }
}
