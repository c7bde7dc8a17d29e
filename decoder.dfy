/** The decoding half of `chat_with_gpt` in `chat.py`: recovering the
    first JSON object from the model's reply (`extract_first_json`),
    normalising bare hours (`normalize_time_format`), and the defaults and
    derived values written into the decoded request before it is acted on.
    `json.loads` is a foreign parser and is passed in as a function from
    text to the decoded request, None where it raises. */
module Decoder {
  import opened Wrappers
  import opened Text
  import opened Civil
  import opened Strptime
  import opened Schemas
  import opened Resolver

  // ---------------------------------------------------------------------
  // extract_first_json

  /** How one character moves the brace depth. */
  function Delta(c: char): int
  {
    if c == '{' then 1 else if c == '}' then -1 else 0
  }

  /** The number of `{` minus the number of `}` in `s`. */
  function Balance(s: string): int
  {
    if s == [] then 0 else Balance(s[..|s| - 1]) + Delta(s[|s| - 1])
  }

  lemma BalanceStep(text: string, st: nat, k: nat)
    requires st <= k < |text|
    ensures Balance(text[st..k + 1]) == Balance(text[st..k]) + Delta(text[k])
  {
    assert text[st..k + 1][..k - st] == text[st..k];
  }

  /** `text[st..en]` is the object `extract_first_json` looks for: it opens
      at the first `{` of the text and ends at the first position where
      the braces opened since then are all closed again. */
  predicate FirstObjectAt(text: string, st: int, en: int)
  {
    0 <= st < en <= |text| && text[st] == '{'
    && (forall j :: 0 <= j < st ==> text[j] != '{')
    && Balance(text[st..en]) == 0
    && (forall k :: st < k < en ==> Balance(text[st..k]) > 0)
  }

  /** There is at most one such object. */
  lemma FirstObjectUnique(text: string, s1: int, e1: int, s2: int, e2: int)
    requires FirstObjectAt(text, s1, e1) && FirstObjectAt(text, s2, e2)
    ensures s1 == s2 && e1 == e2
  {
    assert text[s1] == '{' && text[s2] == '{';
    assert Balance(text[s1..e1]) == 0 && Balance(text[s2..e2]) == 0;
  }

  /** The object starts with `{`, ends with `}` and holds as many of one
      as of the other; every non-empty proper prefix has more `{`. */
  lemma FirstObjectShape(text: string, st: int, en: int)
    requires FirstObjectAt(text, st, en)
    ensures var s := text[st..en];
            |s| >= 2 && s[0] == '{' && s[|s| - 1] == '}' && Balance(s) == 0
            && forall k :: 0 < k < |s| ==> Balance(s[..k]) > 0
  {
    var s := text[st..en];
    BalanceStep(text, st, st);
    assert text[st..st] == [];
    assert Balance(text[st..st + 1]) == 1;
    BalanceStep(text, st, en - 1);
    assert Balance(text[st..en - 1]) > 0;
    assert Delta(text[en - 1]) == -1;
    forall k | 0 < k < |s|
      ensures Balance(s[..k]) > 0
    {
      assert s[..k] == text[st..st + k];
    }
  }

  /** With the first `{` at `st` and the depth still open at the end, no
      object can be found. */
  lemma NoObjectWhenUnclosed(text: string, st: int)
    requires 0 <= st < |text| && text[st] == '{'
    requires forall j :: 0 <= j < st ==> text[j] != '{'
    requires forall k :: st < k <= |text| ==> Balance(text[st..k]) > 0
    ensures forall s, e :: !FirstObjectAt(text, s, e)
  {
    forall s, e | 0 <= s < e <= |text| && text[s] == '{' && (forall j :: 0 <= j < s ==> text[j] != '{')
      ensures Balance(text[s..e]) > 0
    {
      assert text[st] == '{';
      assert s == st;
    }
  }

  /** `extract_first_json(text)`: a stack of `{` is pushed and popped while
      the text is scanned; a `}` met on an empty stack is passed over. The
      slice from the first `{` to the `}` that empties the stack is
      returned; None when no `{` occurs or the first object never closes. */
  method ExtractFirstJson(text: string) returns (r: Option<string>)
    ensures r.Some? ==> exists st, en :: FirstObjectAt(text, st, en) && r.value == text[st..en]
    ensures r.None? ==> forall st, en :: !FirstObjectAt(text, st, en)
  {
    var stack: seq<char> := [];
    var start: Option<nat> := None;
    for i := 0 to |text|
      invariant start.None? ==> stack == [] && forall j :: 0 <= j < i ==> text[j] != '{'
      invariant start.Some? ==>
                  start.value < i && text[start.value] == '{'
                  && (forall j :: 0 <= j < start.value ==> text[j] != '{')
                  && |stack| == Balance(text[start.value..i]) && |stack| > 0
                  && (forall k :: start.value < k <= i ==> Balance(text[start.value..k]) > 0)
    {
      var c := text[i];
      if c == '{' {
        if start.None? {
          start := Some(i);
          assert text[i..i] == [];
        }
        stack := stack + ['{'];
        BalanceStep(text, start.value, i);
      } else if c == '}' {
        if stack != [] {
          stack := stack[..|stack| - 1];
          BalanceStep(text, start.value, i);
          if stack == [] {
            assert FirstObjectAt(text, start.value, i + 1);
            return Some(text[start.value..i + 1]);
          }
        }
      } else if start.Some? {
        BalanceStep(text, start.value, i);
      }
    }
    if start.Some? {
      NoObjectWhenUnclosed(text, start.value);
    }
    return None;
  }

  // ---------------------------------------------------------------------
  // normalize_time_format

  /** `re.fullmatch(r"\d{1,2}", s)`. */
  predicate BareHour(s: string)
  {
    1 <= |s| <= 2 && AllDigits(s)
  }

  /** `normalize_time_format`: a bare one- or two-digit hour becomes
      `HH:00`; anything else is returned as it is. */
  function NormalizeTime(s: string): (r: string)
    ensures !BareHour(s) ==> r == s
  {
    if BareHour(s) then ZeroPad(DigitsValue(s), 2) + ":00" else s
  }

  lemma BareHourBelow100(s: string)
    requires BareHour(s)
    ensures DigitsValue(s) < 100 && ZeroPad(0, 2) == "00"
  {
    if |s| == 2 { TwoDigits(s); } else { OneDigit(s); }
    PadZero();
  }

  lemma PadZero()
    ensures ZeroPad(0, 2) == "00"
  {
    assert Decimal(0) == ['0'];
    assert Zeros(1) == Zeros(0) + ['0'];
  }

  /** Normalising twice is normalising once. */
  lemma NormalizeIdempotent(s: string)
    ensures NormalizeTime(NormalizeTime(s)) == NormalizeTime(s)
  {
    if BareHour(s) {
      BareHourBelow100(s);
      PadTwo(DigitsValue(s));
      assert |NormalizeTime(s)| == 5;
    }
  }

  /** A bare hour normalised is the hour formatted as `HH:MM` with minute 0. */
  lemma NormalizedIsFormatted(s: string)
    requires BareHour(s)
    ensures NormalizeTime(s) == FormatHM(DigitsValue(s), 0)
  {
    WholeHour(DigitsValue(s));
  }

  lemma WholeHour(h: nat)
    ensures FormatHM(h, 0) == ZeroPad(h, 2) + ":00"
  {
    PadZero();
    ColonZeros(ZeroPad(h, 2), ZeroPad(0, 2));
  }

  lemma ColonZeros(hh: string, mm: string)
    requires mm == "00"
    ensures hh + ":" + mm == hh + ":00"
  {
  }

  /** `HH:MM` formatting of an hour below 100 has the time pattern, and its
      first two digits read back as the hour. */
  lemma FormattedHourShape(h: nat)
    requires h < 100
    ensures TimePattern(FormatHM(h, 0)) && Value2(FormatHM(h, 0)[0], FormatHM(h, 0)[1]) == h
  {
    PadTwo(h);
    PadZero();
    JoinedTime(ZeroPad(h, 2), ZeroPad(0, 2));
  }

  lemma JoinedTime(hh: string, mm: string)
    requires |hh| == 2 && |mm| == 2 && AllDigits(hh) && AllDigits(mm)
    ensures TimePattern(hh + ":" + mm)
    ensures (hh + ":" + mm)[0] == hh[0] && (hh + ":" + mm)[1] == hh[1]
  {
    var r := hh + ":" + mm;
    assert r[0] == hh[0] && r[1] == hh[1] && r[2] == ':' && r[3] == mm[0] && r[4] == mm[1];
    assert IsDigit(hh[0]) && IsDigit(hh[1]) && IsDigit(mm[0]) && IsDigit(mm[1]);
  }

  /** A bare hour, once normalised, passes the `EventData` time check
      exactly when it is 0 to 23, and then reads back as that hour, minute
      zero. */
  lemma NormalizedBareHour(s: string)
    requires BareHour(s)
    ensures TimePattern(NormalizeTime(s))
    ensures TimeAccepted(NormalizeTime(s)) <==> DigitsValue(s) <= 23
    ensures DigitsValue(s) <= 23 ==> ParseHM(NormalizeTime(s)) == Some(HM(DigitsValue(s), 0))
  {
    var n := DigitsValue(s);
    BareHourBelow100(s);
    NormalizedIsFormatted(s);
    FormattedHourShape(n);
    TimeAcceptedIff(FormatHM(n, 0));
  }

  // ---------------------------------------------------------------------
  // The decoded request and its defaults

  /** The `original_event` object of an update request. */
  datatype Original = Original(title: Field<string>, startTime: Field<string>, otherKeys: bool)

  /** The keys of the decoded reply the pipeline reads. */
  datatype Request = Request(
    action: Field<string>, title: Field<string>, date: Field<string>,
    startRange: Field<string>, endRange: Field<string>, duration: Field<int>,
    participants: Field<seq<string>>, startTime: Field<string>,
    original: Field<Original>, updates: Field<Updates>)

  /** `d.setdefault(key, v)`: only a missing key is filled. */
  function SetDefault<T>(f: Field<T>, v: T): (r: Field<T>)
    ensures f.Absent? ==> r == Present(v)
    ensures !f.Absent? ==> r == f
  {
    if f.Absent? then Present(v) else f
  }

  /** `d.get(key) or v`: a missing, null or empty value gives `v`. */
  function OrDefault(f: Field<string>, v: string): (r: string)
    ensures TruthyString(f) ==> r == f.value
    ensures !TruthyString(f) ==> r == v
  {
    if TruthyString(f) then f.value else v
  }

  /** The request after the defaults: title "Meeting", no participants and
      action "schedule" when those keys are missing, and both ends of the
      range filled in when missing or empty and then normalised. */
  function WithDefaults(p: Request): (q: Request)
    ensures q.title == if p.title.Absent? then Present("Meeting") else p.title
    ensures q.participants == if p.participants.Absent? then Present([]) else p.participants
    ensures q.action == if p.action.Absent? then Present("schedule") else p.action
    ensures TruthyString(q.startRange) && TruthyString(q.endRange)
    ensures q.date == p.date && q.duration == p.duration && q.startTime == p.startTime
            && q.original == p.original && q.updates == p.updates
  {
    p.(title := SetDefault(p.title, "Meeting"),
       participants := SetDefault(p.participants, []),
       action := SetDefault(p.action, "schedule"),
       startRange := Present(NormalizeTime(OrDefault(p.startRange, DefaultStart))),
       endRange := Present(NormalizeTime(OrDefault(p.endRange, DefaultEnd))))
  }

  /** Filling the defaults a second time changes nothing. */
  lemma WithDefaultsIdempotent(p: Request)
    ensures WithDefaults(WithDefaults(p)) == WithDefaults(p)
  {
    NormalizeIdempotent(OrDefault(p.startRange, DefaultStart));
    NormalizeIdempotent(OrDefault(p.endRange, DefaultEnd));
  }

  /** A missing or empty range end takes its default, which normalising
      leaves as it is: 08:00 and 20:00. */
  lemma DefaultRange(p: Request)
    ensures !TruthyString(p.startRange) ==> WithDefaults(p).startRange == Present("08:00")
    ensures !TruthyString(p.endRange) ==> WithDefaults(p).endRange == Present("20:00")
    ensures TruthyString(p.startRange) ==> WithDefaults(p).startRange == Present(NormalizeTime(p.startRange.value))
    ensures TruthyString(p.endRange) ==> WithDefaults(p).endRange == Present(NormalizeTime(p.endRange.value))
  {
    assert !AllDigits(DefaultStart) by { assert !IsDigit(DefaultStart[2]); }
    assert !AllDigits(DefaultEnd) by { assert !IsDigit(DefaultEnd[2]); }
  }

  // ---------------------------------------------------------------------
  // Values derived for a create request

  /** Python truthiness of an integer key: present and non-zero. */
  predicate TruthyInt(f: Field<int>)
  {
    f.Present? && f.value != 0
  }

  /** For a create without a duration, the duration becomes the minutes
      from the start of the range to its end; `strptime` raising on either
      end gives None. A duration that is already set is kept. */
  function DeriveDuration(p: Request): (r: Option<Request>)
    ensures TruthyInt(p.duration) ==> r == Some(p)
    ensures !TruthyInt(p.duration) && TruthyString(p.startRange) && TruthyString(p.endRange) ==>
              (r.Some? <==> ParseHM(p.startRange.value).Some? && ParseHM(p.endRange.value).Some?)
              && (r.Some? ==> r.value == p.(duration := r.value.duration)
                              && r.value.duration.Present?
                              && ParseHM(p.startRange.value).value.Minutes() + r.value.duration.value
                                 == ParseHM(p.endRange.value).value.Minutes())
  {
    if !TruthyInt(p.duration) && TruthyString(p.startRange) && TruthyString(p.endRange) then
      match (ParseHM(p.startRange.value), ParseHM(p.endRange.value))
      case (Some(start), Some(end)) => Some(p.(duration := Present(end.Minutes() - start.Minutes())))
      case _ => None
    else Some(p)
  }

  /** The derived duration is positive exactly when the range ends after
      it starts; an inverted or empty range gives zero or less. */
  lemma DerivedDurationSign(p: Request)
    requires !TruthyInt(p.duration) && TruthyString(p.startRange) && TruthyString(p.endRange)
    requires DeriveDuration(p).Some?
    ensures DeriveDuration(p).value.duration.value > 0
            <==> ParseHM(p.endRange.value).value.Minutes() > ParseHM(p.startRange.value).value.Minutes()
  {
  }

  /** `", ".join(names)`. */
  function JoinComma(names: seq<string>): (r: string)
    ensures names != [] ==> |r| >= |names[0]|
  {
    if names == [] then ""
    else if |names| == 1 then names[0]
    else names[0] + ", " + JoinComma(names[1..])
  }

  /** The title a created event gets: the requested one, unless it is
      empty or "event" in any case; then "Meeting with" the participants,
      or "Scheduled Meeting" when there are none. */
  function TitleFallback(title: string, participants: seq<string>): (r: string)
    ensures r != "" && Lower(r) != "event"
    ensures title != "" && Lower(title) != "event" ==> r == title
    ensures (title == "" || Lower(title) == "event") && participants != [] ==> r == "Meeting with " + JoinComma(participants)
    ensures (title == "" || Lower(title) == "event") && participants == [] ==> r == "Scheduled Meeting"
  {
    if title == "" || Lower(title) == "event" then
      if participants != [] then "Meeting with " + JoinComma(participants) else "Scheduled Meeting"
    else title
  }

  /** A replacement title names every participant, in order. */
  lemma {:induction false} JoinNamesAll(names: seq<string>, i: nat)
    requires i < |names|
    ensures Contains(JoinComma(names), names[i])
  {
    if i == 0 {
      assert OccursAt(JoinComma(names), names[0], 0) by {
        if |names| > 1 {
          assert JoinComma(names)[..|names[0]|] == names[0];
        }
      }
    } else {
      JoinNamesAll(names[1..], i - 1);
      var rest := JoinComma(names[1..]);
      var k :| 0 <= k <= |rest| && OccursAt(rest, names[1..][i - 1], k);
      var pre := names[0] + ", ";
      assert JoinComma(names) == pre + rest;
      assert OccursAt(JoinComma(names), names[i], |pre| + k) by {
        assert (pre + rest)[|pre| + k..|pre| + k + |names[i]|] == rest[k..k + |names[i]|];
      }
    }
  }

  // ---------------------------------------------------------------------
  // Decoding the reply

  datatype DecodeError =
    | NoJsonObject               // "No valid JSON object in GPT response"
    | MalformedJson(raw: string) // "Failed to parse JSON", with the fragment

  /** The reply is parsed as a whole; when that fails, the first object
      found in it is parsed instead. */
  method DecodeResponse(raw: string, loads: string -> Option<Request>) returns (r: Result<Request, DecodeError>)
    ensures loads(raw).Some? ==> r == Ok(loads(raw).value)
    ensures loads(raw).None? && (forall st, en :: !FirstObjectAt(raw, st, en)) ==> r == Err(NoJsonObject)
    ensures forall st, en :: loads(raw).None? && FirstObjectAt(raw, st, en) ==>
              r == (if loads(raw[st..en]).Some? then Ok(loads(raw[st..en]).value) else Err(MalformedJson(raw[st..en])))
  {
    var parsed := loads(raw);
    if parsed.Some? {
      return Ok(parsed.value);
    }
    var firstJson := ExtractFirstJson(raw);
    if firstJson.None? {
      return Err(NoJsonObject);
    }
    ghost var st, en :| FirstObjectAt(raw, st, en) && firstJson.value == raw[st..en];
    forall s2, e2 | FirstObjectAt(raw, s2, e2)
      ensures s2 == st && e2 == en
    {
      FirstObjectUnique(raw, st, en, s2, e2);
    }
    var fragment := loads(firstJson.value);
    if fragment.None? {
      return Err(MalformedJson(firstJson.value));
    }
    return Ok(fragment.value);
  }
}
