/** The event side of `calendar_utils.py`: finding the event an update
    refers to (`find_event_by_title_and_start_time`), choosing and deleting
    the event a delete refers to (`delete_event`), merging the requested
    changes into an event (`update_event_fields`) and clearing a day
    (`delete_all_events_on_date`). The provider's event listings are passed
    in as sequences in the provider's order, the outcome of each delete
    call as a flag or a set of failing positions, and the two timestamp
    parsers (`dateutil.parser.isoparse` and `ensure_aware`) as functions
    giving the wall-clock time in the configured zone, None where they
    raise. */
module Resolver {
  import opened Wrappers
  import opened Text
  import opened Civil
  import opened Strptime
  import opened Availability

  /** A timestamp parser: the wall-clock time it reads, None where it raises. */
  type Parser = string -> Option<ClockTime>

  /** The `start` or `end` object of a provider event. */
  datatype EventTime = EventTime(dateTime: Field<string>, date: Field<string>, timeZone: Field<string>)

  datatype Attendee = Attendee(email: string)

  /** A provider event as the code reads and writes it; `rest` stands for
      every other key, which the core never touches. */
  datatype RemoteEvent = RemoteEvent(
    id: string, summary: Field<string>, start: EventTime, end: EventTime,
    attendees: Option<seq<Attendee>>, rest: map<string, string>)

  /** `event.get("summary", default)`: None when the key holds null. */
  function SummaryOr(e: RemoteEvent, default: string): Option<string>
  {
    match e.summary
    case Absent => Some(default)
    case Null => None
    case Present(s) => Some(s)
  }

  /** Python truthiness of an optional string. */
  predicate Truthy(s: Option<string>)
  {
    s.Some? && s.value != ""
  }

  /** `query.strip().lower() in title.strip().lower()`. */
  predicate TitleContains(title: string, query: string)
  {
    Contains(Lower(Strip(title)), Lower(Strip(query)))
  }

  const FiveMinutes := 300 * MicrosPerSecond

  /** `abs((a - b).total_seconds()) <= 300`. */
  predicate WithinFiveMinutes(a: int, b: int)
  {
    -FiveMinutes <= a - b <= FiveMinutes
  }

  /** How one listed event fares in a scan that stops at the first match:
      skipped for lack of a `dateTime` start, rejected, accepted, or the
      scan raised on it (an unreadable start, or a null title where a title
      is compared). */
  datatype Verdict = Skipped | Rejected | Accepted | Raised

  predicate Passes(v: Verdict)
  {
    v == Skipped || v == Rejected
  }

  /** The position at which a scan over these verdicts stops: the first
      acceptance or raise, or the end of the list. */
  function FirstDecisive(vs: seq<Verdict>): (k: nat)
    ensures k <= |vs|
    ensures k < |vs| ==> !Passes(vs[k])
    ensures forall j :: 0 <= j < k ==> Passes(vs[j])
  {
    if vs == [] then 0
    else if !Passes(vs[0]) then 0
    else 1 + FirstDecisive(vs[1..])
  }

  /** A scan whose verdicts pass up to `i` and decide at `i` stops at `i`. */
  lemma {:induction false} FirstDecisiveAt(vs: seq<Verdict>, i: nat)
    requires i <= |vs|
    requires forall j :: 0 <= j < i ==> Passes(vs[j])
    requires i < |vs| ==> !Passes(vs[i])
    ensures FirstDecisive(vs) == i
  {
    if i > 0 {
      FirstDecisiveAt(vs[1..], i - 1);
    }
  }

  /** The start the code reads from an event: its truthy `dateTime`. */
  predicate HasStart(e: RemoteEvent)
  {
    e.start.dateTime.Present? && e.start.dateTime.value != ""
  }

  // ---------------------------------------------------------------------
  // find_event_by_title_and_start_time

  /** The target time of a look-up: `isoparse(start_time_iso)` when that
      string is truthy. */
  function Target(startTimeIso: Option<string>, isoparse: Parser): Option<Option<ClockTime>>
  {
    if Truthy(startTimeIso) then
      match isoparse(startTimeIso.value)
      case None => None
      case Some(t) => Some(Some(t))
    else Some(None)
  }

  /** The window the look-up lists events for, in microseconds: from the
      target to three hours after it, or today's midnight to the next
      midnight without a target. None when the target cannot be read. */
  function ResolverWindow(startTimeIso: Option<string>, isoparse: Parser, now: ClockTime): (w: Option<Interval>)
    ensures w.Some? <==> Target(startTimeIso, isoparse).Some?
    ensures w.Some? && Target(startTimeIso, isoparse).value.Some? ==>
              w.value.start == Micros(Target(startTimeIso, isoparse).value.value)
              && w.value.end - w.value.start == 3 * 3600 * MicrosPerSecond
    ensures w.Some? && Target(startTimeIso, isoparse).value.None? ==>
              w.value.start == Midnight(now.date) * MicrosPerSecond
              && w.value.end - w.value.start == SecondsPerDay * MicrosPerSecond
  {
    match Target(startTimeIso, isoparse)
    case None => None
    case Some(Some(t)) => Some(Interval(Micros(t), Micros(t) + 3 * 3600 * MicrosPerSecond))
    case Some(None) =>
      MidnightNext(now.date);
      Some(Interval(Midnight(now.date) * MicrosPerSecond, Midnight(NextDay(now.date)) * MicrosPerSecond))
  }

  /** The look-up's verdict on one event: with a target, accepted when it
      starts within five minutes of it and, if a title is given, its title
      contains that title; without a target, accepted when a title is given
      and contained. */
  function FindVerdict(e: RemoteEvent, title: Option<string>, target: Option<ClockTime>, parseEvent: Parser): (v: Verdict)
    ensures v == Skipped <==> !HasStart(e)
    ensures v == Accepted <==>
              HasStart(e) && parseEvent(e.start.dateTime.value).Some?
              && (target.Some? ==> WithinFiveMinutes(Micros(parseEvent(e.start.dateTime.value).value), Micros(target.value)))
              && (Truthy(title) ==> SummaryOr(e, "").Some? && TitleContains(SummaryOr(e, "").value, title.value))
              && (target.None? ==> Truthy(title))
    ensures v == Raised <==>
              HasStart(e)
              && (parseEvent(e.start.dateTime.value).None?
                  || (Truthy(title) && SummaryOr(e, "").None?
                      && (target.Some? ==> WithinFiveMinutes(Micros(parseEvent(e.start.dateTime.value).value), Micros(target.value)))))
  {
    if !HasStart(e) then Skipped
    else
      match parseEvent(e.start.dateTime.value)
      case None => Raised
      case Some(t) =>
        var eventTitle := SummaryOr(e, "");
        if target.Some? then
          if !WithinFiveMinutes(Micros(t), Micros(target.value)) then Rejected
          else if !Truthy(title) then Accepted
          else if eventTitle.None? then Raised
          else if TitleContains(eventTitle.value, title.value) then Accepted
          else Rejected
        else if !Truthy(title) then Rejected
        else if eventTitle.None? then Raised
        else if TitleContains(eventTitle.value, title.value) then Accepted
        else Rejected
  }

  function FindVerdicts(events: seq<RemoteEvent>, title: Option<string>, target: Option<ClockTime>, parseEvent: Parser)
    : (vs: seq<Verdict>)
    ensures |vs| == |events|
    ensures forall i :: 0 <= i < |events| ==> vs[i] == FindVerdict(events[i], title, target, parseEvent)
  {
    seq(|events|, i requires 0 <= i < |events| => FindVerdict(events[i], title, target, parseEvent))
  }

  datatype LookupError =
    | UnreadableTimestamp   // a timestamp parser raised
    | NullTitle             // a null title was lower-cased
    | ProviderFailed        // the provider's delete call raised

  /** `find_event_by_title_and_start_time(title, start_time_iso)` over the
      events listed for `ResolverWindow`: the first event, in list order,
      that the look-up accepts; None when none is accepted. */
  method FindEventByTitleAndStartTime(title: Option<string>, startTimeIso: Option<string>,
                                      events: seq<RemoteEvent>, isoparse: Parser, parseEvent: Parser)
    returns (r: Result<Option<RemoteEvent>, LookupError>)
    ensures Target(startTimeIso, isoparse).None? ==> r == Err(UnreadableTimestamp)
    ensures Target(startTimeIso, isoparse).Some? ==>
              var vs := FindVerdicts(events, title, Target(startTimeIso, isoparse).value, parseEvent);
              var k := FirstDecisive(vs);
              if k == |events| then r == Ok(None)
              else if vs[k] == Accepted then r == Ok(Some(events[k]))
              else r.Err?
  {
    var target: Option<ClockTime> := None;
    if Truthy(startTimeIso) {
      var t := isoparse(startTimeIso.value);
      if t.None? {
        return Err(UnreadableTimestamp);
      }
      target := Some(t.value);
    }
    assert Target(startTimeIso, isoparse) == Some(target);
    r := FindFirstAccepted(title, target, events, parseEvent);
  }

  /** The loop of `find_event_by_title_and_start_time` over the listed
      events, given the parsed target: it stops at the first event that is
      accepted or raises. */
  method FindFirstAccepted(title: Option<string>, target: Option<ClockTime>,
                           events: seq<RemoteEvent>, parseEvent: Parser)
    returns (r: Result<Option<RemoteEvent>, LookupError>)
    ensures var vs := FindVerdicts(events, title, target, parseEvent);
            var k := FirstDecisive(vs);
            if k == |events| then r == Ok(None)
            else if vs[k] == Accepted then r == Ok(Some(events[k]))
            else r.Err?
  {
    ghost var vs := FindVerdicts(events, title, target, parseEvent);
    for i := 0 to |events|
      invariant forall j :: 0 <= j < i ==> Passes(vs[j])
    {
      var event := events[i];
      var eventTitle := SummaryOr(event, "");
      assert vs[i] == FindVerdict(event, title, target, parseEvent);
      if !HasStart(event) {
        continue;
      }
      var eventDt := parseEvent(event.start.dateTime.value);
      if eventDt.None? {
        FirstDecisiveAt(vs, i);
        return Err(UnreadableTimestamp);
      }
      if target.Some? {
        if WithinFiveMinutes(Micros(eventDt.value), Micros(target.value)) {
          if !Truthy(title) {
            FirstDecisiveAt(vs, i);
            return Ok(Some(event));
          }
          if eventTitle.None? {
            FirstDecisiveAt(vs, i);
            return Err(NullTitle);
          }
          if TitleContains(eventTitle.value, title.value) {
            FirstDecisiveAt(vs, i);
            return Ok(Some(event));
          }
        }
      } else if Truthy(title) {
        if eventTitle.None? {
            FirstDecisiveAt(vs, i);
          return Err(NullTitle);
        }
        if TitleContains(eventTitle.value, title.value) {
          FirstDecisiveAt(vs, i);
          return Ok(Some(event));
        }
      }
      assert vs[i] == Rejected;
    }
    FirstDecisiveAt(vs, |events|);
    return Ok(None);
  }

  // ---------------------------------------------------------------------
  // delete_event

  /** The delete's verdict on one event: accepted when a title is given and
      the event's title contains it, or else when the event starts within
      five minutes of the reference time. */
  function DeleteVerdict(e: RemoteEvent, title: Option<string>, reference: int, parseEvent: Parser): (v: Verdict)
    ensures v == Skipped <==> !HasStart(e)
    ensures v == Accepted <==>
              HasStart(e) && parseEvent(e.start.dateTime.value).Some?
              && (!Truthy(title) || SummaryOr(e, "").Some?)
              && ((Truthy(title) && TitleContains(SummaryOr(e, "").value, title.value))
                  || WithinFiveMinutes(Micros(parseEvent(e.start.dateTime.value).value), reference))
    ensures v == Raised <==>
              HasStart(e) && (parseEvent(e.start.dateTime.value).None? || (Truthy(title) && SummaryOr(e, "").None?))
  {
    if !HasStart(e) then Skipped
    else
      match parseEvent(e.start.dateTime.value)
      case None => Raised
      case Some(t) =>
        var eventTitle := SummaryOr(e, "");
        if Truthy(title) && eventTitle.None? then Raised
        else if Truthy(title) && TitleContains(eventTitle.value, title.value) then Accepted
        else if WithinFiveMinutes(Micros(t), reference) then Accepted
        else Rejected
  }

  function DeleteVerdicts(events: seq<RemoteEvent>, title: Option<string>, reference: int, parseEvent: Parser)
    : (vs: seq<Verdict>)
    ensures |vs| == |events|
    ensures forall i :: 0 <= i < |events| ==> vs[i] == DeleteVerdict(events[i], title, reference, parseEvent)
  {
    seq(|events|, i requires 0 <= i < |events| => DeleteVerdict(events[i], title, reference, parseEvent))
  }

  /** What `delete_event` reports: the event it deleted (with the title the
      message quotes), or that nothing matched. */
  datatype DeleteResult = Deleted(event: RemoteEvent, title: Option<string>) | NoMatch

  /** The reference instant of a delete, in microseconds:
      `f"{date}T{start_range}:00"` in the configured zone. */
  function DeleteReference(date: string, startRange: string): Option<int>
  {
    match ParseDate(date)
    case None => None
    case Some(d) =>
      match ParseHM(startRange)
      case None => None
      case Some(s) => Some(At(d, s.hour, s.minute, 0) * MicrosPerSecond)
  }

  /** `delete_event(date, start_range, end_range, title)` over the events
      listed for that range: the first event the delete accepts is deleted
      and no other; when none is accepted nothing is deleted. */
  method DeleteEvent(date: string, startRange: string, endRange: string, title: Option<string>,
                     events: seq<RemoteEvent>, parseEvent: Parser, deleteSucceeds: bool)
    returns (r: Result<DeleteResult, LookupError>)
    ensures DeleteReference(date, startRange).None? || ParseHM(endRange).None? ==> r == Err(UnreadableTimestamp)
    ensures DeleteReference(date, startRange).Some? && ParseHM(endRange).Some? ==>
              var vs := DeleteVerdicts(events, title, DeleteReference(date, startRange).value, parseEvent);
              var k := FirstDecisive(vs);
              if k == |events| then r == Ok(NoMatch)
              else if vs[k] == Accepted then
                r == (if deleteSucceeds then Ok(Deleted(events[k], SummaryOr(events[k], ""))) else Err(ProviderFailed))
              else r.Err?
  {
    var day := ParseDate(date);
    var startHM := ParseHM(startRange);
    if day.None? || startHM.None? {
      return Err(UnreadableTimestamp);
    }
    var endHM := ParseHM(endRange);
    if endHM.None? {
      return Err(UnreadableTimestamp);
    }
    var startDt := At(day.value, startHM.value.hour, startHM.value.minute, 0) * MicrosPerSecond;
    assert DeleteReference(date, startRange) == Some(startDt);
    r := DeleteFirstAccepted(startDt, title, events, parseEvent, deleteSucceeds);
  }

  /** The loop of `delete_event` over the listed events, given the
      reference instant: it stops at the first event that is accepted or
      raises. */
  method DeleteFirstAccepted(reference: int, title: Option<string>, events: seq<RemoteEvent>,
                             parseEvent: Parser, deleteSucceeds: bool)
    returns (r: Result<DeleteResult, LookupError>)
    ensures var vs := DeleteVerdicts(events, title, reference, parseEvent);
            var k := FirstDecisive(vs);
            if k == |events| then r == Ok(NoMatch)
            else if vs[k] == Accepted then
              r == (if deleteSucceeds then Ok(Deleted(events[k], SummaryOr(events[k], ""))) else Err(ProviderFailed))
            else r.Err?
  {
    ghost var vs := DeleteVerdicts(events, title, reference, parseEvent);
    for i := 0 to |events|
      invariant forall j :: 0 <= j < i ==> Passes(vs[j])
    {
      var event := events[i];
      var eventTitle := SummaryOr(event, "");
      assert vs[i] == DeleteVerdict(event, title, reference, parseEvent);
      if !HasStart(event) {
        continue;
      }
      var eventDt := parseEvent(event.start.dateTime.value);
      if eventDt.None? {
        FirstDecisiveAt(vs, i);
        return Err(UnreadableTimestamp);
      }
      var delta := Micros(eventDt.value) - reference;
      DeleteVerdictOfReadable(event, title, reference, parseEvent, eventDt.value, delta);
      if Truthy(title) && eventTitle.None? {
        FirstDecisiveAt(vs, i);
        return Err(NullTitle);
      }
      if (Truthy(title) && TitleContains(eventTitle.value, title.value)) || (-FiveMinutes <= delta <= FiveMinutes) {
        FirstDecisiveAt(vs, i);
        if !deleteSucceeds {
          return Err(ProviderFailed);
        }
        return Ok(Deleted(event, eventTitle));
      }
      assert vs[i] == Rejected;
    }
    FirstDecisiveAt(vs, |events|);
    return Ok(NoMatch);
  }

  /** The verdict on an event whose start reads as `t`, `delta` after the
      reference: the tests of the loop of `delete_event`, in its order. */
  lemma DeleteVerdictOfReadable(e: RemoteEvent, title: Option<string>, reference: int, parseEvent: Parser,
                                t: ClockTime, delta: int)
    requires HasStart(e) && parseEvent(e.start.dateTime.value) == Some(t) && delta == Micros(t) - reference
    ensures DeleteVerdict(e, title, reference, parseEvent)
            == if Truthy(title) && SummaryOr(e, "").None? then Raised
               else if (Truthy(title) && TitleContains(SummaryOr(e, "").value, title.value))
                       || -FiveMinutes <= delta <= FiveMinutes then Accepted
               else Rejected
  {
  }

  // ---------------------------------------------------------------------
  // update_event_fields

  /** The `updated_fields` object of an update request; `otherKeys` records
      whether it holds keys the code does not read. */
  datatype Updates = Updates(
    title: Field<string>, startTime: Field<string>, endTime: Field<string>,
    participants: Field<seq<string>>, otherKeys: bool)

  /** `[{"email": email} for email in participants]`. */
  function AttendeesOf(participants: seq<string>): (a: seq<Attendee>)
    ensures |a| == |participants|
    ensures forall i :: 0 <= i < |a| ==> a[i].email == participants[i]
  {
    seq(|participants|, i requires 0 <= i < |participants| => Attendee(participants[i]))
  }

  /** The event after the requested changes: each of title, start, end and
      participants is written only when its key is in the updates (a null
      value included), and nothing else changes. The participant list
      must not be null: iterating it would raise. */
  function Merged(e: RemoteEvent, u: Updates): (r: RemoteEvent)
    requires !u.participants.Null?
    ensures r.id == e.id && r.rest == e.rest
    ensures r.start.date == e.start.date && r.start.timeZone == e.start.timeZone
    ensures r.end.date == e.end.date && r.end.timeZone == e.end.timeZone
    ensures r.summary == if u.title.Absent? then e.summary else u.title
    ensures r.start.dateTime == if u.startTime.Absent? then e.start.dateTime else u.startTime
    ensures r.end.dateTime == if u.endTime.Absent? then e.end.dateTime else u.endTime
    ensures r.attendees == if u.participants.Absent? then e.attendees else Some(AttendeesOf(u.participants.value))
  {
    var e1 := if u.title.Absent? then e else e.(summary := u.title);
    var e2 := if u.startTime.Absent? then e1 else e1.(start := e1.start.(dateTime := u.startTime));
    var e3 := if u.endTime.Absent? then e2 else e2.(end := e2.end.(dateTime := u.endTime));
    if u.participants.Absent? then e3 else e3.(attendees := Some(AttendeesOf(u.participants.value)))
  }

  /** Applying the same updates twice changes nothing more. */
  lemma MergedIdempotent(e: RemoteEvent, u: Updates)
    requires !u.participants.Null?
    ensures Merged(Merged(e, u), u) == Merged(e, u)
  {
  }

  /** An update that names none of the four fields leaves the event as it
      is, and the attendees follow the participants in order. */
  lemma MergedOnlyNamedFields(e: RemoteEvent, u: Updates)
    requires !u.participants.Null?
    ensures u.title.Absent? && u.startTime.Absent? && u.endTime.Absent? && u.participants.Absent? ==> Merged(e, u) == e
    ensures u.participants.Present? ==>
              |Merged(e, u).attendees.value| == |u.participants.value|
              && forall i :: 0 <= i < |u.participants.value| ==> Merged(e, u).attendees.value[i].email == u.participants.value[i]
  {
  }

  /** The event dictionary `update_event_fields` mutates in place. */
  class EventRecord {
    const id: string
    var summary: Field<string>
    var start: EventTime
    var end: EventTime
    var attendees: Option<seq<Attendee>>
    var rest: map<string, string>

    function Value(): RemoteEvent
      reads this
    {
      RemoteEvent(id, summary, start, end, attendees, rest)
    }

    constructor (e: RemoteEvent)
      ensures Value() == e
    {
      id := e.id;
      summary := e.summary;
      start := e.start;
      end := e.end;
      attendees := e.attendees;
      rest := e.rest;
    }

    /** The body of `update_event_fields` before the provider call: the
        keys present in `updates` are written one after another. A null
        participant list raises after the other three have been written. */
    method ApplyUpdates(u: Updates) returns (ok: bool)
      modifies this
      ensures ok <==> !u.participants.Null?
      ensures ok ==> Value() == Merged(old(Value()), u)
      ensures !ok ==> Value() == Merged(old(Value()), u.(participants := Absent))
    {
      if !u.title.Absent? {
        summary := u.title;
      }
      if !u.startTime.Absent? {
        start := start.(dateTime := u.startTime);
      }
      if !u.endTime.Absent? {
        end := end.(dateTime := u.endTime);
      }
      if u.participants.Null? {
        return false;
      }
      if u.participants.Present? {
        var emails := u.participants.value;
        var list: seq<Attendee> := [];
        for i := 0 to |emails|
          invariant list == AttendeesOf(emails[..i])
        {
          list := list + [Attendee(emails[i])];
        }
        assert emails[..|emails|] == emails;
        attendees := Some(list);
      }
      return true;
    }
  }

  // ---------------------------------------------------------------------
  // delete_all_events_on_date

  /** From local midnight of the date to the next local midnight, in seconds. */
  function DayWindow(d: Date): (w: Interval)
    requires ValidDate(d)
    ensures w.start == Midnight(d) && w.end - w.start == SecondsPerDay
  {
    MidnightNext(d);
    Interval(Midnight(d), Midnight(NextDay(d)))
  }

  /** The titles recorded for the events whose delete call succeeded, in
      list order: `event.get("summary", "Untitled Event")`. Position `i` of
      the listing fails exactly when `i` is in `failing`. */
  function DeletedTitles(events: seq<RemoteEvent>, failing: set<nat>): seq<Option<string>>
  {
    if events == [] then []
    else
      var n := |events| - 1;
      DeletedTitles(events[..n], failing) + (if n in failing then [] else [SummaryOr(events[n], "Untitled Event")])
  }

  /** The positions of the listing whose delete call fails. */
  function FailedPositions(n: nat, failing: set<nat>): set<nat>
  {
    set i | i in failing && i < n
  }

  /** One title is recorded per successful delete: the count is the number
      of listed events minus the failed deletes. */
  lemma {:induction false} DeletedTitlesCount(events: seq<RemoteEvent>, failing: set<nat>)
    ensures |DeletedTitles(events, failing)| == |events| - |FailedPositions(|events|, failing)|
  {
    if events != [] {
      var n := |events| - 1;
      DeletedTitlesCount(events[..n], failing);
      if n in failing {
        assert FailedPositions(n + 1, failing) == FailedPositions(n, failing) + {n};
      } else {
        assert FailedPositions(n + 1, failing) == FailedPositions(n, failing);
      }
    }
  }

  /** A title is recorded exactly when some listed event carrying it (or
      carrying no title, for "Untitled Event") was deleted. */
  lemma {:induction false} DeletedTitlesMembership(events: seq<RemoteEvent>, failing: set<nat>, t: Option<string>)
    ensures t in DeletedTitles(events, failing) <==>
              exists i :: 0 <= i < |events| && i !in failing && SummaryOr(events[i], "Untitled Event") == t
  {
    if events != [] {
      var n := |events| - 1;
      var prefix := events[..n];
      DeletedTitlesMembership(prefix, failing, t);
      forall i | 0 <= i < n
        ensures prefix[i] == events[i]
      {
      }
    }
  }

  /** When no delete fails, every listed event's title is recorded, in
      list order. */
  lemma {:induction false} DeletedTitlesAllSucceed(events: seq<RemoteEvent>, failing: set<nat>)
    requires forall i :: 0 <= i < |events| ==> i !in failing
    ensures |DeletedTitles(events, failing)| == |events|
    ensures forall i :: 0 <= i < |events| ==> DeletedTitles(events, failing)[i] == SummaryOr(events[i], "Untitled Event")
  {
    if events != [] {
      var n := |events| - 1;
      DeletedTitlesAllSucceed(events[..n], failing);
    }
  }

  /** The summary `delete_all_events_on_date` returns. */
  datatype DeleteAllReport = DeleteAllReport(date: string, deletedEvents: seq<Option<string>>, totalDeleted: nat)

  /** `delete_all_events_on_date(date_str)` over the events listed for
      `DayWindow`: every listed event is deleted in turn, a failed delete
      is passed over, and the titles of the deleted ones are reported with
      their count. */
  method DeleteAllEventsOnDate(dateStr: string, events: seq<RemoteEvent>, failing: set<nat>)
    returns (r: Option<DeleteAllReport>)
    ensures r.Some? <==> ParseDate(dateStr).Some?
    ensures r.Some? ==> r.value.date == dateStr && r.value.deletedEvents == DeletedTitles(events, failing)
                        && r.value.totalDeleted == |events| - |FailedPositions(|events|, failing)|
  {
    var day := ParseDate(dateStr);
    if day.None? {
      return None;
    }
    var deletedTitles: seq<Option<string>> := [];
    for i := 0 to |events|
      invariant deletedTitles == DeletedTitles(events[..i], failing)
    {
      var event := events[i];
      var title := SummaryOr(event, "Untitled Event");
      assert events[..i + 1][..i] == events[..i];
      if i !in failing {
        deletedTitles := deletedTitles + [title];
      }
    }
    assert events[..|events|] == events;
    DeletedTitlesCount(events, failing);
    return Some(DeleteAllReport(dateStr, deletedTitles, |deletedTitles|));
  }
}
