/** The decision logic of `chat_with_gpt` in `chat.py`: the decoded reply
    gets its defaults, its action is read, and each action validates what
    it needs, derives the windows it works on and calls into the calendar
    layer. The provider's answers are passed in as a `Calendar`, the
    timestamp parsers as `Parsers`, and the clock as `now`. Every exception
    that reaches the route's outer handler makes the route answer nothing,
    which is the `Crashed` reply. */
module Chat {
  import opened Wrappers
  import opened Text
  import opened Civil
  import opened Strptime
  import opened Schemas
  import opened Availability
  import opened Resolver
  import opened Decoder

  /** What the calendar provider answers during one request. */
  datatype Calendar = Calendar(
    busyAnswers: bool,           // whether the free/busy query succeeds
    busy: seq<Interval>,         // the free/busy answer for the search window
    insertSucceeds: bool,        // whether the insert call of a create succeeds
    listed: seq<RemoteEvent>,    // the events listed for a look-up or a day
    deleteSucceeds: bool,        // whether `delete_event`'s delete call succeeds
    failing: set<nat>,           // positions whose delete fails in `delete_all_events_on_date`
    updateSucceeds: bool)        // whether the update call of `update_event_fields` succeeds

  /** `datetime.fromisoformat`, `dateutil.parser.isoparse` and `ensure_aware`. */
  datatype Parsers = Parsers(fromIso: Parser, isoparse: Parser, eventTime: Parser)

  /** The route's answer; each variant stands for one of its JSON replies. */
  datatype Reply =
    | NoJsonFound
    | JsonUnparsable(fragment: string)
    | StartTimeRequired
    | StartTimeUnreadable
    | EventDeleted(message: DeleteResult, plan: DeletePlan)
    | DateRequired
    | DeletedAll(details: DeleteAllReport)
    | EventCreated(event: EventData, slot: Interval)
    | NoSlotFound
    | NeedOriginalAndUpdates
    | InvalidStartTime(startTime: Option<string>)
    | FindFailed
    | NoEventToUpdate
    | UpdateFailed
    | EventUpdated(updated: RemoteEvent)
    | FreeSlotsFound(slots: seq<Interval>)
    | UnexpectedAction(action: string)
    | Crashed      // an exception reached the outer handler: the route returns null
    | Hangs        // the slot loop never ends (a zero duration)

  /** `d.get(key)`. */
  function Get<T>(f: Field<T>): (r: Option<T>)
    ensures r.Some? <==> f.Present?
    ensures r.Some? ==> r.value == f.value
  {
    if f.Present? then Some(f.value) else None
  }

  // ---------------------------------------------------------------------
  // delete

  /** What a delete request hands to `delete_event`. */
  datatype DeletePlan = DeletePlan(date: string, startRange: string, endRange: string,
                                   title: Option<string>, startTime: string)

  /** `start_time` is required and read with `fromisoformat`; the look-up
      runs on its date, from its `HH:MM` to the `HH:MM` one hour later. */
  function PlanDelete(p: Request, fromIso: Parser): (r: Result<DeletePlan, Reply>)
    ensures !TruthyString(p.startTime) ==> r == Err(StartTimeRequired)
    ensures TruthyString(p.startTime) && fromIso(p.startTime.value).None? ==> r == Err(StartTimeUnreadable)
    ensures r.Ok? <==> TruthyString(p.startTime) && fromIso(p.startTime.value).Some?
    ensures r.Ok? ==>
              var dt := fromIso(p.startTime.value).value;
              r.value == DeletePlan(FormatDate(dt.date), FormatHM(dt.hour, dt.minute),
                                    FormatHM((dt.hour + 1) % 24, dt.minute), Get(p.title), p.startTime.value)
  {
    if !TruthyString(p.startTime) then Err(StartTimeRequired)
    else
      match fromIso(p.startTime.value)
      case None => Err(StartTimeUnreadable)
      case Some(dt) =>
        var later := (dt.hour + 1) % 24;
        Ok(DeletePlan(FormatDate(dt.date), FormatHM(dt.hour, dt.minute), FormatHM(later, dt.minute),
                      Get(p.title), p.startTime.value))
  }

  /** The delete window read back by `delete_event`: its reference time is
      the requested start cut to the minute. */
  lemma DeleteReferenceOfStart(dt: ClockTime)
    requires dt.date.year <= 9999
    ensures DeleteReference(FormatDate(dt.date), FormatHM(dt.hour, dt.minute))
            == Some(At(dt.date, dt.hour, dt.minute, 0) * MicrosPerSecond)
  {
    FormatDateRoundTrip(dt.date);
    FormatHMRoundTrip(dt.hour, dt.minute);
  }

  /** The end of the delete window is one hour after the start on the
      clock, so a start in the last hour of the day gives an end before
      the start. */
  lemma DeleteEndOfStart(dt: ClockTime)
    ensures ParseHM(FormatHM((dt.hour + 1) % 24, dt.minute)) == Some(HM((dt.hour + 1) % 24, dt.minute))
    ensures dt.hour < 23 ==> HM((dt.hour + 1) % 24, dt.minute).Minutes() == HM(dt.hour, dt.minute).Minutes() + 60
    ensures dt.hour == 23 ==> HM((dt.hour + 1) % 24, dt.minute).Minutes() < HM(dt.hour, dt.minute).Minutes()
  {
    NextHourOnClock(dt.hour, dt.minute);
    FormatHMRoundTrip((dt.hour + 1) % 24, dt.minute);
  }

  /** The hour after `h` on a 24-hour clock, in minutes since midnight. */
  lemma NextHourOnClock(h: nat, m: nat)
    requires h < 24 && m < 60
    ensures h < 23 ==> HM((h + 1) % 24, m).Minutes() == HM(h, m).Minutes() + 60
    ensures h == 23 ==> HM((h + 1) % 24, m).Minutes() < HM(h, m).Minutes()
  {
  }

  /** A delete request without a title is looked up with the default
      title "Meeting" that the defaults put in, not with no title: it
      matches any listed event whose title contains "meeting". */
  lemma DeleteTitleDefaultsToMeeting(d: Request, fromIso: Parser)
    requires d.title.Absent? && PlanDelete(WithDefaults(d), fromIso).Ok?
    ensures PlanDelete(WithDefaults(d), fromIso).value.title == Some("Meeting")
  {
  }

  /** What the delete action answers, given the plan and the provider. */
  predicate DeleteOutcome(p: Request, cal: Calendar, px: Parsers, reply: Reply)
  {
    match PlanDelete(p, px.fromIso)
    case Err(e) => reply == e
    case Ok(plan) =>
      if DeleteReference(plan.date, plan.startRange).None? || ParseHM(plan.endRange).None? then reply == Crashed
      else
        var vs := DeleteVerdicts(cal.listed, plan.title, DeleteReference(plan.date, plan.startRange).value, px.eventTime);
        var k := FirstDecisive(vs);
        if k == |cal.listed| then reply == EventDeleted(NoMatch, plan)
        else if vs[k] == Accepted && cal.deleteSucceeds then
          reply == EventDeleted(Deleted(cal.listed[k], SummaryOr(cal.listed[k], "")), plan)
        else reply == Crashed
  }

  method HandleDelete(p: Request, cal: Calendar, px: Parsers) returns (reply: Reply)
    ensures DeleteOutcome(p, cal, px, reply)
  {
    var plan := PlanDelete(p, px.fromIso);
    if plan.Err? {
      return plan.error;
    }
    var result := DeleteEvent(plan.value.date, plan.value.startRange, plan.value.endRange, plan.value.title,
                              cal.listed, px.eventTime, cal.deleteSucceeds);
    if result.Err? {
      return Crashed;
    }
    return EventDeleted(result.value, plan.value);
  }

  // ---------------------------------------------------------------------
  // delete_all

  predicate DeleteAllOutcome(p: Request, cal: Calendar, reply: Reply)
  {
    if !TruthyString(p.date) then reply == DateRequired
    else if ParseDate(p.date.value).None? then reply == Crashed
    else
      reply == DeletedAll(DeleteAllReport(p.date.value, DeletedTitles(cal.listed, cal.failing),
                                          |DeletedTitles(cal.listed, cal.failing)|))
  }

  /** A `delete_all` request needs a date; every event listed for that day
      is deleted in turn. */
  method HandleDeleteAll(p: Request, cal: Calendar) returns (reply: Reply)
    ensures DeleteAllOutcome(p, cal, reply)
  {
    if !TruthyString(p.date) {
      return DateRequired;
    }
    var result := DeleteAllEventsOnDate(p.date.value, cal.listed, cal.failing);
    DeletedTitlesCount(cal.listed, cal.failing);
    if result.None? {
      return Crashed;
    }
    return DeletedAll(result.value);
  }

  // ---------------------------------------------------------------------
  // create / schedule

  /** The event a create request describes: the duration is derived when
      missing, the record is validated as `EventData`, and the title falls
      back when it is empty or "event". None where `strptime` or the
      validation raises. */
  function PlanCreate(p: Request): (r: Option<EventData>)
    ensures r.Some? ==> DateAccepted(r.value.date) && TimeAccepted(r.value.startRange) && TimeAccepted(r.value.endRange)
    ensures r.Some? ==> r.value.title != "" && Lower(r.value.title) != "event"
    ensures r.Some? && TruthyInt(p.duration) ==> r.value.duration == p.duration.value
    ensures r.Some? && !TruthyInt(p.duration) && TruthyString(p.startRange) && TruthyString(p.endRange) ==>
              ParseHM(r.value.startRange).value.Minutes() + r.value.duration == ParseHM(r.value.endRange).value.Minutes()
    ensures r.Some? ==> p.date.Present? && p.participants.Present?
                        && r.value.date == p.date.value && r.value.participants == p.participants.value
    ensures r.Some? <==>
              p.title.Present? && p.date.Present? && DateAccepted(p.date.value)
              && p.startRange.Present? && TimeAccepted(p.startRange.value)
              && p.endRange.Present? && TimeAccepted(p.endRange.value)
              && p.participants.Present?
    ensures r.Some? ==> r.value.startRange == p.startRange.value && r.value.endRange == p.endRange.value
                        && r.value.title == TitleFallback(p.title.value, p.participants.value)
  {
    match DeriveDuration(p)
    case None => None
    case Some(q) =>
      match ValidateEventData(q.title, q.date, q.startRange, q.endRange, q.duration, q.participants)
      case Err(_) => None
      case Ok(e) => Some(e.(title := TitleFallback(e.title, e.participants)))
  }

  predicate CreateOutcome(p: Request, now: ClockTime, cal: Calendar, reply: Reply)
  {
    match PlanCreate(p)
    case None => reply == Crashed
    case Some(e) =>
      match SearchWindow(e.date, e.startRange, e.endRange, now)
      case Err(_) => reply == Crashed
      case Ok(w) =>
        if !cal.busyAnswers then reply == Crashed
        else if e.duration == 0 && w.start <= w.end then reply == Hangs
        else if e.duration < 0 && w.start + e.duration * 60 <= w.end then reply == Crashed
        else
          var slots := FreeSlots(w, e.duration, cal.busy);
          reply == if slots == [] then NoSlotFound else if cal.insertSucceeds then EventCreated(e, slots[0]) else Crashed
  }

  /** A create books the first free slot of the requested range. */
  method HandleCreate(p: Request, now: ClockTime, cal: Calendar) returns (reply: Reply)
    ensures CreateOutcome(p, now, cal, reply)
  {
    var event := PlanCreate(p);
    if event.None? {
      return Crashed;
    }
    reply := BookFirstSlot(event.value, now, cal);
  }

  /** The reply to a validated create: the first free slot, if any, is
      booked. A failing free/busy query or insert raises; the query is
      only reached once the window is read, whose errors raise too. */
  method BookFirstSlot(e: EventData, now: ClockTime, cal: Calendar) returns (reply: Reply)
    ensures !cal.busyAnswers ==> reply == Crashed
    ensures cal.busyAnswers ==>
            match SearchWindow(e.date, e.startRange, e.endRange, now)
            case Err(_) => reply == Crashed
            case Ok(w) =>
              if e.duration == 0 && w.start <= w.end then reply == Hangs
              else if e.duration < 0 && w.start + e.duration * 60 <= w.end then reply == Crashed
              else
                var slots := FreeSlots(w, e.duration, cal.busy);
                reply == if slots == [] then NoSlotFound else if cal.insertSucceeds then EventCreated(e, slots[0]) else Crashed
  {
    if !cal.busyAnswers {
      return Crashed;
    }
    var slot := FindFreeSlot(e.date, e.startRange, e.endRange, e.duration, now, cal.busy);
    if slot.Err? {
      return if slot.error == Diverges then Hangs else Crashed;
    }
    if slot.value.None? {
      return NoSlotFound;
    }
    if !cal.insertSucceeds {
      return Crashed;
    }
    return EventCreated(e, slot.value.value);
  }

  // ---------------------------------------------------------------------
  // update

  /** Python truthiness of the two objects of an update request: present
      and holding at least one key. */
  predicate OriginalGiven(f: Field<Original>)
  {
    f.Present? && (!f.value.title.Absent? || !f.value.startTime.Absent? || f.value.otherKeys)
  }

  predicate UpdatesGiven(f: Field<Updates>)
  {
    f.Present?
    && (!f.value.title.Absent? || !f.value.startTime.Absent? || !f.value.endTime.Absent?
        || !f.value.participants.Absent? || f.value.otherKeys)
  }

  /** What an update request hands to the look-up and the merge. */
  datatype UpdatePlan = UpdatePlan(title: Option<string>, startTime: string, updates: Updates)

  /** `original.get("start_time", "")`. */
  function OriginalStart(o: Original): Option<string>
  {
    match o.startTime
    case Absent => Some("")
    case Null => None
    case Present(s) => Some(s)
  }

  /** An update needs both objects, and an original start time that is
      non-empty and contains "T". */
  function PlanUpdate(p: Request): (r: Result<UpdatePlan, Reply>)
    ensures r.Ok? <==> OriginalGiven(p.original) && UpdatesGiven(p.updates)
                       && TruthyString(p.original.value.startTime) && 'T' in p.original.value.startTime.value
    ensures !(OriginalGiven(p.original) && UpdatesGiven(p.updates)) ==> r == Err(NeedOriginalAndUpdates)
    ensures OriginalGiven(p.original) && UpdatesGiven(p.updates) && r.Err? ==>
              r == Err(InvalidStartTime(OriginalStart(p.original.value)))
    ensures r.Ok? ==> r.value == UpdatePlan(Get(p.original.value.title), p.original.value.startTime.value, p.updates.value)
  {
    if !OriginalGiven(p.original) || !UpdatesGiven(p.updates) then Err(NeedOriginalAndUpdates)
    else
      var original := p.original.value;
      var startTime := OriginalStart(original);
      if startTime.None? || startTime.value == "" || 'T' !in startTime.value then Err(InvalidStartTime(startTime))
      else Ok(UpdatePlan(Get(original.title), startTime.value, p.updates.value))
  }

  predicate UpdateOutcome(p: Request, cal: Calendar, px: Parsers, reply: Reply)
  {
    match PlanUpdate(p)
    case Err(e) => reply == e
    case Ok(plan) =>
      match Target(Some(plan.startTime), px.isoparse)
      case None => reply == FindFailed
      case Some(target) =>
        var vs := FindVerdicts(cal.listed, plan.title, target, px.eventTime);
        var k := FirstDecisive(vs);
        if k == |cal.listed| then reply == NoEventToUpdate
        else if vs[k] != Accepted then reply == FindFailed
        else if plan.updates.participants.Null? || !cal.updateSucceeds then reply == UpdateFailed
        else
          var merged := Merged(cal.listed[k], plan.updates);
          reply == if merged.summary.Absent? || merged.start.dateTime.Absent? then UpdateFailed else EventUpdated(merged)
  }

  /** An update finds the event, merges the changes into it in place and
      reports its new title and start; reading either from an event that
      lacks it raises. */
  method HandleUpdate(p: Request, cal: Calendar, px: Parsers) returns (reply: Reply)
    ensures UpdateOutcome(p, cal, px, reply)
  {
    var plan := PlanUpdate(p);
    if plan.Err? {
      return plan.error;
    }
    var found := FindEventByTitleAndStartTime(plan.value.title, Some(plan.value.startTime), cal.listed,
                                              px.isoparse, px.eventTime);
    if found.Err? {
      return FindFailed;
    }
    if found.value.None? {
      return NoEventToUpdate;
    }
    var record := new EventRecord(found.value.value);
    var applied := record.ApplyUpdates(plan.value.updates);
    if !applied || !cal.updateSucceeds {
      return UpdateFailed;
    }
    var updated := record.Value();
    if updated.summary.Absent? || updated.start.dateTime.Absent? {
      return UpdateFailed;
    }
    return EventUpdated(updated);
  }

  // ---------------------------------------------------------------------
  // check / check_free_time

  /** The time of day of `t` in microseconds (`t.time()`). */
  function TimeOfDay(t: ClockTime): int
  {
    (t.hour * 3600 + t.minute * 60 + t.second) * MicrosPerSecond + t.micro
  }

  /** The start of a free-slot search: on today's date, a start the clock
      has already passed becomes the top of the next hour. None where the
      start cannot be parsed. */
  function ShiftStart(now: ClockTime, day: Date, startRange: string): (r: Option<string>)
    ensures day != now.date ==> r == Some(startRange)
    ensures day == now.date ==> (r.Some? <==> ParseHM(startRange).Some?)
  {
    if day != now.date then Some(startRange)
    else
      match ParseHM(startRange)
      case None => None
      case Some(s) =>
        if TimeOfDay(now) > (s.hour * 3600 + s.minute * 60) * MicrosPerSecond then
          Some(FormatHM((now.hour + 1) % 24, 0))
        else Some(startRange)
  }

  /** The shift only happens once the clock is past the requested start,
      and then moves the start to the next full hour: later than both the
      clock and the requested start, at most an hour ahead. In the last
      hour of the day the next hour reads 00:00. */
  lemma ShiftStartIsNextHour(now: ClockTime, startRange: string)
    requires ParseHM(startRange).Some?
    ensures var s := ParseHM(startRange).value;
            var r := ShiftStart(now, now.date, startRange).value;
            if Instant(now) * MicrosPerSecond + now.micro > At(now.date, s.hour, s.minute, 0) * MicrosPerSecond then
              ParseHM(r) == Some(HM((now.hour + 1) % 24, 0))
              && (now.hour < 23 ==>
                    Instant(now) < At(now.date, now.hour + 1, 0, 0) <= Instant(now) + 3600
                    && At(now.date, s.hour, s.minute, 0) < At(now.date, now.hour + 1, 0, 0))
            else r == startRange
  {
    var s := ParseHM(startRange).value;
    var h := (now.hour + 1) % 24;
    var clock := now.hour * 3600 + now.minute * 60 + now.second;
    var start := s.hour * 3600 + s.minute * 60;
    var past := clock * MicrosPerSecond + now.micro > start * MicrosPerSecond;
    assert ShiftStart(now, now.date, startRange) == if past then Some(FormatHM(h, 0)) else Some(startRange);
    FormatHMRoundTrip(h, 0);
    var mid := Midnight(now.date);
    assert Instant(now) == mid + clock;
    assert At(now.date, s.hour, s.minute, 0) == mid + start;
    ShiftedScale(mid, clock, now.micro, start);
    if now.hour < 23 {
      assert At(now.date, now.hour + 1, 0, 0) == mid + (now.hour + 1) * 3600;
    }
  }

  /** Comparing two instants of one day in microseconds compares their
      times of day. */
  lemma ShiftedScale(mid: int, clock: int, micro: int, start: int)
    ensures (mid + clock) * MicrosPerSecond + micro > (mid + start) * MicrosPerSecond
            <==> clock * MicrosPerSecond + micro > start * MicrosPerSecond
  {
  }

  /** What a free-slot request hands to `get_all_free_slots`. */
  datatype SlotQuery = SlotQuery(date: string, startRange: string, endRange: string, duration: int)

  /** The request validated as `FreeSlotRequest`, its date parsed, and its
      start shifted on today's date. None where one of these raises. */
  function PlanCheck(p: Request, now: ClockTime): (r: Option<SlotQuery>)
    ensures r.Some? ==> p.date.Present? && r.value.date == p.date.value && ParseDate(p.date.value).Some?
    ensures r.Some? && ParseDate(p.date.value).value != now.date ==>
              Defaulted(p.startRange, DefaultStart) == Some(r.value.startRange)
    ensures r.Some? && p.duration.Absent? ==> r.value.duration == DefaultDuration
    ensures r.Some? <==>
              p.date.Present? && ParseDate(p.date.value).Some?
              && !p.startRange.Null? && !p.endRange.Null? && !p.duration.Null?
              && (ParseDate(p.date.value).value == now.date ==> ParseHM(Defaulted(p.startRange, DefaultStart).value).Some?)
    ensures r.Some? ==>
              r.value.startRange == ShiftStart(now, ParseDate(p.date.value).value, Defaulted(p.startRange, DefaultStart).value).value
              && r.value.endRange == Defaulted(p.endRange, DefaultEnd).value
              && r.value.duration == Defaulted(p.duration, DefaultDuration).value
  {
    match ValidateFreeSlotRequest(p.date, p.startRange, p.endRange, p.duration)
    case Err(_) => None
    case Ok(req) =>
      match ParseDate(req.date)
      case None => None
      case Some(day) =>
        if req.startRange.None? || req.endRange.None? || req.duration.None? then None
        else
          match ShiftStart(now, day, req.startRange.value)
          case None => None
          case Some(start) => Some(SlotQuery(req.date, start, req.endRange.value, req.duration.value))
  }

  predicate CheckOutcome(p: Request, now: ClockTime, cal: Calendar, reply: Reply)
  {
    match PlanCheck(p, now)
    case None => reply == Crashed
    case Some(q) =>
      match SearchWindow(q.date, q.startRange, q.endRange, now)
      case Err(_) => reply == Crashed
      case Ok(w) =>
        if !cal.busyAnswers then reply == Crashed
        else if q.duration == 0 && w.start <= w.end then reply == Hangs
        else if q.duration < 0 && w.start + q.duration * 60 <= w.end then reply == Crashed
        else reply == FreeSlotsFound(FreeSlots(w, q.duration, cal.busy))
  }

  /** A free-slot request lists every free slot of the (shifted) range. */
  method HandleCheck(p: Request, now: ClockTime, cal: Calendar) returns (reply: Reply)
    ensures CheckOutcome(p, now, cal, reply)
  {
    var query := PlanCheck(p, now);
    if query.None? {
      return Crashed;
    }
    reply := SlotsFor(query.value, now, cal);
  }

  /** The reply to a planned free-slot query; a failing free/busy query
      raises, as do the errors reading the window before it. */
  method SlotsFor(q: SlotQuery, now: ClockTime, cal: Calendar) returns (reply: Reply)
    ensures !cal.busyAnswers ==> reply == Crashed
    ensures cal.busyAnswers ==>
            match SearchWindow(q.date, q.startRange, q.endRange, now)
            case Err(_) => reply == Crashed
            case Ok(w) =>
              if q.duration == 0 && w.start <= w.end then reply == Hangs
              else if q.duration < 0 && w.start + q.duration * 60 <= w.end then reply == Crashed
              else reply == FreeSlotsFound(FreeSlots(w, q.duration, cal.busy))
  {
    if !cal.busyAnswers {
      return Crashed;
    }
    var slots := GetAllFreeSlots(q.date, q.startRange, q.endRange, q.duration, now, cal.busy);
    if slots.Err? {
      return if slots.error == Diverges then Hangs else Crashed;
    }
    return FreeSlotsFound(slots.value);
  }

  // ---------------------------------------------------------------------
  // Dispatch

  /** The answer to a decoded request: the defaults are filled in, the
      action is lower-cased (a null action raises) and routed. */
  predicate Handled(d: Request, now: ClockTime, cal: Calendar, px: Parsers, reply: Reply)
  {
    var p := WithDefaults(d);
    if !p.action.Present? then reply == Crashed
    else
      var action := Lower(p.action.value);
      if action == "delete" then DeleteOutcome(p, cal, px, reply)
      else if action == "delete_all" then DeleteAllOutcome(p, cal, reply)
      else if action == "create" || action == "schedule" then CreateOutcome(p, now, cal, reply)
      else if action == "update" then UpdateOutcome(p, cal, px, reply)
      else if action == "check" || action == "check_free_time" then CheckOutcome(p, now, cal, reply)
      else reply == UnexpectedAction(action)
  }

  /** The part of `chat_with_gpt` after decoding: the decoded dictionary is
      updated in place with its defaults, then the action is dispatched. */
  method HandleRequest(d: Request, now: ClockTime, cal: Calendar, px: Parsers) returns (reply: Reply)
    ensures Handled(d, now, cal, px, reply)
  {
    var parsed := d;
    parsed := parsed.(title := SetDefault(parsed.title, "Meeting"));
    parsed := parsed.(participants := SetDefault(parsed.participants, []));
    parsed := parsed.(action := SetDefault(parsed.action, "schedule"));
    parsed := parsed.(startRange := Present(NormalizeTime(OrDefault(parsed.startRange, DefaultStart))));
    parsed := parsed.(endRange := Present(NormalizeTime(OrDefault(parsed.endRange, DefaultEnd))));
    assert parsed == WithDefaults(d);
    if !parsed.action.Present? {
      return Crashed;
    }
    var action := Lower(parsed.action.value);
    if action == "delete" {
      reply := HandleDelete(parsed, cal, px);
    } else if action == "delete_all" {
      reply := HandleDeleteAll(parsed, cal);
    } else if action == "create" || action == "schedule" {
      reply := HandleCreate(parsed, now, cal);
    } else if action == "update" {
      reply := HandleUpdate(parsed, cal, px);
    } else if action == "check" || action == "check_free_time" {
      reply := HandleCheck(parsed, now, cal);
    } else {
      reply := UnexpectedAction(action);
    }
  }

  /** `chat_with_gpt` from the model's reply text on: the reply is decoded
      (whole, or its first object), then handled. */
  method ChatWithGpt(raw: string, loads: string -> Option<Request>, now: ClockTime, cal: Calendar, px: Parsers)
    returns (reply: Reply)
    ensures loads(raw).Some? ==> Handled(loads(raw).value, now, cal, px, reply)
    ensures loads(raw).None? && (forall st, en :: !FirstObjectAt(raw, st, en)) ==> reply == NoJsonFound
    ensures forall st, en :: loads(raw).None? && FirstObjectAt(raw, st, en) ==>
              if loads(raw[st..en]).Some? then Handled(loads(raw[st..en]).value, now, cal, px, reply)
              else reply == JsonUnparsable(raw[st..en])
  {
    var decoded := DecodeResponse(raw, loads);
    if decoded.Err? {
      return if decoded.error.NoJsonObject? then NoJsonFound else JsonUnparsable(decoded.error.raw);
    }
    reply := HandleRequest(decoded.value, now, cal, px);
  }
}
