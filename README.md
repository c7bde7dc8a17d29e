# SchedulaiWeb scheduling core, modelled in Dafny

SchedulaiWeb is a chat-driven calendar assistant. A user's message is
rewritten so that relative dates ("tomorrow", "on the 12th", "next
Friday") become `YYYY-MM-DD`. A language model turns the message into a
JSON request. The web layer decodes that reply, fills in defaults and
dispatches on its `action`:

- `delete` removes one event;
- `delete_all` clears a day;
- `create`/`schedule` books the first free slot;
- `update` changes an existing event;
- `check` lists the free slots.

This project models the deterministic middle of that pipeline and proves
what it does.

The model has one module per concern:

- `Wrappers`: `Option`, `Result`, and `Field`. `Field` is a JSON key that is absent, null or present.
- `Text`: ASCII character classes, `lower`, `strip`, substring search and decimal formatting.
- `Civil`: proleptic Gregorian dates, ordinals and weekdays. Also instants in seconds and microseconds in the one configured zone.
- `Strptime`: the two `strptime` formats the code parses with, `%Y-%m-%d` and `%H:%M`, as loosely as Python reads them.
- `Schemas`: `schemas.py`, the `EventData` patterns and validators and the `FreeSlotRequest` defaults.
- `NaturalDates`: `utils.py`, `replace_natural_dates`.
- `Decoder`: the decoding part of `chat.py`. That is brace-depth JSON extraction, `normalize_time_format`, the defaults and the derived duration.
- `Availability`: `get_all_free_slots` and `find_free_slot`.
- `Resolver`: the event look-up, `delete_event`, `update_event_fields` and `delete_all_events_on_date`.
- `Chat`: the per-action decision logic of `chat_with_gpt` and its dispatch.

## How the outside world appears in the model

- **Provider answers are inputs.** Anything the Google Calendar provider would answer is passed in:
  - whether the free/busy query succeeds, and the busy intervals it answers;
  - whether the insert call of a create succeeds;
  - the events a listing returns, in provider order;
  - whether a delete call succeeds;
  - the positions whose delete fails during `delete_all_events_on_date`;
  - whether the update call succeeds.
- **The clock and foreign parsers are parameters.** `datetime.now()` is a parameter, and so are `json.loads` and the timestamp parsers `datetime.fromisoformat`, `dateutil.parser.isoparse` and `ensure_aware`. Each parser is modelled as a function that returns None where the real one raises.
- **Stateful code is imperative Dafny.** Code that changes state step by step is written that way:
  - the brace stack of `extract_first_json`;
  - the slot cursor;
  - the scan loops with early return;
  - the in-place event merge, on an `EventRecord` class;
  - the title list of `delete_all_events_on_date`;
  - the rebinding of `text` in `replace_natural_dates`;
  - the in-place defaults of the request.

  Each method is proved against a specification function.
- **Scans are specified through verdicts.** A scan that stops at its first match is described by a sequence of per-event verdicts: skipped, rejected, accepted or raised. The method returns what the first decisive verdict says.
- **Exceptions become replies.** An exception that reaches the route's outer `except` gives the `Crashed` reply, because the route then returns nothing. A slot loop that never ends, which happens with a zero duration, gives `Hangs`. A negative duration walks the cursor back until `datetime` arithmetic raises `OverflowError`, which gives `Crashed`.

Three points where the code does something other than the obvious reading; the model follows the code:

- The update look-up lists events from the target time to three hours after it (`calendar_utils.py:240-241`). It does not look three hours either side.
- Rounding `now` moves strictly past the current quarter hour (`calendar_utils.py:55`). So 10:15:00 becomes 10:30, not 10:15.
- `participants` defaults to an empty list, not a set.

## Model

| member | source | states |
|---|---|---|
| Strptime.ParseHM | schedulai-web/app/schemas.py:29 | `strptime(s, "%H:%M")` succeeds only with hour 0-23 and minute 0-59 |
| Strptime.ParseDate | schedulai-web/app/schemas.py:21 | `strptime(s, "%Y-%m-%d")` succeeds only on a real calendar date with a year up to 9999 |
| Schemas.DateAcceptedIff | schedulai-web/app/schemas.py:12-24 | a `DDDD-DD-DD` string is accepted exactly when it names a real calendar date; the validator then reads that same date |
| Schemas.TimeAcceptedIff | schedulai-web/app/schemas.py:26-32 | a `DD:DD` string is accepted exactly when its hour is 00-23 and its minute 00-59; it then reads back as that hour and minute |
| Schemas.FormatDateRoundTrip | schedulai-web/app/schemas.py:18-24 | `strftime("%Y-%m-%d")` of a date is accepted by the date validator, which reads back the same date |
| Schemas.FormatHMRoundTrip | schedulai-web/app/schemas.py:26-32 | `strftime("%H:%M")` of a valid time is accepted by the time validator, which reads back the same time |
| Schemas.ValidateEventData | schedulai-web/app/schemas.py:10-32 | `EventData` is built exactly when every field is present and not null and the date and both times pass pattern and validator; the record then holds the given values; otherwise at least one field is reported |
| Schemas.Defaulted | schedulai-web/app/schemas.py:44-46 | an optional field takes its default only when its key is missing; an explicit null stays null |
| Schemas.ValidateFreeSlotRequest | schedulai-web/app/schemas.py:42-46 | only `date` is required; missing `start_range`, `end_range` and `duration` become "08:00", "20:00" and 60, a given value is kept and an explicit null stays None |
| Civil.NextDay | schedulai-web/app/utils.py:7 | `today + timedelta(days=1)` is a valid date whose ordinal is one more |
| Civil.AddDays | schedulai-web/app/utils.py:58 | adding n days gives a valid date whose ordinal is n more |
| Civil.WeekdayAfter | schedulai-web/app/utils.py:57-58 | adding n days moves `weekday()` on by n modulo 7 |
| NaturalDates.SubUnchanged | schedulai-web/app/utils.py:10-13 | `re.sub` on a text where the pattern does not occur returns the text unchanged |
| NaturalDates.SubFromFirstMatch | schedulai-web/app/utils.py:10-13 | substitution copies the text up to the first match, writes the replacement, and resumes after the match |
| NaturalDates.FirstOrdinalFrom | schedulai-web/app/utils.py:16-20 | `re.search` finds no ordinal day exactly when none matches anywhere; otherwise it returns the day number of the leftmost match |
| NaturalDates.OrdinalDateWithinAMonth | schedulai-web/app/utils.py:20-32 | the resolved date has the requested day of the month and lies 0 to 30 days from today; a day not yet past is taken in this month and a day already past in the next one (January of the next year after December), and either fails exactly when that month has no such day or the year would pass 9999 |
| NaturalDates.ResolveOrdinal | schedulai-web/app/utils.py:20-32 | the month/year stepping with December rolling into January, then the `datetime` constructor, gives exactly the date `OrdinalDate` defines, or none where it raises |
| NaturalDates.RewriteOrdinalDays | schedulai-web/app/utils.py:16-40 | the date comes from the first match only; when it exists every ordinal-day match becomes `on <date>`, otherwise the text is unchanged |
| NaturalDates.NextOffsetLandsOnTarget | schedulai-web/app/utils.py:57-58 | "next <weekday>" is 7 to 13 days ahead and falls on that weekday |
| NaturalDates.OnOffsetLandsOnTarget | schedulai-web/app/utils.py:67-70 | "on <weekday>" is 1 to 7 days ahead, never today, and falls on that weekday |
| NaturalDates.OnOffsetIsNearest | schedulai-web/app/utils.py:67-70 | no day between today and the "on <weekday>" date falls on that weekday |
| NaturalDates.NextFormWins | schedulai-web/app/utils.py:56-62 | when a weekday's "next" form occurs, that turn rewrites only the "next" form and does not process the "on" form |
| NaturalDates.RewriteWeekdays | schedulai-web/app/utils.py:53-73 | the loop over the weekday names, Monday to Sunday, with `continue`, performs exactly the seven turns the step function defines |
| NaturalDates.ReplaceNaturalDates | schedulai-web/app/utils.py:5-75 | the rewrite is "today", then "tomorrow", then the ordinal day, then the weekdays, each applied to the previous result |
| Decoder.FirstObjectUnique | schedulai-web/app/chat.py:42-55 | at most one slice qualifies as the first JSON object of a text |
| Decoder.FirstObjectShape | schedulai-web/app/chat.py:42-54 | the extracted object starts with `{`, ends with `}` and has balanced braces; every non-empty proper prefix has more `{` than `}` |
| Decoder.NoObjectWhenUnclosed | schedulai-web/app/chat.py:50-55 | when the first `{` is never closed, no object exists |
| Decoder.ExtractFirstJson | schedulai-web/app/chat.py:42-55 | the stack scan returns the slice from the first `{` to the `}` that first empties the stack, ignoring a `}` met on an empty stack; it returns None exactly when no such slice exists |
| Decoder.NormalizeTime | schedulai-web/app/chat.py:58-61 | anything other than a one- or two-digit string is returned unchanged, the empty string included |
| Decoder.NormalizeIdempotent | schedulai-web/app/chat.py:58-61 | normalising twice is the same as normalising once |
| Decoder.NormalizedIsFormatted | schedulai-web/app/chat.py:60 | a bare hour n becomes n zero-padded to two digits followed by ":00" |
| Decoder.FormattedHourShape | schedulai-web/app/chat.py:60 | `nn:00` of an hour below 100 has the `DD:DD` pattern, and its first two digits read back as the hour |
| Decoder.NormalizedBareHour | schedulai-web/app/chat.py:58-61 | a normalised bare hour has the `EventData` time pattern; it passes the time validator exactly when the hour is 0-23, and then reads back as that hour, minute 0 |
| Decoder.SetDefault | schedulai-web/app/chat.py:319-321 | `setdefault` fills only a missing key; a null or present value is kept |
| Decoder.OrDefault | schedulai-web/app/chat.py:324-329 | `get(key) or v` gives `v` for a missing, null or empty value and the value otherwise |
| Decoder.WithDefaults | schedulai-web/app/chat.py:319-329 | a missing title becomes "Meeting", missing participants `[]` and a missing action "schedule", while a present value (null included) is kept; both ends of the range are non-empty; every other key is unchanged |
| Decoder.WithDefaultsIdempotent | schedulai-web/app/chat.py:319-329 | applying the defaults a second time changes nothing |
| Decoder.DefaultRange | schedulai-web/app/chat.py:324-329 | a missing or empty range end becomes "08:00" or "20:00"; a given start or end is normalised |
| Decoder.DeriveDuration | schedulai-web/app/chat.py:387-395 | a set duration is kept; otherwise the duration is set so that start minutes plus duration equals end minutes, and derivation fails exactly when `strptime` raises on either end |
| Decoder.DerivedDurationSign | schedulai-web/app/chat.py:387-395 | the derived duration is positive exactly when the range ends after it starts; an inverted range gives zero or less |
| Decoder.TitleFallback | schedulai-web/app/chat.py:400-405 | the resulting title is never empty and never "event" in any case, and an acceptable title is kept; otherwise it is "Meeting with " and the participants joined by ", ", or "Scheduled Meeting" when there are none |
| Decoder.JoinNamesAll | schedulai-web/app/chat.py:402 | the "Meeting with" title contains every participant's name |
| Decoder.DecodeResponse | schedulai-web/app/chat.py:305-317 | a reply that parses whole is used as it is; otherwise, when the reply holds a first object, the result is that object parsed, or the parse error carrying that fragment when it does not parse; a reply with no object gives the "no JSON" error |
| Availability.RoundedNowIsNextQuarter | schedulai-web/app/calendar_utils.py:52-59 | rounding fails exactly from 23:45 on; otherwise it lands strictly after `now`, at most 15 minutes later, on a quarter-hour boundary of the same day |
| Availability.SearchWindowStart | schedulai-web/app/calendar_utils.py:36-63 | the window ends at the requested end; it starts at the later of the requested start and, on today's date, the rounded `now`, so today's window never starts at or before the current time |
| Availability.FreeSlotsMembership | schedulai-web/app/calendar_utils.py:84-98 | a slot is emitted exactly when it starts at `start + k*duration`, is `duration` long, ends no later than the window end, and no busy interval overlaps it under the half-open test |
| Availability.FreeSlotsAscending | schedulai-web/app/calendar_utils.py:82-98 | every slot is exactly `duration` long, lies inside the window, and slots come in increasing order without overlapping |
| Availability.FreeSlotsCountWhenIdle | schedulai-web/app/calendar_utils.py:84-98 | with no busy intervals, the walk emits floor((end - start) / duration) slots |
| Availability.FreeSlotsNoneWhenCovered | schedulai-web/app/calendar_utils.py:88-93 | a busy interval covering the whole window leaves no free slot |
| Availability.WalkSlots | schedulai-web/app/calendar_utils.py:81-98 | the cursor loop appends exactly the free candidates of the walk, in order |
| Availability.GetAllFreeSlots | schedulai-web/app/calendar_utils.py:29-100 | a parse or rounding failure is reported; when the loop starts, a zero duration is reported as looping forever and a negative one as leaving `datetime`'s range; otherwise the result is the walk over the search window |
| Availability.FindFreeSlot | schedulai-web/app/calendar_utils.py:22-26 | the result is the head of the `get_all_free_slots` list, or None when that list is empty, with the same errors |
| Availability.FirstSlotIsEarliest | schedulai-web/app/calendar_utils.py:22-26 | the slot `find_free_slot` picks is a free candidate of the walk, and every candidate that starts earlier overlaps a busy interval |
| Resolver.ResolverWindow | schedulai-web/app/calendar_utils.py:239-247 | with a target the listing window runs from the target to three hours after it; without one it runs from today's midnight for one day; an unreadable target gives no window |
| Resolver.FindVerdict | schedulai-web/app/calendar_utils.py:264-286 | an event without a `dateTime` start is skipped; an event is accepted exactly when its start reads, it starts within 300 s of the target if there is one, and it contains the title if one is given (without a target a title is needed); it raises exactly when its start does not read, or when a title is given, its own title is null and the time test (if any) passed |
| Resolver.FindEventByTitleAndStartTime | schedulai-web/app/calendar_utils.py:230-293 | an unreadable target raises; otherwise the result is the first event, in list order, that the look-up accepts, None when no event decides, and an error when the first decisive event raises |
| Resolver.FindFirstAccepted | schedulai-web/app/calendar_utils.py:264-289 | the loop returns at the first accepted or raising event and returns None after the last |
| Resolver.DeleteVerdict | schedulai-web/app/calendar_utils.py:191-203 | an event is accepted exactly when it has a readable start and either the given title is contained in its title or it starts within 300 s of the reference; it raises exactly when its start does not read, or a title is given and its own title is null |
| Resolver.DeleteEvent | schedulai-web/app/calendar_utils.py:156-214 | an unreadable window raises; otherwise the first accepted event, and no other, is deleted and reported with its title; with no accepted event nothing is deleted |
| Resolver.DeleteFirstAccepted | schedulai-web/app/calendar_utils.py:191-210 | the delete loop stops at the first accepted or raising event; a failed delete call raises |
| Resolver.AttendeesOf | schedulai-web/app/calendar_utils.py:308 | attendees are `{email}` records, one per participant, in participant order |
| Resolver.Merged | schedulai-web/app/calendar_utils.py:301-308 | summary, start and end `dateTime` and attendees are written only when their key is present in the updates; id, the other keys and the rest of start and end are unchanged |
| Resolver.MergedIdempotent | schedulai-web/app/calendar_utils.py:301-308 | applying the same updates twice changes nothing further |
| Resolver.MergedOnlyNamedFields | schedulai-web/app/calendar_utils.py:301-308 | an update naming none of the four keys leaves the event unchanged; given participants become attendees in order |
| Resolver.EventRecord.constructor | schedulai-web/app/calendar_utils.py:296-299 | the mutable event record holds the event it was made from |
| Resolver.EventRecord.ApplyUpdates | schedulai-web/app/calendar_utils.py:301-308 | the in-place writes leave the event equal to the merge; a null participant list raises after the other three keys have been written |
| Resolver.DayWindow | schedulai-web/app/calendar_utils.py:336-341 | the window runs from local midnight of the date for exactly one day |
| Resolver.DeletedTitlesCount | schedulai-web/app/calendar_utils.py:358-374 | the number of recorded titles is the number of listed events minus the failed deletes |
| Resolver.DeletedTitlesMembership | schedulai-web/app/calendar_utils.py:360-368 | a title is recorded exactly when some event carrying it was deleted successfully; a missing title is recorded as "Untitled Event" |
| Resolver.DeletedTitlesAllSucceed | schedulai-web/app/calendar_utils.py:360-368 | when no delete fails, every event's title is recorded, in list order |
| Resolver.DeleteAllEventsOnDate | schedulai-web/app/calendar_utils.py:331-374 | an unparsable date raises; otherwise the loop never aborts on a failed delete, lists the successful titles in order, and `total_deleted` is their count |
| Chat.PlanDelete | schedulai-web/app/chat.py:334-347 | a missing or empty `start_time` and an unreadable one are rejected; otherwise the window is the start's date, its HH:MM, and the HH:MM one hour later on the clock |
| Chat.DeleteReferenceOfStart | schedulai-web/app/chat.py:341-344 | the date and HH:MM handed to `delete_event` read back as the requested start cut to the minute |
| Chat.DeleteEndOfStart | schedulai-web/app/chat.py:345 | the end is one hour after the start on the clock; a start in the 23:00 hour gives an end before the start |
| Chat.DeleteTitleDefaultsToMeeting | schedulai-web/app/chat.py:319 | a delete without a title is looked up with the default title "Meeting" |
| Chat.HandleDelete | schedulai-web/app/chat.py:334-368 | the delete answer is the rejection, or the `delete_event` outcome together with the window it was given |
| Chat.HandleDeleteAll | schedulai-web/app/chat.py:371-383 | a missing date is rejected; otherwise the report lists the deleted titles and counts them |
| Chat.PlanCreate | schedulai-web/app/chat.py:386-405 | an event is planned exactly when the title and participants are present and the date and both times pass their validators; it keeps the requested date, times and participants, its title is the fallback of the requested one, and its duration is the given one or the minutes from start to end |
| Chat.HandleCreate | schedulai-web/app/chat.py:386-431 | a create books the first free slot of the planned event, or answers that none was found; a failing free/busy query or insert, or a negative duration whose loop starts, crashes the route, and a zero one hangs |
| Chat.BookFirstSlot | schedulai-web/app/chat.py:407-431 | the created event gets the head of the free-slot list; an empty list gives "no slot"; a search error, a failing free/busy query or a failing insert crashes the route |
| Chat.PlanUpdate | schedulai-web/app/chat.py:434-449 | an update proceeds exactly when both objects are given and the original start is non-empty and contains "T"; each rejection has its own reply |
| Chat.HandleUpdate | schedulai-web/app/chat.py:434-477 | the update merges the changes into the first event the look-up accepts and reports the merged event; no accepted event, a failed look-up, a null participant list, a failed provider call or a merged event without title or start each give their own reply |
| Chat.ShiftStart | schedulai-web/app/chat.py:486-498 | on another date the start is unchanged; on today's date it is defined exactly when it parses |
| Chat.ShiftStartIsNextHour | schedulai-web/app/chat.py:486-498 | the start moves only when the clock is past it, and then to the top of the next hour (`(hour + 1) % 24`:00); before 23:00 that is after both the clock and the old start and at most an hour ahead, while in the 23:00 hour it reads 00:00, earlier than both; otherwise it is unchanged |
| Chat.PlanCheck | schedulai-web/app/chat.py:480-498 | a query is planned exactly when the date is present and parses, none of start, end and duration is null, and on today's date the start parses; it keeps the date, the end and the duration (or their defaults), and its start is the requested one or its default shifted by `ShiftStart` |
| Chat.HandleCheck | schedulai-web/app/chat.py:480-513 | a check lists every free slot of the shifted range; a failing free/busy query, or a negative duration whose loop starts, crashes the route, and a zero one hangs |
| Chat.SlotsFor | schedulai-web/app/chat.py:500-513 | the answer is the full `get_all_free_slots` list; a search error or a failing free/busy query crashes the route |
| Chat.HandleRequest | schedulai-web/app/chat.py:319-520 | the defaults are applied in place, then the lower-cased action is routed to its handler; an unknown action is reported with its name |
| Chat.ChatWithGpt | schedulai-web/app/chat.py:305-520 | a reply that parses whole is handled as it is; otherwise its first object, when there is one, is handled, or answered with the parse error carrying it when it does not parse; a reply with no object gives the "no JSON" answer |

## Left out

- The HTTP routes, the OpenRouter request and the chat-log writes are left out. So are OAuth and credential storage, MongoDB, and the provider's list, insert and update calls. Their answers enter the model as inputs.
- `json.loads` is a parameter. A JSON value of an unexpected type is not modelled: a number where a string is expected, say, which would make the code raise.
- Time zones are left out: `pytz`, `localize`, `astimezone` and naive/aware comparison. All times are wall-clock times in one zone. The `TypeError` that comparing a naive `isoparse` result with an aware event time would raise is not modelled.
- The zone name `"Asia/"` at calendar_utils.py:159 is not modelled; in the code it makes `delete_event` raise before it does anything. The model follows the evident intent, the configured zone.
- Resolver.ResolverWindow, Resolver.DayWindow: the windows are stated, but the events the provider lists for them are an input that the model does not constrain to start inside the window; the look-ups' contracts hold for any listing.
- A zero duration whose zero-length slot is free appends to the slot list on every turn, until memory runs out; the model reports every zero-duration loop as one that never ends (`Diverges`, then `Hangs`). The slots a negative duration collects before `OverflowError` are not modelled, since the reply is `Crashed` either way.
- The provider's own error on an inverted delete window is not modelled (see `Chat.DeleteEndOfStart`).
- The provider's answer to an update is not modelled. The reply carries the merged event, not the provider's echo of it. `create_calendar_event`'s answer is reduced to the booked slot.
- Civil.NextDay: does not raise `OverflowError` after 9999-12-31. The model keeps counting.
- Civil.FormatDate: pads years below 1000 to four digits; platform `strftime` may not.
- Messages are not modelled as strings. Each JSON reply of the route is a `Reply` variant.
- `delete_event` parses `f"{date}T{start_range}:00"` with one `strptime`. The model parses the date and the time separately. That accepts the same inputs for the strings the route produces.
- Regular expressions and case folding are ASCII-only. Unicode letters, digits and spaces are not modelled.
- The event's other keys are carried as an opaque map. Attendee records keep only `email`; the provider's other attendee fields (response status, display name) are not modelled, so the model does not show that an update without `participants` keeps them.
- Logging and `print` are not modelled.
- `datetime.now()` is a parameter.
- `get_events_for_day`, `delete_event_by_id`, `calendar_api.py`, the JavaScript front end and the application wiring are not part of this model.
