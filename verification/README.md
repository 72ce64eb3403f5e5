# Room availability: event normalisation and occupancy resolution

This project models the core of a small room availability service for an
e-ink door display. The service reads a room's calendar and reports whether
the room is occupied right now, what the current booking is, and how long the
room stays free.

The model covers two pure steps of `room_availability_service.py`.

- `parse_events` turns every VEVENT component into a booking. The start and
  end become instants in the configured zone. A date-only start is local
  midnight, and a date-only end is 23:59:59.999999 of that day. A naive
  datetime is localised, not shifted. A component that raises is skipped.
  Bookings that ended before `now` are dropped. The rest are sorted stably by
  start.
- `determine_room_status` picks the first booking whose closed interval
  `[start, end]` holds `now`. Separately, it picks the first booking that
  starts strictly after `now`. It then returns one of three shapes: OCCUPIED,
  AVAILABLE until the next start, or AVAILABLE to the end of the day. Minute
  counts are truncated.

Instants are whole microseconds on one absolute time line. The configured
zone is a fixed offset from that line (`Calendar.Zone`). Property values are
`Date`, `Naive`, `Aware` or `Other` (`Calendar.RawTime`).

Modules:

- `Wrappers`: Option and Result.
- `Calendar`: the value types and the instant normaliser.
- `Organizer`: the `mailto:` cleanup.
- `EventParsing`: `parse_events`.
- `Occupancy`: `determine_room_status`.
- `ResponseShape`: the keys of the result dictionary and the route's reads
  of them.

A booking is current when `start <= now <= end`: both bounds are
inclusive, and the source has no early-start margin. The source has no
recurrence expansion and no override handling.

## Model

| member | source | states |
|---|---|---|
| Calendar.Localize | room_availability_service.py:51-54 | a naive datetime keeps its wall-clock reading in the configured zone |
| Calendar.ToInstant | room_availability_service.py:42-58 | a date start is local midnight of that day; a date end is 23:59:59.999999 of that day; a naive value reads as local wall-clock time; an aware value keeps its instant; any other value type raises |
| Calendar.AllDayEventIsProper | room_availability_service.py:43-48 | a same-day date-only event starts strictly before it ends, one microsecond short of a full day |
| Organizer.StripMailto | room_availability_service.py:66 | the cleaned organizer is seven characters shorter for each occurrence removed, never longer than the original |
| Organizer.StripMailtoUnchangedIff | room_availability_service.py:66 | the organizer is unchanged exactly when it contains no "mailto:" |
| Organizer.StripMailtoAtFirstOccurrence | room_availability_service.py:66 | the text before the first "mailto:" is kept unchanged, that occurrence is dropped, and the scan resumes right after it |
| Organizer.StripMailtoDropsPrefix | room_availability_service.py:66 | "mailto:" followed by an address without "mailto:" becomes the bare address |
| Organizer.StripMailtoCanLeaveMailto | room_availability_service.py:66 | one replace pass can leave a "mailto:" behind ("mamailto:ilto:" becomes "mailto:") |
| EventParsing.Normalise | room_availability_service.py:36-58 | a component normalises exactly when DTSTART and DTEND are present and of a supported type; failures follow the evaluation order (missing start, missing end, unsupported start, unsupported end); the title defaults to "Booking" and the organizer has "mailto:" removed |
| EventParsing.Collect | room_availability_service.py:33-70 | an event is kept exactly when some component normalises to it and it ends at or after `now`; skipped components do not stop the loop |
| EventParsing.CollectConcat | room_availability_service.py:35-70 | the kept events of a concatenated calendar are the kept events of each part in order, so each component is judged on its own |
| EventParsing.Insert | room_availability_service.py:73 | inserting into a start-sorted list keeps it sorted and adds exactly the one event |
| EventParsing.SortByStart | room_availability_service.py:73 | the sort result is ordered by start and is a permutation of its input |
| EventParsing.InsertKeepsTies | room_availability_service.py:73 | an inserted event goes ahead of the events that share its start and changes nothing else among them |
| EventParsing.SortIsStable | room_availability_service.py:73 | events that share a start keep their input order |
| EventParsing.ParseEvents | room_availability_service.py:31-74 | the result is sorted by start, is a permutation of the kept events, holds exactly the events of components that normalise and have not ended, and every one ends at or after `now` |
| EventParsing.ParseEventsIsStable | room_availability_service.py:72-73 | bookings with the same start come out in calendar order |
| Occupancy.CurrentIndex | room_availability_service.py:80-85 | the search finds the first event whose closed interval holds `now`, and finds none exactly when no event holds it |
| Occupancy.NextIndex | room_availability_service.py:87-92 | the search finds the first event starting strictly after `now`, and finds none exactly when none does |
| Occupancy.TruncatedMinutes | room_availability_service.py:104 | the result is the number of whole minutes in the duration, truncated toward zero for either sign |
| Occupancy.DetermineRoomStatus | room_availability_service.py:77-135 | occupied exactly when some event holds `now`; then it reports the first such event with its truncated minutes left (never negative) and passes the first later-starting event through as next booking; otherwise the first later-starting event gives `available_until`, non-negative truncated free minutes and its `View` (title, organizer, start, end) as next booking; with neither, the room is free to the end of the day and nothing is attached |
| Occupancy.NextIsEarliestAfter | room_availability_service.py:88-92 | on a start-sorted list the next booking has the smallest start after `now` |
| Occupancy.EndOfDayIffNoEventsLeft | room_availability_service.py:159-162 | on the output of `parse_events` the room is free to the end of the day exactly when no booking is left, and a free room is free until the first booking in the list |
| Occupancy.BoundsAreInclusiveWithoutMargin | room_availability_service.py:83-117 | a booking is current at its exact start and end instants; thirty seconds before its start the room is free with 0 minutes; 24 minutes 59 seconds of free time count as 24 |
| ResponseShape.ResultKeys | room_availability_service.py:96-135 | every result shape has the keys the route reads except `minutes_available`, which only the two AVAILABLE shapes have |
| ResponseShape.RouteStatus | room_availability_service.py:165-186 | the route answers "ERROR" exactly when a key it reads is absent, and otherwise the result's own status |
| ResponseShape.FixedResultKeys | room_availability_service.py:96-135 | the corrected key sets add `minutes_available` to the occupied shape only |
| ResponseShape.ReadAll | room_availability_service.py:165-176 | reading the keys succeeds exactly when all are present; otherwise it fails on the first absent key |
| ResponseShape.OccupiedRoomBreaksRoute | room_availability_service.py:172 | as written, the route's reads fail exactly for an occupied result, on `minutes_available`, and the room is reported as "ERROR" |
| ResponseShape.FixedKeysServeRoute | room_availability_service.py:165-178 | with the corrected keys every result shape reaches the response with its own status |

## Left out

- Flask routes `room_status` and `health`: HTTP handling, query parameters and JSON building are not modelled. The one exception is the route's dictionary reads at lines 169-174, which `ResponseShape` models.
- `fetch_ics_feed`: it does network I/O through `requests`. The ICS parsing by the `icalendar` library cannot be seen. Its output is modelled as a sequence of `Calendar.Component` values.
- Time zones: `pytz` localisation and `astimezone` are modelled with one fixed offset. Daylight-saving rules are not modelled. As a result, `Localize` is exact here but can be ambiguous at a DST change.
- Calendar.ToInstant: Python datetimes only cover years 1 to 9999. Near either end of that range, `localize` or `astimezone` raises OverflowError and the component is skipped. The model's days and instants are unbounded, so it keeps such components.
- `strftime` display formatting: the result keeps start and end as instants. The source keeps only the `%-I:%M %p` clock reading, so two bookings at the same time on different days look the same there.
- Occupancy.TruncatedMinutes: computes exact integer truncation of the microsecond duration. Python computes with floats (`total_seconds() / 60`), whose rounding is not modelled.
- `str()` of `icalendar` property objects: the summary and organizer are taken as plain strings.
- Recurrence: recurrence expansion, exception and addition dates, and per-occurrence overrides. `parse_events_with_recurrence` is imported by `test_recurring_events.py` but is not defined in `room_availability_service.py`, so it is not part of this model.
- `test_service.py`: an interactive smoke test against a running server, with no logic to model.

## Findings

| source | as written | input that shows it | evidently intended | confidence | as-written member | corrected member |
|---|---|---|---|---|---|---|
| room_availability_service.py:96-108 | the OCCUPIED result has no `minutes_available` key, and line 172 reads `status['minutes_available']` | any calendar with a booking whose `[start, end]` holds the current time | an occupied room answers with status OCCUPIED and `minutes_available` null; instead the KeyError is caught at line 180 and the route answers 500 with status "ERROR" | high, not executed | ResponseShape.OccupiedRoomBreaksRoute | ResponseShape.FixedKeysServeRoute |
