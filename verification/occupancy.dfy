/**
  Occupancy resolution: `determine_room_status`. The current booking is the
  first event, in list order, whose closed interval [start, end] holds `now`;
  the next booking is the first event starting strictly after `now`. The two
  searches are independent. Minute counts are truncated toward zero.
*/
module Occupancy {
  import opened Wrappers
  import opened Calendar
  import opened EventParsing

  /** `now` lies in the event, both bounds included. */
  predicate Covers(e: Event, now: Instant)
  {
    e.start <= now <= e.end
  }

  /** The event has not started yet. */
  predicate StartsAfter(e: Event, now: Instant)
  {
    e.start > now
  }

  /** `k` is the first event in list order that holds `now`. */
  predicate IsCurrent(events: seq<Event>, now: Instant, k: int)
  {
    && 0 <= k < |events|
    && Covers(events[k], now)
    && forall j | 0 <= j < k :: !Covers(events[j], now)
  }

  /** `k` is the first event in list order that starts after `now`. */
  predicate IsNext(events: seq<Event>, now: Instant, k: int)
  {
    && 0 <= k < |events|
    && StartsAfter(events[k], now)
    && forall j | 0 <= j < k :: !StartsAfter(events[j], now)
  }

  /** The loop looking for the current event: the index where it breaks, if any. */
  function CurrentIndex(events: seq<Event>, now: Instant): (r: Option<nat>)
    ensures r.Some? ==> IsCurrent(events, now, r.value)
    ensures r.None? <==> forall i | 0 <= i < |events| :: !Covers(events[i], now)
  {
    if |events| == 0 then None
    else if Covers(events[0], now) then Some(0)
    else
      match CurrentIndex(events[1..], now)
      case None => None
      case Some(k) =>
        assert forall j | 0 < j <= k + 1 :: events[j] == events[1..][j - 1];
        Some(k + 1)
  }

  /** The loop looking for the next event: the index where it breaks, if any. */
  function NextIndex(events: seq<Event>, now: Instant): (r: Option<nat>)
    ensures r.Some? ==> IsNext(events, now, r.value)
    ensures r.None? <==> forall i | 0 <= i < |events| :: !StartsAfter(events[i], now)
  {
    if |events| == 0 then None
    else if StartsAfter(events[0], now) then Some(0)
    else
      match NextIndex(events[1..], now)
      case None => None
      case Some(k) =>
        assert forall j | 0 < j <= k + 1 :: events[j] == events[1..][j - 1];
        Some(k + 1)
  }

  /**
    `int(delta.total_seconds() / 60)`: the whole minutes in a duration of `d`
    microseconds, truncated toward zero.
  */
  function TruncatedMinutes(d: int): (m: int)
    ensures d >= 0 ==> 0 <= m && m * MicrosPerMinute <= d < (m + 1) * MicrosPerMinute
    ensures d < 0 ==> m <= 0 && -m * MicrosPerMinute <= -d < (-m + 1) * MicrosPerMinute
  {
    if d >= 0 then d / MicrosPerMinute else -((-d) / MicrosPerMinute)
  }

  /** The `current_booking` entry of an occupied result. */
  datatype CurrentBooking = CurrentBooking(
    title: string, organizer: string, start: Instant, end: Instant, minutesRemaining: int)

  /** The `next_booking` entry of an available result; times are kept as instants. */
  datatype BookingView = BookingView(title: string, organizer: string, start: Instant, end: Instant)

  /** The three result shapes of `determine_room_status`. */
  datatype RoomStatus =
    | Occupied(current: CurrentBooking, next: Option<Event>)
    | AvailableUntil(until: Instant, minutesAvailable: int, upcoming: BookingView)
    | AvailableEndOfDay

  /** The `status` and `status_text` value of a result. */
  function StatusText(r: RoomStatus): string
  {
    if r.Occupied? then "OCCUPIED" else "AVAILABLE"
  }

  /** The reformatted `next_booking` of an available result. */
  function View(e: Event): BookingView
  {
    BookingView(e.summary, e.organizer, e.start, e.end)
  }

  /**
    `determine_room_status`. The room is occupied exactly when some event
    holds `now`, and then reports the first such event and passes the first
    event starting after `now` through as the next booking. Otherwise the
    first event starting after `now` bounds the free time, and without one
    the room is free for the rest of the day.
  */
  function DetermineRoomStatus(events: seq<Event>, now: Instant): (r: RoomStatus)
    ensures r.Occupied? <==> exists i | 0 <= i < |events| :: Covers(events[i], now)
    ensures forall k | IsCurrent(events, now, k) ::
              && r.Occupied?
              && r.current.title == events[k].summary
              && r.current.organizer == events[k].organizer
              && r.current.start == events[k].start
              && r.current.end == events[k].end
              && r.current.minutesRemaining == (events[k].end - now) / MicrosPerMinute
    ensures forall k | IsNext(events, now, k) ::
              if r.Occupied? then r.next == Some(events[k])
              else r == AvailableUntil(events[k].start, (events[k].start - now) / MicrosPerMinute, View(events[k]))
    ensures (forall i | 0 <= i < |events| :: !StartsAfter(events[i], now)) ==>
              if r.Occupied? then r.next == None else r == AvailableEndOfDay
    ensures r.Occupied? ==> r.current.minutesRemaining >= 0
    ensures r.AvailableUntil? ==> r.until > now && r.minutesAvailable >= 0
  {
    var current := CurrentIndex(events, now);
    var next := NextIndex(events, now);
    var nextEvent := if next.Some? then Some(events[next.value]) else None;
    if current.Some? then
      var e := events[current.value];
      Occupied(CurrentBooking(e.summary, e.organizer, e.start, e.end, TruncatedMinutes(e.end - now)), nextEvent)
    else if next.Some? then
      var e := events[next.value];
      AvailableUntil(e.start, TruncatedMinutes(e.start - now), View(e))
    else
      AvailableEndOfDay
  }

  /** In a start-sorted list the next booking is the earliest one still to start. */
  lemma NextIsEarliestAfter(events: seq<Event>, now: Instant, k: int)
    requires SortedByStart(events) && IsNext(events, now, k)
    ensures forall j | 0 <= j < |events| && StartsAfter(events[j], now) :: events[k].start <= events[j].start
  {
  }

  /**
    On the output of `parse_events` every event ends at or after `now`, so the
    room is free for the rest of the day exactly when no event is left, and a
    free room is free until the first event in the list.
  */
  lemma EndOfDayIffNoEventsLeft(zone: Zone, now: Instant, comps: seq<Component>)
    ensures var events := ParseEvents(zone, now, comps);
            var r := DetermineRoomStatus(events, now);
            && (r.AvailableEndOfDay? <==> |events| == 0)
            && (!r.Occupied? && |events| > 0 ==> r.AvailableUntil? && r.until == events[0].start)
  {
  }

  /**
    Both bounds are inclusive and there is no early-start margin: at its end
    instant a booking is still current with no whole minute left, thirty
    seconds before its start the room is free, and 24 minutes 59 seconds of
    free time count as 24 minutes.
  */
  lemma BoundsAreInclusiveWithoutMargin(e: Event)
    requires e.start < e.end
    ensures DetermineRoomStatus([e], e.end).Occupied?
    ensures DetermineRoomStatus([e], e.end).current.minutesRemaining == 0
    ensures DetermineRoomStatus([e], e.start).Occupied?
    ensures DetermineRoomStatus([e], e.start - 30_000_000) == AvailableUntil(e.start, 0, View(e))
    ensures DetermineRoomStatus([e], e.start - 25 * MicrosPerMinute + 1_000_000).minutesAvailable == 24
  {
  }
}
