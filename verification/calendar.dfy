/**
  Calendar values and the instant normaliser of the room availability service.

  Instants are whole microseconds on one absolute time line. The configured
  zone is a fixed offset from that line; daylight-saving rules are not modelled.
  A calendar property value is a date, a naive datetime, a zone-aware datetime,
  or some other value type the service does not convert.
*/
module Calendar {
  import opened Wrappers

  /** Microseconds on the absolute time line. */
  type Instant = int

  const MicrosPerMinute: int := 60_000_000
  const MicrosPerDay: int := 86_400_000_000

  /** The configured zone: the wall clock reads `instant + offset`. */
  datatype Zone = Zone(offset: int)

  /** The value held by a DTSTART or DTEND property. */
  datatype RawTime =
    | Date(day: int)            // a date-only value: days since the epoch
    | Naive(wall: int)          // a datetime without zone: wall-clock microseconds
    | Aware(instant: Instant)   // a datetime carrying its own zone
    | Other                     // a time, duration or period value

  /** Which end of an event a value is normalised for. */
  datatype Role = StartRole | EndRole

  /** One VEVENT component as handed over by the calendar parser. */
  datatype Component = Component(
    summary: Option<string>,
    dtstart: Option<RawTime>,
    dtend: Option<RawTime>,
    organizer: Option<string>)

  /** One booking after normalisation. */
  datatype Event = Event(summary: string, start: Instant, end: Instant, organizer: string)

  /** Why a component is skipped. */
  datatype SkipReason = MissingStart | MissingEnd | UnsupportedStart | UnsupportedEnd

  /** The wall-clock reading of an instant in the configured zone. */
  function WallClock(zone: Zone, t: Instant): int
  {
    t + zone.offset
  }

  /** The calendar day (days since the epoch) of an instant in the configured zone. */
  function DayOf(zone: Zone, t: Instant): int
  {
    WallClock(zone, t) / MicrosPerDay
  }

  /** Microseconds since local midnight of an instant in the configured zone. */
  function TimeOfDay(zone: Zone, t: Instant): int
  {
    WallClock(zone, t) % MicrosPerDay
  }

  /** Attaches the configured zone to a wall-clock reading without shifting it. */
  function Localize(zone: Zone, wall: int): (t: Instant)
    ensures WallClock(zone, t) == wall
  {
    wall - zone.offset
  }

  /** The last microsecond of a day, 23:59:59.999999. */
  const LastMicroOfDay: int := MicrosPerDay - 1

  /**
    Converts one property value to an instant in the configured zone. A date
    becomes local midnight when it starts an event and 23:59:59.999999 when it
    ends one; a naive datetime is read as local wall-clock time; a zone-aware
    datetime keeps its instant. Any other value type raises.
  */
  function ToInstant(zone: Zone, raw: RawTime, role: Role): (r: Result<Instant, ()>)
    ensures raw.Date? ==>
              && r.Success?
              && DayOf(zone, r.value) == raw.day
              && TimeOfDay(zone, r.value) == (if role == StartRole then 0 else LastMicroOfDay)
    ensures raw.Naive? ==> r.Success? && WallClock(zone, r.value) == raw.wall
    ensures raw.Aware? ==> r == Success(raw.instant)
    ensures raw.Other? <==> r.Failure?
  {
    match raw
    case Date(d) =>
      var midnight := d * MicrosPerDay;
      Success(Localize(zone, if role == StartRole then midnight else midnight + LastMicroOfDay))
    case Naive(w) => Success(Localize(zone, w))
    case Aware(t) => Success(t)
    case Other => Failure(())
  }

  /** A date-only event that starts and ends on the same day spans a positive interval. */
  lemma AllDayEventIsProper(zone: Zone, d: int)
    ensures ToInstant(zone, Date(d), StartRole).value < ToInstant(zone, Date(d), EndRole).value
    ensures ToInstant(zone, Date(d), EndRole).value - ToInstant(zone, Date(d), StartRole).value == LastMicroOfDay
  {
  }
}
