/**
  Event normalisation, filtering and ordering: `parse_events`. Every VEVENT
  component is normalised; one that raises is skipped; events that ended
  before `now` are dropped; the rest are sorted stably by start.
*/
module EventParsing {
  import opened Wrappers
  import opened Calendar
  import opened Organizer

  /** The title used when a component has no SUMMARY. */
  const DefaultSummary: string := "Booking"

  /**
    Normalises one component, or names the first thing that raises in the
    order the service evaluates it: DTSTART is read, then DTEND, then the
    start is converted, then the end.
  */
  function Normalise(zone: Zone, c: Component): (r: Result<Event, SkipReason>)
    ensures r.Success? <==>
              && c.dtstart.Some? && !c.dtstart.value.Other?
              && c.dtend.Some? && !c.dtend.value.Other?
    ensures c.dtstart.None? ==> r == Failure(MissingStart)
    ensures c.dtstart.Some? && c.dtend.None? ==> r == Failure(MissingEnd)
    ensures c.dtstart.Some? && c.dtend.Some? && c.dtstart.value.Other? ==> r == Failure(UnsupportedStart)
    ensures c.dtstart.Some? && c.dtend.Some? && !c.dtstart.value.Other? && c.dtend.value.Other? ==>
              r == Failure(UnsupportedEnd)
    ensures r.Success? ==>
              && r.value.summary == c.summary.GetOr(DefaultSummary)
              && r.value.organizer == StripMailto(c.organizer.GetOr(""))
              && ToInstant(zone, c.dtstart.value, StartRole) == Success(r.value.start)
              && ToInstant(zone, c.dtend.value, EndRole) == Success(r.value.end)
  {
    var summary := c.summary.GetOr(DefaultSummary);
    if c.dtstart.None? then Failure(MissingStart)
    else if c.dtend.None? then Failure(MissingEnd)
    else
      match ToInstant(zone, c.dtstart.value, StartRole)
      case Failure(_) => Failure(UnsupportedStart)
      case Success(start) =>
        match ToInstant(zone, c.dtend.value, EndRole)
        case Failure(_) => Failure(UnsupportedEnd)
        case Success(end) =>
          Success(Event(summary, start, end, StripMailto(c.organizer.GetOr(""))))
  }

  /** Component `c` normalises to `e` and `e` has not ended before `now`. */
  predicate Keeps(zone: Zone, now: Instant, c: Component, e: Event)
  {
    Normalise(zone, c) == Success(e) && e.end >= now
  }

  /**
    The loop over components: the kept events in component order. Exactly the
    events of components that normalise and end at or after `now` are kept.
  */
  function Collect(zone: Zone, now: Instant, comps: seq<Component>): (r: seq<Event>)
    ensures |r| <= |comps|
    ensures forall e :: e in r <==> exists i | 0 <= i < |comps| :: Keeps(zone, now, comps[i], e)
    ensures forall e | e in r :: e.end >= now
  {
    if |comps| == 0 then []
    else
      var rest := Collect(zone, now, comps[1..]);
      assert forall i | 0 <= i < |comps[1..]| :: comps[1..][i] == comps[i + 1];
      match Normalise(zone, comps[0])
      case Success(e) => if e.end >= now then [e] + rest else rest
      case Failure(_) => rest
  }

  /** Skipping or keeping one component does not depend on its neighbours. */
  lemma {:induction false} CollectConcat(zone: Zone, now: Instant, a: seq<Component>, b: seq<Component>)
    ensures Collect(zone, now, a + b) == Collect(zone, now, a) + Collect(zone, now, b)
  {
    if |a| == 0 {
      assert a + b == b;
    } else {
      assert (a + b)[1..] == a[1..] + b;
      CollectConcat(zone, now, a[1..], b);
    }
  }

  /** Events in ascending order of start. */
  predicate SortedByStart(s: seq<Event>)
  {
    forall i, j | 0 <= i < j < |s| :: s[i].start <= s[j].start
  }

  /** The events of `s` that start at `t`, in their order in `s`. */
  function WithStart(s: seq<Event>, t: Instant): seq<Event>
  {
    if |s| == 0 then []
    else if s[0].start == t then [s[0]] + WithStart(s[1..], t)
    else WithStart(s[1..], t)
  }

  /** Inserts `x` into a sorted sequence, ahead of every event that starts no earlier. */
  function Insert(x: Event, s: seq<Event>): (r: seq<Event>)
    requires SortedByStart(s)
    ensures SortedByStart(r)
    ensures multiset(r) == multiset(s) + multiset{x}
  {
    if |s| == 0 || x.start <= s[0].start then [x] + s
    else
      var tail := Insert(x, s[1..]);
      assert [s[0]] + s[1..] == s;
      HeadBeforeInserted(x, s, tail);
      [s[0]] + tail
  }

  /** The head of a sorted sequence still leads once a later-starting `x` is inserted behind it. */
  lemma HeadBeforeInserted(x: Event, s: seq<Event>, tail: seq<Event>)
    requires SortedByStart(s) && |s| > 0 && s[0].start < x.start
    requires SortedByStart(tail) && multiset(tail) == multiset(s[1..]) + multiset{x}
    ensures SortedByStart([s[0]] + tail)
  {
    forall j | 0 <= j < |tail|
      ensures s[0].start <= tail[j].start
    {
      assert tail[j] in multiset(tail);
      if tail[j] != x {
        assert tail[j] in s[1..];
      }
    }
  }

  /** Python's stable sort by start, as insertion sort from the back. */
  function SortByStart(xs: seq<Event>): (r: seq<Event>)
    ensures SortedByStart(r)
    ensures multiset(r) == multiset(xs)
    ensures |r| == |xs|
  {
    if |xs| == 0 then []
    else
      assert [xs[0]] + xs[1..] == xs;
      Insert(xs[0], SortByStart(xs[1..]))
  }

  /** Inserting `x` puts it first among the events that share its start. */
  lemma {:induction false} InsertKeepsTies(x: Event, s: seq<Event>, t: Instant)
    requires SortedByStart(s)
    ensures WithStart(Insert(x, s), t) == (if x.start == t then [x] else []) + WithStart(s, t)
  {
    if |s| == 0 || x.start <= s[0].start {
      assert ([x] + s)[1..] == s;
    } else {
      var tail := Insert(x, s[1..]);
      assert ([s[0]] + tail)[1..] == tail;
      InsertKeepsTies(x, s[1..], t);
    }
  }

  /** The sort is stable: events sharing a start keep their input order. */
  lemma {:induction false} SortIsStable(xs: seq<Event>, t: Instant)
    ensures WithStart(SortByStart(xs), t) == WithStart(xs, t)
  {
    if |xs| > 0 {
      SortIsStable(xs[1..], t);
      InsertKeepsTies(xs[0], SortByStart(xs[1..]), t);
    }
  }

  /** Sequences with the same multiset hold the same events. */
  lemma SameElements(a: seq<Event>, b: seq<Event>)
    requires multiset(a) == multiset(b)
    ensures forall e :: e in a <==> e in b
  {
    forall e
      ensures e in a <==> e in b
    {
      assert e in a <==> e in multiset(a);
      assert e in b <==> e in multiset(b);
    }
  }

  /**
    `parse_events`: the events of the components that normalise and have not
    ended before `now`, sorted stably by start.
  */
  function ParseEvents(zone: Zone, now: Instant, comps: seq<Component>): (r: seq<Event>)
    ensures SortedByStart(r)
    ensures multiset(r) == multiset(Collect(zone, now, comps))
    ensures forall e :: e in r <==> exists i | 0 <= i < |comps| :: Keeps(zone, now, comps[i], e)
    ensures forall i | 0 <= i < |r| :: r[i].end >= now
  {
    var kept := Collect(zone, now, comps);
    var r := SortByStart(kept);
    SameElements(r, kept);
    r
  }

  /** Bookings that share a start come out in calendar order. */
  lemma ParseEventsIsStable(zone: Zone, now: Instant, comps: seq<Component>, t: Instant)
    ensures WithStart(ParseEvents(zone, now, comps), t) == WithStart(Collect(zone, now, comps), t)
  {
    SortIsStable(Collect(zone, now, comps), t);
  }
}
