/**
  The keys of the dictionary `determine_room_status` returns, and the route
  that copies six of them into its response. An occupied result has no
  `minutes_available` key, so reading it raises, the route's handler catches
  the error and the room is reported with status "ERROR".
*/
module ResponseShape {
  import opened Wrappers
  import opened Occupancy

  const MinutesAvailable: string := "minutes_available"

  /** The keys present in every result shape. */
  const CommonKeys: set<string> :=
    {"status", "status_text", "current_booking", "available_until", "next_booking"}

  /** The keys the route reads from the result, in the order it reads them. */
  const RouteReads: seq<string> :=
    ["status", "status_text", "available_until", "minutes_available", "current_booking", "next_booking"]

  /** The keys of each result shape as the service builds it. */
  function ResultKeys(r: RoomStatus): (keys: set<string>)
    ensures MinutesAvailable in keys <==> !r.Occupied?
    ensures forall i | 0 <= i < |RouteReads| && RouteReads[i] != MinutesAvailable :: RouteReads[i] in keys
  {
    if r.Occupied? then CommonKeys else CommonKeys + {MinutesAvailable}
  }

  /** The keys of each result shape with `minutes_available: None` added to the occupied one. */
  function FixedResultKeys(r: RoomStatus): (keys: set<string>)
    ensures keys == ResultKeys(r) + {MinutesAvailable}
    ensures r.Occupied? ==> ResultKeys(r) < keys
    ensures !r.Occupied? ==> keys == ResultKeys(r)
  {
    CommonKeys + {MinutesAvailable}
  }

  /** Reads `lookups` in order from a dictionary with `keys`; the first absent key raises. */
  function ReadAll(keys: set<string>, lookups: seq<string>): (r: Result<(), string>)
    ensures r.Success? <==> forall i | 0 <= i < |lookups| :: lookups[i] in keys
    ensures r.Failure? ==> r.error !in keys && r.error in lookups
    ensures r.Failure? ==> exists k | 0 <= k < |lookups| :: lookups[k] == r.error && forall j | 0 <= j < k :: lookups[j] in keys
  {
    if |lookups| == 0 then Success(())
    else if lookups[0] !in keys then Failure(lookups[0])
    else
      var rest := ReadAll(keys, lookups[1..]);
      assert forall i | 1 <= i < |lookups| :: lookups[i] == lookups[1..][i - 1];
      if rest.Failure? then
        var k :| 0 <= k < |lookups[1..]| && lookups[1..][k] == rest.error && forall j | 0 <= j < k :: lookups[1..][j] in keys;
        assert lookups[k + 1] == rest.error;
        rest
      else rest
  }

  /**
    The `status` the route responds with for a result with `keys`: the
    result's own status when every read key is present, and "ERROR" from the
    exception handler otherwise.
  */
  function RouteStatus(r: RoomStatus, keys: set<string>): (status: string)
    ensures status == "ERROR" <==> exists i | 0 <= i < |RouteReads| :: RouteReads[i] !in keys
    ensures status != "ERROR" ==> status == StatusText(r)
  {
    if ReadAll(keys, RouteReads).Success? then StatusText(r) else "ERROR"
  }

  /**
    As written, the route fails exactly for occupied rooms, on
    `minutes_available`, and reports them as "ERROR".
  */
  lemma OccupiedRoomBreaksRoute(r: RoomStatus)
    ensures ReadAll(ResultKeys(r), RouteReads).Failure? <==> r.Occupied?
    ensures r.Occupied? ==> ReadAll(ResultKeys(r), RouteReads) == Failure(MinutesAvailable)
    ensures RouteStatus(r, ResultKeys(r)) == "ERROR" <==> r.Occupied?
  {
  }

  /** With the key added, every result shape reaches the response with its own status. */
  lemma FixedKeysServeRoute(r: RoomStatus)
    ensures ReadAll(FixedResultKeys(r), RouteReads).Success?
    ensures RouteStatus(r, FixedResultKeys(r)) == StatusText(r)
  {
  }
}
