/**
 * The parking event, `{"spot_id": "A<n>", "status": "occupied"|"vacant", "timestamp": ...}`,
 * and `generate_parking_event`, which every demo and test script defines identically.
 */
module ParkingEvents {
  import opened Strings
  import opened Timestamp
  import Json
  import opened Wrappers

  datatype Status = Occupied | Vacant {
    function Name(): string {
      match this
      case Occupied => "occupied"
      case Vacant => "vacant"
    }
  }

  datatype Event = Event(spotId: string, status: Status, timestamp: string)

  /** The event as the JSON object the scripts build and send. */
  function ToObject(e: Event): (o: Json.Object)
    ensures o.Keys == {"spot_id", "status", "timestamp"}
    ensures o["timestamp"] == Json.Str(e.timestamp)
  {
    map["spot_id" := Json.Str(e.spotId), "status" := Json.Str(e.status.Name()), "timestamp" := Json.Str(e.timestamp)]
  }

  const SpotCount := 10

  /** "A1" .. "A10": the letter A followed by a spot number without leading zero. */
  predicate IsSpotId(s: string) {
    && |s| >= 2 && s[0] == 'A' && AllDigits(s[1..]) && s[1] != '0'
    && 1 <= DigitsValue(s[1..]) <= SpotCount
  }

  /**
   * `generate_parking_event()`: `spot` is the value `random.randint(1, 10)` drew,
   * `occupied` the outcome of `random.choice`, and `now` the UTC clock reading.
   */
  function GenerateParkingEvent(spot: int, occupied: bool, now: DateTime): (e: Event)
    requires 1 <= spot <= SpotCount && Valid(now)
    ensures IsSpotId(e.spotId) && DigitsValue(e.spotId[1..]) == spot
    ensures e.status == (if occupied then Occupied else Vacant)
    ensures Parse(e.timestamp) == Some(now)
  {
    var digits := NatToString(spot);
    NatToStringValue(spot);
    assert ("A" + digits)[1..] == digits;
    assert spot < 10 ==> digits == [DigitChar(spot)];
    assert spot == 10 ==> digits == NatToString(1) + [DigitChar(0)];
    ParseFormat(now);
    Event("A" + digits, if occupied then Occupied else Vacant, Format(now))
  }
}
