// What the fare tracker promises, stated over the handler functions that
// class Tracker.FareWatcher is proved to follow.

module TrackerProperties {
  import opened Flights
  import opened Tracker

  /** A response in which no flight is priced: the cycle takes the not-found path. */
  predicate NothingPriced(r: Response) {
    r.Fetched? && SelectFlight(r.flights).None?
  }

  /** A response whose first priced flight is `f`. */
  predicate Selects(r: Response, f: Flight) {
    r.Fetched? && SelectFlight(r.flights) == Some(f)
  }

  // ---------------------------------------------------------------------------
  // notFoundHandler

  /**
    * "Not Found" is raised on the edge only: exactly when the flag was clear.
    * Afterwards the flag is set and the fare and flight are reset.
    */
  lemma NotFoundIsEdgeTriggered(s: TrackerState)
    ensures var s' := NotFoundStep(s);
      s'.notFound && s'.minPrice == 0 && s'.minFlight.None? &&
      (s'.notices == s.notices + [NotFound] <==> !s.notFound) &&
      (s'.notices == s.notices <==> s.notFound)
  {
  }

  /** A second miss in a row changes nothing and raises nothing. */
  lemma NotFoundIdempotent(s: TrackerState)
    ensures NotFoundStep(NotFoundStep(s)) == NotFoundStep(s)
  {
  }

  // ---------------------------------------------------------------------------
  // flightHandler, increaseHandler, decreaseHandler, infoTextMaker

  /** An adult fare equal to the remembered one only clears the flag. */
  lemma EqualFareIsSilent(s: TrackerState, f: Flight)
    requires LookUpFare(f) == AdultFareOf(s.minPrice)
    ensures FlightStep(s, f) == Handled(s.(notFound := false), false)
  {
  }

  /**
    * A different adult fare raises exactly one notification: "Up" when it is
    * strictly greater than the remembered fare, "Down" otherwise, carrying the
    * remembered fare as the old price. The fare and flight are remembered.
    */
  lemma FareChangeClassified(s: TrackerState, f: Flight, price: int)
    requires LookUpFare(f) == AdultFareOf(price) && price != s.minPrice
    requires FirstLeg(f).Some?
    ensures var h := FlightStep(s, f);
      var leg := FirstLeg(f).value;
      var info := PriceInfo(s.minPrice, price, leg.departureDateString, leg.departureTime);
      !h.threw &&
      h.state == TrackerState(price, Some(f), false, s.notices + [if price > s.minPrice then Up(info) else Down(info)])
  {
  }

  /**
    * A changed fare on a flight without a first leg raises "Not Found" instead
    * of a price notification, yet the fare and flight are still remembered and
    * the flag ends clear.
    */
  lemma MissingLegReportsNotFound(s: TrackerState, f: Flight, price: int)
    requires LookUpFare(f) == AdultFareOf(price) && price != s.minPrice
    requires FirstLeg(f).None?
    ensures FlightStep(s, f) == Handled(TrackerState(price, Some(f), false, s.notices + [NotFound]), false)
  {
  }

  /**
    * Passenger fares without an adult entry make the handler throw after it
    * has cleared the flag; the remembered fare and flight are untouched.
    */
  lemma MissingAdultFareThrows(s: TrackerState, f: Flight)
    requires LookUpFare(f) == NoAdultFare
    ensures FlightStep(s, f) == Handled(s.(notFound := false), true)
  {
  }

  /** With the start-up sentinel 0, a first positive fare is reported as a rise from 0. */
  lemma FirstPositiveFareReportedUp(f: Flight, price: int)
    requires LookUpFare(f) == AdultFareOf(price) && price > 0
    requires FirstLeg(f).Some?
    ensures var s := FlightStep(Start, f).state;
      |s.notices| == 1 && s.notices[0].Up? && s.notices[0].info.oldPrice == 0 &&
      s.notices[0].info.newPrice == price
  {
    FareChangeClassified(Start, f, price);
  }

  // ---------------------------------------------------------------------------
  // checkData

  /**
    * A cycle hands the first priced flight of the response to the flight
    * handler, never a flight without a price record, and takes the not-found
    * path when no flight is priced.
    */
  lemma {:induction false} CycleHandlesFirstPricedFlight(s: TrackerState, flights: seq<Flight>)
    ensures (forall i :: 0 <= i < |flights| ==> !HasPrices(flights[i])) ==>
      CycleStep(s, Fetched(flights)) == NotFoundStep(s)
    ensures (exists i :: 0 <= i < |flights| && HasPrices(flights[i])) ==>
      exists i :: IsFirstPriced(flights, i) && LookUpFare(flights[i]) != NoPriceRecord &&
        var h := FlightStep(s, flights[i]);
        CycleStep(s, Fetched(flights)) == if h.threw then h.state.(notices := h.state.notices + [FetchError]) else h.state
  {
    SelectFlightIsFirstPriced(flights);
  }

  /** Each cycle appends at most one notification and never rewrites earlier ones. */
  lemma CycleNotifiesAtMostOnce(s: TrackerState, r: Response)
    ensures var s' := CycleStep(s, r);
      |s.notices| <= |s'.notices| <= |s.notices| + 1 && s'.notices[..|s.notices|] == s.notices
  {
  }

  /** A failed request raises "Error in Fetch" and leaves the variables alone. */
  lemma FetchFailureLeavesStateAlone(s: TrackerState)
    ensures CycleStep(s, FetchFailed) == s.(notices := s.notices + [FetchError])
  {
  }

  // ---------------------------------------------------------------------------
  // Several cycles

  /** The invariant holds after any number of cycles from start-up. */
  lemma {:induction false} RunPreservesInv(s: TrackerState, rs: seq<Response>)
    requires Inv(s)
    ensures Inv(Run(s, rs))
    decreases |rs|
  {
    if rs != [] {
      CyclePreservesInv(s, rs[0]);
      RunPreservesInv(CycleStep(s, rs[0]), rs[1..]);
    }
  }

  /** However many cycles in a row find nothing, "Not Found" is raised at most once. */
  lemma {:induction false} RepeatedMissesNotifyOnce(s: TrackerState, rs: seq<Response>)
    requires forall i :: 0 <= i < |rs| ==> NothingPriced(rs[i])
    ensures Run(s, rs).notices == s.notices + (if rs != [] && !s.notFound then [NotFound] else [])
    decreases |rs|
  {
    if rs != [] {
      var s' := CycleStep(s, rs[0]);
      assert s' == NotFoundStep(s);
      RepeatedMissesNotifyOnce(s', rs[1..]);
    }
  }

  /** Once a flight's fare has been seen, seeing it again changes nothing. */
  lemma SteadyCycleIdempotent(s: TrackerState, r: Response, f: Flight, price: int)
    requires Selects(r, f) && LookUpFare(f) == AdultFareOf(price)
    ensures CycleStep(CycleStep(s, r), r) == CycleStep(s, r)
  {
  }

  /** A response repeated after its first cycle raises no further notification. */
  lemma {:induction false} SteadyFareIsSilent(s: TrackerState, rs: seq<Response>, f: Flight, price: int)
    requires LookUpFare(f) == AdultFareOf(price)
    requires forall i :: 0 <= i < |rs| ==> Selects(rs[i], f)
    requires s.minPrice == price && !s.notFound
    ensures Run(s, rs) == s
    decreases |rs|
  {
    if rs != [] {
      EqualFareIsSilent(s, f);
      assert CycleStep(s, rs[0]) == s;
      SteadyFareIsSilent(s, rs[1..], f, price);
    }
  }

  /**
    * Three cycles on one flight at 500, 500 and 650 from start-up: a rise
    * from 0 to 500, nothing, a rise from 500 to 650.
    */
  lemma ThreeCycleExample()
    ensures var leg := Leg("2025-04-07T08:00:00", "2025-04-07");
      var at := (price: int) => Fetched([Flight("A", [PriceRecord(Some([PassengerFare(Adult, price)]))], [Segment([leg])])]);
      Run(Start, [at(500), at(500), at(650)]).notices ==
        [Up(PriceInfo(0, 500, "2025-04-07", "2025-04-07T08:00:00")),
         Up(PriceInfo(500, 650, "2025-04-07", "2025-04-07T08:00:00"))]
  {
    var leg := Leg("2025-04-07T08:00:00", "2025-04-07");
    var at := (price: int) => Fetched([Flight("A", [PriceRecord(Some([PassengerFare(Adult, price)]))], [Segment([leg])])]);
    var rs := [at(500), at(500), at(650)];
    var a500, a650 := at(500).flights[0], at(650).flights[0];
    assert SelectFlight(at(500).flights) == Some(a500);
    assert SelectFlight(at(650).flights) == Some(a650);
    assert LookUpFare(a500) == AdultFareOf(500);
    assert LookUpFare(a650) == AdultFareOf(650);
    var s1 := CycleStep(Start, rs[0]);
    FareChangeClassified(Start, a500, 500);
    var s2 := CycleStep(s1, rs[1]);
    assert s2 == s1;
    var s3 := CycleStep(s2, rs[2]);
    FareChangeClassified(s2, a650, 650);
    assert Run(Start, rs) == Run(s1, rs[1..]);
    assert Run(s1, rs[1..]) == Run(s2, rs[2..]);
    assert Run(s2, rs[2..]) == Run(s3, []);
  }
}
