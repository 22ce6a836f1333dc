// The flight records the fare-search endpoint returns, reduced to the fields
// the watcher reads, and the pure selections made on them each cycle.

module Flights {

  datatype Option<T> = None | Some(value: T)

  /** One entry of `Prices[i].PassengerFares`: the passenger type marker and its total fare. */
  datatype PassengerFare = PassengerFare(paxType: string, totalFare: int)

  /** One entry of `Prices`; `passengerFares` is None when the field is absent or null. */
  datatype PriceRecord = PriceRecord(passengerFares: Option<seq<PassengerFare>>)

  datatype Leg = Leg(departureTime: string, departureDateString: string)

  datatype Segment = Segment(legs: seq<Leg>)

  /** A flight as returned by the endpoint; an absent `Prices` list is the empty one. */
  datatype Flight = Flight(id: string, prices: seq<PriceRecord>, segments: seq<Segment>)

  /** The passenger type marker of an adult fare. */
  const Adult: string := "ADL"

  /** The filter `item.Prices?.length > 0`. */
  predicate HasPrices(f: Flight) {
    |f.prices| > 0
  }

  /** `Flights.filter(item => item.Prices?.length > 0)`: the priced flights, in order. */
  function PricedFlights(flights: seq<Flight>): (r: seq<Flight>)
    ensures |r| <= |flights|
    ensures forall i :: 0 <= i < |r| ==> HasPrices(r[i]) && r[i] in flights
    ensures forall f :: f in flights && HasPrices(f) ==> f in r
  {
    if flights == [] then []
    else if HasPrices(flights[0]) then [flights[0]] + PricedFlights(flights[1..])
    else PricedFlights(flights[1..])
  }

  /** `filteredFlights[0]`, or None when no flight is priced. */
  function SelectFlight(flights: seq<Flight>): Option<Flight> {
    var priced := PricedFlights(flights);
    if |priced| > 0 then Some(priced[0]) else None
  }

  /** Index `i` holds the first priced flight of the list. */
  predicate IsFirstPriced(flights: seq<Flight>, i: int) {
    0 <= i < |flights| && HasPrices(flights[i]) &&
    forall j :: 0 <= j < i ==> !HasPrices(flights[j])
  }

  /**
    * The flight a cycle hands on is the first priced flight of the response,
    * not one of least fare; None exactly when no flight is priced.
    */
  lemma {:induction false} SelectFlightIsFirstPriced(flights: seq<Flight>)
    ensures SelectFlight(flights).None? <==> forall i :: 0 <= i < |flights| ==> !HasPrices(flights[i])
    ensures SelectFlight(flights).Some? ==>
      exists i :: IsFirstPriced(flights, i) && flights[i] == SelectFlight(flights).value
  {
    if flights != [] {
      SelectFlightIsFirstPriced(flights[1..]);
      if HasPrices(flights[0]) {
        assert IsFirstPriced(flights, 0);
      } else {
        assert PricedFlights(flights) == PricedFlights(flights[1..]);
        if SelectFlight(flights).Some? {
          var i :| IsFirstPriced(flights[1..], i) && flights[1..][i] == SelectFlight(flights).value;
          assert IsFirstPriced(flights, i + 1);
        } else {
          forall i | 0 <= i < |flights| ensures !HasPrices(flights[i]) {
            if i > 0 { assert flights[i] == flights[1..][i - 1]; }
          }
        }
      }
    }
  }

  /** Entry `i` is the first adult entry of the list. */
  predicate IsFirstAdult(fares: seq<PassengerFare>, i: int) {
    0 <= i < |fares| && fares[i].paxType == Adult &&
    forall j :: 0 <= j < i ==> fares[j].paxType != Adult
  }

  /**
    * `PassengerFares.find(item => item.PaxType === 'ADL').TotalFare`: the total
    * fare of the first adult entry, None when there is none.
    */
  function AdultFare(fares: seq<PassengerFare>): (r: Option<int>)
    ensures r.None? <==> forall i :: 0 <= i < |fares| ==> fares[i].paxType != Adult
    ensures r.Some? ==> exists i :: IsFirstAdult(fares, i) && fares[i].totalFare == r.value
  {
    if fares == [] then None
    else if fares[0].paxType == Adult then
      assert IsFirstAdult(fares, 0);
      Some(fares[0].totalFare)
    else
      var r := AdultFare(fares[1..]);
      assert r.Some? ==> exists i :: IsFirstAdult(fares, i) && fares[i].totalFare == r.value by {
        if r.Some? {
          var k :| IsFirstAdult(fares[1..], k) && fares[1..][k].totalFare == r.value;
          assert IsFirstAdult(fares, k + 1);
        }
      }
      r
  }

  /** What the tracker finds in a flight's first price record. */
  datatype FareLookup =
    | NoPriceRecord        // `flight.Prices[0]` is undefined
    | NoPassengerFares     // `prices.PassengerFares` is absent
    | NoAdultFare          // no `ADL` entry: reading `TotalFare` throws
    | AdultFareOf(fare: int)

  function LookUpFare(f: Flight): (r: FareLookup)
    ensures r.NoPriceRecord? <==> !HasPrices(f)
    ensures r.NoPassengerFares? <==> HasPrices(f) && f.prices[0].passengerFares.None?
    ensures r.NoAdultFare? <==>
      (HasPrices(f) && f.prices[0].passengerFares.Some? &&
       AdultFare(f.prices[0].passengerFares.value).None?)
    ensures r.AdultFareOf? ==>
      HasPrices(f) && f.prices[0].passengerFares.Some? &&
      Some(r.fare) == AdultFare(f.prices[0].passengerFares.value)
  {
    if |f.prices| == 0 then NoPriceRecord
    else match f.prices[0].passengerFares
      case None => NoPassengerFares
      case Some(fares) =>
        match AdultFare(fares)
        case None => NoAdultFare
        case Some(fare) => AdultFareOf(fare)
  }

  /** `flight.Segments[0]?.Legs[0]`: the first leg of the first segment, if any. */
  function FirstLeg(f: Flight): Option<Leg> {
    if |f.segments| > 0 && |f.segments[0].legs| > 0 then Some(f.segments[0].legs[0]) else None
  }
}
