// The fare tracker: the watcher's three module-level variables (the last
// reported fare, the flight it belongs to, and the "not found" flag), the
// handlers that update them once per polling cycle, and the notifications
// those handlers raise.

module Tracker {
  import opened Flights

  /** The old and new fare and the departure of the flight, as a price notification reports them. */
  datatype PriceInfo = PriceInfo(oldPrice: int, newPrice: int, departureDate: string, departureTime: string)

  /** A notification, by its title. */
  datatype Notice =
    | NotFound             // "Not Found"
    | Up(info: PriceInfo)   // "Up", the fare rose
    | Down(info: PriceInfo) // "Dowm", the fare fell
    | FetchError           // "Error in Fetch"

  /** The outcome of one request to the fare-search endpoint. */
  datatype Response = FetchFailed | Fetched(flights: seq<Flight>)

  /** The tracker's variables together with every notification raised so far. */
  datatype TrackerState = TrackerState(minPrice: int, minFlight: Option<Flight>, notFound: bool, notices: seq<Notice>)

  /** The state at start-up: the sentinel fare 0, no flight, nothing reported. */
  const Start: TrackerState := TrackerState(0, None, false, [])

  /** The result of handling one flight; `threw` when its adult fare could not be read. */
  datatype Handled = Handled(state: TrackerState, threw: bool)

  // ---------------------------------------------------------------------------
  // The handlers as functions of the state; class FareWatcher below runs them
  // in place and is proved to agree with them.

  /** `notFoundHandler`: report "Not Found" only on the first miss, then reset. */
  function NotFoundStep(s: TrackerState): TrackerState {
    TrackerState(0, None, true, s.notices + (if s.notFound then [] else [NotFound]))
  }

  /** `infoTextMaker`: the report of a fare change, or the not-found path when the flight has no leg. */
  function InfoStep(s: TrackerState, f: Flight, price: int): (TrackerState, Option<PriceInfo>) {
    match FirstLeg(f)
    case None => (NotFoundStep(s), None)
    case Some(leg) => (s, Some(PriceInfo(s.minPrice, price, leg.departureDateString, leg.departureTime)))
  }

  /** `increaseHandler` (`rising`) and `decreaseHandler`: report, then remember the new fare. */
  function ChangeStep(s: TrackerState, f: Flight, price: int, rising: bool): TrackerState {
    var (s', info) := InfoStep(s, f, price);
    var report := if info.None? then [] else if rising then [Up(info.value)] else [Down(info.value)];
    TrackerState(price, Some(f), false, s'.notices + report)
  }

  /** `flightHandler`. */
  function FlightStep(s: TrackerState, f: Flight): Handled {
    match LookUpFare(f)
    case NoPriceRecord => Handled(NotFoundStep(s), false)
    case NoPassengerFares => Handled(NotFoundStep(s), false)
    case NoAdultFare => Handled(s.(notFound := false), true)
    case AdultFareOf(price) =>
      var s' := s.(notFound := false);
      if s'.minPrice == price then Handled(s', false)
      else Handled(ChangeStep(s', f, price, price > s'.minPrice), false)
  }

  /**
    * One cycle of `checkData`: a failed request, or an exception while
    * handling the flight, ends in "Error in Fetch"; otherwise the first
    * priced flight is handled, or the not-found path runs.
    */
  function CycleStep(s: TrackerState, r: Response): TrackerState {
    match r
    case FetchFailed => s.(notices := s.notices + [FetchError])
    case Fetched(flights) =>
      match SelectFlight(flights)
      case None => NotFoundStep(s)
      case Some(f) =>
        var h := FlightStep(s, f);
        if h.threw then h.state.(notices := h.state.notices + [FetchError]) else h.state
  }

  /** Successive cycles, one response each. */
  function Run(s: TrackerState, rs: seq<Response>): TrackerState
    decreases |rs|
  {
    if rs == [] then s else Run(CycleStep(s, rs[0]), rs[1..])
  }

  /**
    * What the variables mean between cycles: the remembered fare is the adult
    * fare of the remembered flight, and 0 when there is none; after a miss
    * there is none.
    */
  ghost predicate Inv(s: TrackerState) {
    (s.notFound ==> s.minFlight.None?) &&
    (s.minFlight.None? ==> s.minPrice == 0) &&
    (s.minFlight.Some? ==> LookUpFare(s.minFlight.value) == AdultFareOf(s.minPrice))
  }

  /** Every cycle keeps the invariant, whatever the response. */
  lemma CyclePreservesInv(s: TrackerState, r: Response)
    requires Inv(s)
    ensures Inv(CycleStep(s, r))
  {
  }

  // ---------------------------------------------------------------------------

  class FareWatcher {
    var minPrice: int
    var minFlight: Option<Flight>
    var notFound: bool
    /** Every notification raised, oldest first. */
    var notices: seq<Notice>

    function State(): TrackerState
      reads this
    {
      TrackerState(minPrice, minFlight, notFound, notices)
    }

    constructor ()
      ensures State() == Start && Inv(State())
    {
      minPrice := 0;
      minFlight := None;
      notFound := false;
      notices := [];
    }

    /** `toastHandler`: raise one notification. */
    method Toast(n: Notice)
      modifies this
      ensures notices == old(notices) + [n]
      ensures minPrice == old(minPrice) && minFlight == old(minFlight) && notFound == old(notFound)
    {
      notices := notices + [n];
    }

    method NotFoundHandler()
      modifies this
      ensures State() == NotFoundStep(old(State()))
    {
      if !notFound {
        Toast(NotFound);
      }
      notFound := true;
      minPrice := 0;
      minFlight := None;
    }

    method InfoTextMaker(f: Flight, price: int) returns (info: Option<PriceInfo>)
      modifies this
      ensures (State(), info) == InfoStep(old(State()), f, price)
    {
      var leg := FirstLeg(f);
      if leg.None? {
        NotFoundHandler();
        return None;
      }
      info := Some(PriceInfo(minPrice, price, leg.value.departureDateString, leg.value.departureTime));
    }

    method IncreaseHandler(f: Flight, price: int)
      modifies this
      ensures State() == ChangeStep(old(State()), f, price, true)
    {
      var info := InfoTextMaker(f, price);
      if info.Some? {
        Toast(Up(info.value));
      }
      minFlight := Some(f);
      minPrice := price;
      notFound := false;
    }

    method DecreaseHandler(f: Flight, price: int)
      modifies this
      ensures State() == ChangeStep(old(State()), f, price, false)
    {
      var info := InfoTextMaker(f, price);
      if info.Some? {
        Toast(Down(info.value));
      }
      minFlight := Some(f);
      minPrice := price;
      notFound := false;
    }

    /** Returns `threw` when the flight has passenger fares but no adult entry. */
    method FlightHandler(f: Flight) returns (threw: bool)
      modifies this
      ensures Handled(State(), threw) == FlightStep(old(State()), f)
    {
      threw := false;
      if |f.prices| == 0 {
        NotFoundHandler();
        return;
      }
      var fares := f.prices[0].passengerFares;
      if fares.None? {
        NotFoundHandler();
        return;
      }
      notFound := false;
      var adult := AdultFare(fares.value);
      if adult.None? {
        return true;
      }
      var price := adult.value;
      if minPrice == price {
        return;
      }
      if price > minPrice {
        IncreaseHandler(f, price);
      } else {
        DecreaseHandler(f, price);
      }
    }

    /** One polling cycle on the endpoint's response. */
    method CheckData(response: Response)
      modifies this
      ensures State() == CycleStep(old(State()), response)
      ensures Inv(old(State())) ==> Inv(State())
    {
      ghost var before := State();
      match response {
        case FetchFailed =>
          Toast(FetchError);
        case Fetched(flights) =>
          var selected := SelectFlight(flights);
          if selected.Some? {
            var threw := FlightHandler(selected.value);
            if threw {
              Toast(FetchError);
            }
          } else {
            NotFoundHandler();
          }
      }
      if Inv(before) {
        CyclePreservesInv(before, response);
      }
    }
  }
}
