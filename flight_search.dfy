/**
 * The WorldWanderer flight search: a validation gate over the nine parameters
 * of a proposed trip. A `FlightSearch` object holds the last request that
 * passed every rule; a request that fails any rule is refused and leaves that
 * state exactly as it was.
 */
module Flight {
  import opened Wrappers
  import opened Dates

  // ---------------------------------------------------------------------------
  // Java `int`

  type Int32 = x: int | -0x8000_0000 <= x < 0x8000_0000

  /** Java's 32-bit two's-complement wrap-around of an exact result. */
  function Wrap32(x: int): (r: Int32)
    ensures -0x8000_0000 <= x < 0x8000_0000 ==> r == x
    ensures 0x8000_0000 <= x < 0x1_8000_0000 ==> r == x - 0x1_0000_0000
  {
    (x + 0x8000_0000) % 0x1_0000_0000 - 0x8000_0000
  }

  // ---------------------------------------------------------------------------
  // The allowed values

  const ValidAirports: set<string> := {"syd", "mel", "lax", "cdg", "del", "pvg", "doh"}
  const ValidClasses: set<string> := {"economy", "premium economy", "business", "first"}

  // ---------------------------------------------------------------------------
  // The five checks, in the shape of the Java helpers

  /**
   * Conditions 1, 4 and 5, with the sum and the doubling computed in 32-bit
   * arithmetic. The wrap-around never changes the verdict: a total that wraps
   * into 1..9 needs at least 2^30 adults, and then twice the adults wraps
   * negative and the child check refuses.
   */
  function ValidatePassengerCounts(adults: Int32, children: Int32, infants: Int32): (r: bool)
    ensures r <==> PassengerRule(adults, children, infants)
  {
    if adults < 0 || children < 0 || infants < 0 then false
    else
      var total := Wrap32(adults + children + infants);
      if total < 1 || total > 9 then false
      else if children > Wrap32(adults * 2) then false
      else if infants > adults then false
      else true
  }

  /** Condition 9: the seating class is one of the four cabin classes, spelled exactly. */
  function IsValidClass(seatingClass: string): (r: bool)
    ensures r <==> seatingClass == "economy" || seatingClass == "premium economy"
                   || seatingClass == "business" || seatingClass == "first"
  {
    seatingClass in ValidClasses
  }

  /** Condition 11: two different airports, both served. */
  function AreValidAirports(dep: string, dest: string): (r: bool)
    ensures r <==> dep in ValidAirports && dest in ValidAirports && dep != dest
  {
    if dep !in ValidAirports || dest !in ValidAirports then false
    else if dep == dest then false
    else true
  }

  /** Conditions 6 and 8: departure not before today, return not before departure. */
  function AreValidDates(today: Date, dep: Date, ret: Date): (r: bool)
    requires ValidDate(today) && ValidDate(dep) && ValidDate(ret)
    ensures r <==> DayIndex(today) <= DayIndex(dep) <= DayIndex(ret)
  {
    ChronologicalOrder(dep, today);
    ChronologicalOrder(ret, dep);
    if IsBefore(dep, today) then false
    else if IsBefore(ret, dep) then false
    else true
  }

  /** Conditions 2, 3 and 10: who may sit where. `adults` is not consulted, as in the source. */
  function ValidateSeatingRules(seatingClass: string, emergencyRow: bool,
                                adults: Int32, children: Int32, infants: Int32): (r: bool)
    ensures r <==> SeatingRule(seatingClass, emergencyRow, children, infants)
  {
    if emergencyRow && seatingClass != "economy" then false
    else if children > 0 && (emergencyRow || seatingClass == "first") then false
    else if infants > 0 && (emergencyRow || seatingClass == "business") then false
    else true
  }

  // ---------------------------------------------------------------------------
  // The rules, stated on mathematical integers and independently of check order

  predicate PassengerRule(adults: int, children: int, infants: int) {
    && 0 <= adults && 0 <= children && 0 <= infants
    && 1 <= adults + children + infants <= 9
    && children <= 2 * adults
    && infants <= adults
  }

  predicate SeatingRule(seatingClass: string, emergencyRow: bool, children: int, infants: int) {
    && (emergencyRow ==> seatingClass == "economy" && children <= 0 && infants <= 0)
    && (seatingClass == "first" ==> children <= 0)
    && (seatingClass == "business" ==> infants <= 0)
  }

  /** The nine parameters of one call. */
  datatype Request = Request(
    departureDate: string,
    departureAirportCode: string,
    emergencyRowSeating: bool,
    returnDate: string,
    destinationAirportCode: string,
    seatingClass: string,
    adultPassengerCount: Int32,
    childPassengerCount: Int32,
    infantPassengerCount: Int32)

  /** Every rule holds of `r` on day `today`. */
  predicate Accepts(r: Request, today: Date) {
    && PassengerRule(r.adultPassengerCount, r.childPassengerCount, r.infantPassengerCount)
    && r.seatingClass in ValidClasses
    && r.departureAirportCode in ValidAirports
    && r.destinationAirportCode in ValidAirports
    && r.departureAirportCode != r.destinationAirportCode
    && ParseStrict(r.departureDate).Some?
    && ParseStrict(r.returnDate).Some?
    && !IsBefore(ParseStrict(r.departureDate).value, today)
    && !IsBefore(ParseStrict(r.returnDate).value, ParseStrict(r.departureDate).value)
    && SeatingRule(r.seatingClass, r.emergencyRowSeating, r.childPassengerCount, r.infantPassengerCount)
  }

  /**
   * The source's helpers, conjoined in the source's order, decide exactly
   * the rules: the verdict does not depend on the order of the checks.
   */
  lemma HelpersDecideAccepts(r: Request, today: Date)
    requires ValidDate(today)
    ensures Accepts(r, today) <==>
      && ValidatePassengerCounts(r.adultPassengerCount, r.childPassengerCount, r.infantPassengerCount)
      && IsValidClass(r.seatingClass)
      && AreValidAirports(r.departureAirportCode, r.destinationAirportCode)
      && ParseStrict(r.departureDate).Some?
      && ParseStrict(r.returnDate).Some?
      && AreValidDates(today, ParseStrict(r.departureDate).value, ParseStrict(r.returnDate).value)
      && ValidateSeatingRules(r.seatingClass, r.emergencyRowSeating, r.adultPassengerCount,
                              r.childPassengerCount, r.infantPassengerCount)
  {
  }

  /**
   * A party that passes the passenger rule includes at least one adult: with
   * no adults, the ratios allow neither children nor infants, and the total is 0.
   */
  lemma PartyHasAnAdult(adults: int, children: int, infants: int)
    requires PassengerRule(adults, children, infants)
    ensures 1 <= adults <= 9
  {
  }

  /** What an accepted request is guaranteed to satisfy. */
  lemma AcceptedRequest(r: Request, today: Date)
    requires ValidDate(today) && Accepts(r, today)
    ensures 1 <= r.adultPassengerCount + r.childPassengerCount + r.infantPassengerCount <= 9
    ensures 0 <= r.childPassengerCount <= 2 * r.adultPassengerCount
    ensures 0 <= r.infantPassengerCount <= r.adultPassengerCount
    ensures IsValidClass(r.seatingClass)
    ensures AreValidAirports(r.departureAirportCode, r.destinationAirportCode)
    ensures ParseStrict(r.departureDate).Some? && ParseStrict(r.returnDate).Some?
    ensures DayIndex(today) <= DayIndex(ParseStrict(r.departureDate).value)
                            <= DayIndex(ParseStrict(r.returnDate).value)
    ensures r.emergencyRowSeating ==>
              r.seatingClass == "economy" && r.childPassengerCount == 0 && r.infantPassengerCount == 0
    ensures r.seatingClass == "first" ==> r.childPassengerCount == 0
    ensures r.seatingClass == "business" ==> r.infantPassengerCount == 0
  {
  }

  /**
   * The checks of `runFlightSearch`, in the source's order, each refusing as
   * soon as it fails; nothing is written here.
   */
  method Validate(departureDate: string,
                  departureAirportCode: string,
                  emergencyRowSeating: bool,
                  returnDate: string,
                  destinationAirportCode: string,
                  seatingClass: string,
                  adultPassengerCount: Int32,
                  childPassengerCount: Int32,
                  infantPassengerCount: Int32,
                  today: Date) returns (ok: bool)
    requires ValidDate(today)
    ensures ok == Accepts(Request(departureDate, departureAirportCode, emergencyRowSeating,
                                  returnDate, destinationAirportCode, seatingClass,
                                  adultPassengerCount, childPassengerCount, infantPassengerCount), today)
  {
    HelpersDecideAccepts(Request(departureDate, departureAirportCode, emergencyRowSeating,
                                 returnDate, destinationAirportCode, seatingClass,
                                 adultPassengerCount, childPassengerCount, infantPassengerCount), today);

    // Passengers and ratios
    if !ValidatePassengerCounts(adultPassengerCount, childPassengerCount, infantPassengerCount) {
      return false;
    }

    // Seating class
    if !IsValidClass(seatingClass) {
      return false;
    }

    // Airports
    if !AreValidAirports(departureAirportCode, destinationAirportCode) {
      return false;
    }

    // Dates: parse strictly first, then compare
    var dep := ParseStrict(departureDate);
    if dep.None? {
      return false;
    }
    var ret := ParseStrict(returnDate);
    if ret.None? {
      return false;
    }
    if !AreValidDates(today, dep.value, ret.value) {
      return false;
    }

    // Seating rules by class and emergency row
    if !ValidateSeatingRules(seatingClass, emergencyRowSeating,
                             adultPassengerCount, childPassengerCount, infantPassengerCount) {
      return false;
    }

    return true;
  }

  // ---------------------------------------------------------------------------
  // The object

  /** The nine held fields as the getters report them; `None` is Java's `null`. */
  datatype Held = Held(
    departureDate: Option<string>,
    departureAirportCode: Option<string>,
    emergencyRowSeating: bool,
    returnDate: Option<string>,
    destinationAirportCode: Option<string>,
    seatingClass: Option<string>,
    adultPassengerCount: Int32,
    childPassengerCount: Int32,
    infantPassengerCount: Int32)

  /** Java's default field values, before any request has been accepted. */
  const Unset := Held(None, None, false, None, None, None, 0, 0, 0)

  /** The held state once `r` has been committed. */
  function Committed(r: Request): Held {
    Held(Some(r.departureDate), Some(r.departureAirportCode), r.emergencyRowSeating,
         Some(r.returnDate), Some(r.destinationAirportCode), Some(r.seatingClass),
         r.adultPassengerCount, r.childPassengerCount, r.infantPassengerCount)
  }

  /** A request that was accepted, and the day on which it was. */
  datatype Acceptance = Acceptance(request: Request, today: Date)

  /**
   * The held state is never partial: either nothing was ever accepted and it
   * is `Unset`, or it is one whole request that satisfied every rule on the
   * day it was committed.
   */
  ghost predicate HeldByAcceptance(h: Held, accepted: Option<Acceptance>) {
    match accepted
    case None => h == Unset
    case Some(a) => h == Committed(a.request) && Accepts(a.request, a.today)
  }

  class FlightSearch {
    var departureDate: Option<string>
    var departureAirportCode: Option<string>
    var emergencyRowSeating: bool
    var returnDate: Option<string>
    var destinationAirportCode: Option<string>
    var seatingClass: Option<string>
    var adultPassengerCount: Int32
    var childPassengerCount: Int32
    var infantPassengerCount: Int32

    /** The last acceptance, if any; it exists only to state the object invariant. */
    ghost var accepted: Option<Acceptance>

    function State(): Held
      reads this
    {
      Held(departureDate, departureAirportCode, emergencyRowSeating,
           returnDate, destinationAirportCode, seatingClass,
           adultPassengerCount, childPassengerCount, infantPassengerCount)
    }

    /**
     * The held state is never partial: either nothing was ever accepted, or it
     * is one whole request that satisfied every rule when it was committed.
     */
    ghost predicate Valid()
      reads this
    {
      HeldByAcceptance(State(), accepted)
    }

    constructor ()
      ensures Valid() && State() == Unset
    {
      departureDate, departureAirportCode, emergencyRowSeating := None, None, false;
      returnDate, destinationAirportCode, seatingClass := None, None, None;
      adultPassengerCount, childPassengerCount, infantPassengerCount := 0, 0, 0;
      accepted := None;
    }

    /**
     * Validates the request; on success all nine fields are replaced by the
     * arguments, on failure none of them changes. `today` is the caller's
     * current date.
     */
    method RunFlightSearch(departureDate: string,
                           departureAirportCode: string,
                           emergencyRowSeating: bool,
                           returnDate: string,
                           destinationAirportCode: string,
                           seatingClass: string,
                           adultPassengerCount: Int32,
                           childPassengerCount: Int32,
                           infantPassengerCount: Int32,
                           today: Date) returns (ok: bool)
      requires Valid() && ValidDate(today)
      modifies this
      ensures Valid()
      ensures ok == Accepts(Request(departureDate, departureAirportCode, emergencyRowSeating,
                                    returnDate, destinationAirportCode, seatingClass,
                                    adultPassengerCount, childPassengerCount, infantPassengerCount), today)
      ensures State() == if ok then Committed(Request(departureDate, departureAirportCode, emergencyRowSeating,
                                                      returnDate, destinationAirportCode, seatingClass,
                                                      adultPassengerCount, childPassengerCount, infantPassengerCount))
                         else old(State())
    {
      ghost var request := Request(departureDate, departureAirportCode, emergencyRowSeating,
                                   returnDate, destinationAirportCode, seatingClass,
                                   adultPassengerCount, childPassengerCount, infantPassengerCount);
      ok := Validate(departureDate, departureAirportCode, emergencyRowSeating,
                     returnDate, destinationAirportCode, seatingClass,
                     adultPassengerCount, childPassengerCount, infantPassengerCount, today);
      if !ok {
        return;
      }

      this.departureDate := Some(departureDate);
      this.departureAirportCode := Some(departureAirportCode);
      this.emergencyRowSeating := emergencyRowSeating;
      this.returnDate := Some(returnDate);
      this.destinationAirportCode := Some(destinationAirportCode);
      this.seatingClass := Some(seatingClass);
      this.adultPassengerCount := adultPassengerCount;
      this.childPassengerCount := childPassengerCount;
      this.infantPassengerCount := infantPassengerCount;
      accepted := Some(Acceptance(request, today));
      assert State() == Committed(request);
    }

    // The getters the tests read the state through.

    function GetDepartureDate(): Option<string> reads this { departureDate }
    function GetDepartureAirportCode(): Option<string> reads this { departureAirportCode }
    function IsEmergencyRowSeating(): bool reads this { emergencyRowSeating }
    function GetReturnDate(): Option<string> reads this { returnDate }
    function GetDestinationAirportCode(): Option<string> reads this { destinationAirportCode }
    function GetSeatingClass(): Option<string> reads this { seatingClass }
    function GetAdultPassengerCount(): Int32 reads this { adultPassengerCount }
    function GetChildPassengerCount(): Int32 reads this { childPassengerCount }
    function GetInfantPassengerCount(): Int32 reads this { infantPassengerCount }
  }
}
