/**
 * The scenarios of the JUnit suite, replayed against the contract of
 * `FlightSearch.RunFlightSearch` on a fixed day. Each starts from an object
 * primed with a known good request, as the suite's set-up does, and checks
 * the verdict and the held state afterwards: committed on success, exactly
 * as before on failure.
 */
module FlightScenarios {
  import opened Wrappers
  import opened Dates
  import opened Flight

  /** The day the scenarios run on, and the dates three and four weeks later. */
  const Today := Date(2030, 3, 1)
  const DepValid := "22/03/2030"
  const RetValid := "29/03/2030"

  lemma TripDates()
    ensures ParseStrict(DepValid) == Some(Date(2030, 3, 22))
    ensures ParseStrict(RetValid) == Some(Date(2030, 3, 29))
  {
    ParseStrictByCharacter(DepValid);
    ParseStrictByCharacter(RetValid);
  }

  const Priming := Request(DepValid, "syd", false, RetValid, "mel", "economy", 2, 2, 0)

  /** A fresh object holding the set-up's request. */
  method Primed() returns (fs: FlightSearch)
    ensures fresh(fs) && fs.Valid() && fs.State() == Committed(Priming)
  {
    TripDates();
    fs := new FlightSearch();
    var ok := fs.RunFlightSearch(DepValid, "syd", false, RetValid, "mel", "economy", 2, 2, 0, Today);
    assert ok;
  }

  /** The request `r` is accepted and becomes the held state. */
  method ExpectCommitted(r: Request)
    requires Accepts(r, Today)
  {
    var fs := Primed();
    var ok := fs.RunFlightSearch(r.departureDate, r.departureAirportCode, r.emergencyRowSeating,
                                 r.returnDate, r.destinationAirportCode, r.seatingClass,
                                 r.adultPassengerCount, r.childPassengerCount, r.infantPassengerCount, Today);
    assert ok;
    assert fs.State() == Committed(r);
  }

  /** The request `r` is refused and the set-up's state survives it. */
  method ExpectUnchanged(r: Request)
    requires !Accepts(r, Today)
  {
    var fs := Primed();
    var before := fs.State();
    var ok := fs.RunFlightSearch(r.departureDate, r.departureAirportCode, r.emergencyRowSeating,
                                 r.returnDate, r.destinationAirportCode, r.seatingClass,
                                 r.adultPassengerCount, r.childPassengerCount, r.infantPassengerCount, Today);
    assert !ok;
    assert fs.State() == before == Committed(Priming);
  }

  // All-valid scenarios

  method EconomyAdultsOnlyCanUseExitRow() {
    TripDates();
    ExpectCommitted(Request(DepValid, "mel", true, RetValid, "pvg", "economy", 3, 0, 0));
  }

  method ValidFamilyEconomyNonEmergency() {
    TripDates();
    ExpectCommitted(Request(DepValid, "syd", false, RetValid, "lax", "economy", 2, 4, 0));
  }

  method ValidPremiumEconomySingleAdult() {
    TripDates();
    ExpectCommitted(Request(DepValid, "cdg", false, RetValid, "doh", "premium economy", 1, 0, 0));
  }

  method ValidFirstClassAdultsOnly() {
    TripDates();
    ExpectCommitted(Request(DepValid, "mel", false, RetValid, "cdg", "first", 2, 0, 0));
  }

  // Condition 1: between one and nine passengers

  method InvalidTotalBelowMin() {
    ExpectUnchanged(Request(DepValid, "syd", false, RetValid, "mel", "economy", 0, 0, 0));
  }

  method InvalidTotalAboveMax() {
    ExpectUnchanged(Request(DepValid, "syd", false, RetValid, "mel", "economy", 5, 5, 0));
  }

  // Conditions 2 and 3: no children in the exit row or first class, no infants in the exit row or business

  method InvalidChildInExitRow() {
    TripDates();
    ExpectUnchanged(Request(DepValid, "syd", true, RetValid, "mel", "economy", 2, 1, 0));
  }

  method InvalidChildInFirstClass() {
    TripDates();
    ExpectUnchanged(Request(DepValid, "syd", false, RetValid, "mel", "first", 2, 1, 0));
  }

  method InvalidInfantInExitRow() {
    TripDates();
    ExpectUnchanged(Request(DepValid, "syd", true, RetValid, "mel", "economy", 2, 0, 1));
  }

  method InvalidInfantInBusiness() {
    TripDates();
    ExpectUnchanged(Request(DepValid, "syd", false, RetValid, "mel", "business", 2, 0, 1));
  }

  // Conditions 4 and 5: at most two children and one infant per adult

  method ChildrenMoreThanTwoPerAdultRejected() {
    ExpectUnchanged(Request(DepValid, "syd", false, RetValid, "mel", "economy", 1, 3, 0));
  }

  method MoreThanOneInfantPerAdultRejected() {
    ExpectUnchanged(Request(DepValid, "syd", false, RetValid, "mel", "economy", 1, 0, 2));
  }

  // Conditions 6, 7 and 8: dates

  method InvalidDepartureInPast() {
    ParseStrictByCharacter("28/02/2030");
    ExpectUnchanged(Request("28/02/2030", "syd", false, RetValid, "mel", "economy", 1, 0, 0));
  }

  method InvalidNonexistentDate() {
    LeapDayOf2100();
    ExpectUnchanged(Request("29/02/2100", "syd", false, "05/03/2100", "mel", "economy", 1, 0, 0));
  }

  method InvalidReturnBeforeDeparture() {
    ParseStrictByCharacter("20/01/2100");
    ParseStrictByCharacter("18/01/2100");
    ExpectUnchanged(Request("20/01/2100", "syd", false, "18/01/2100", "mel", "economy", 1, 0, 0));
  }

  // Conditions 9, 10 and 11: class, exit row, airports

  method InvalidUnsupportedClass() {
    assert "luxury" !in ValidClasses;
    ExpectUnchanged(Request(DepValid, "syd", false, RetValid, "mel", "luxury", 1, 0, 0));
  }

  method InvalidExitRowNonEconomy() {
    TripDates();
    ExpectUnchanged(Request(DepValid, "syd", true, RetValid, "mel", "premium economy", 2, 0, 0));
  }

  method InvalidAirportUnsupported() {
    assert "jfk" !in ValidAirports;
    ExpectUnchanged(Request(DepValid, "jfk", false, RetValid, "mel", "economy", 1, 0, 0));
  }

  method InvalidSameAirport() {
    ExpectUnchanged(Request(DepValid, "syd", false, RetValid, "syd", "economy", 1, 0, 0));
  }
}
