# WorldWanderer flight search, modelled in Dafny

The flight search is a validation gate. `FlightSearch.runFlightSearch` takes the nine
parameters of a proposed trip: departure and return dates as `dd/MM/uuuu` text, departure
and destination airport codes, seating class, emergency-row flag, and adult, child and
infant counts. It runs five checks in a fixed order and refuses at the first one that fails:

1. passenger counts and ratios;
2. seating class;
3. airports;
4. strict date parsing and date order;
5. seating rules by class and emergency row.

If every check passes, it writes all nine fields of the object and returns `true`. Otherwise
it returns `false` and writes nothing.

The project has four modules:

- `Wrappers`: the `Option` type.
- `Dates`: the parts of `java.time` the search relies on.
  - The proleptic Gregorian calendar (ISO 8601:2004, section 3.2.1): leap years, month
    lengths, valid dates.
  - `LocalDate.isBefore` as the lexicographic comparison `IsBefore`.
  - A day index (days since 1 January of year 0) that shows the comparison is the
    chronological order.
  - The strict `dd/MM/uuuu` parser `ParseStrict` and its inverse `Format`.
- `Flight`: the core.
  - The two allowed-value sets.
  - The five helpers, shaped like the Java ones. Java's 32-bit `int` is made explicit
    (`Int32`, `Wrap32`).
  - `PassengerRule`, `SeatingRule` and `Accepts`: the same rules stated on mathematical
    integers, with no order between the checks.
  - `Validate`: the early-return check chain.
  - The `FlightSearch` class: the nine fields, the nine getters (plain field reads), and
    `RunFlightSearch`, which commits all nine fields only when `Validate` accepts.
  - The class invariant `Valid()`: the held state is either the initial one, or one whole
    request that satisfied every rule on the day it was committed.
- `FlightScenarios`: the JUnit suite's scenarios replayed against the class contract on a
  fixed day. As in the suite's set-up, each scenario starts from a primed object. It checks
  the verdict, and that the state is committed on success and unchanged on failure.

The source validates without writing and then commits everything in one step. The model
keeps that split: `Validate` holds the checks and changes nothing, and `RunFlightSearch`
calls it and does the commit. Together they are `runFlightSearch`.

`runFlightSearch` reads the current date from the system clock. `RunFlightSearch` takes it as
the parameter `today` instead.

The field comments (FlightSearch.java:35 and :38) describe the dates as `dd/MM/yyyy`. The
formatter is built from `dd/MM/uuuu` (the proleptic year) with the strict resolver
(FlightSearch.java:51-53). The model follows the formatter.

## Model

| member | source | states |
|---|---|---|
| `Dates.DaysInMonth` | src/main/java/flight/FlightSearch.java:51-53 | every month has 28 to 31 days; a month has 29 days exactly when it is February of a leap year, and 28 exactly when it is February of a common year |
| `Dates.MonthStep` | src/main/java/flight/FlightSearch.java:51-53 | the month lengths the strict resolver checks days against agree with the cumulative day-of-year table: each month starts where the one before it ends |
| `Dates.MonthsFillYear` | src/main/java/flight/FlightSearch.java:51-53 | the twelve month lengths add up to the length of the year, 366 in a leap year and 365 otherwise |
| `Dates.ParseStrict` | src/main/java/flight/FlightSearch.java:85-91 | a date the strict parser accepts is a real calendar date (valid month, and a day that month has in that year) with a four-digit year |
| `Dates.Format` | src/test/java/flight/FlightSearchTest.java:19-21 | the suite's `dd/MM/uuuu` formatter writes ten characters: two day digits, `/`, two month digits, `/`, four year digits |
| `Dates.ParseFormat` | src/main/java/flight/FlightSearch.java:51-53 | the canonical `dd/MM/uuuu` text of any date with a four-digit year parses exactly when the date is real, and then gives back that date; an impossible day is refused, never rolled over |
| `Dates.FormatParse` | src/main/java/flight/FlightSearch.java:51-53 | any text the parser accepts is exactly the canonical text of the date it returns: no padding, sign or other spelling is accepted |
| `Dates.ParseStrictByCharacter` | src/main/java/flight/FlightSearch.java:85-91 | a ten-character text parses when its positions hold two digits, `/`, two digits, `/` and four digits and the date they spell is real, and is refused otherwise |
| `Dates.LeapDay` | src/main/java/flight/FlightSearch.java:51-53 | 29 February of a four-digit year parses exactly when the year is a Gregorian leap year |
| `Dates.LeapDayOf2100` | src/test/java/flight/FlightSearchTest.java:184-192 | `29/02/2100` is refused by the parser (2100 is not a leap year) |
| `Dates.LeapDayOf2104` | src/main/java/flight/FlightSearch.java:86-88 | `29/02/2104` parses to 29 February 2104 (2104 is a leap year) |
| `Dates.IsBefore` | src/main/java/flight/FlightSearch.java:145-146 | `LocalDate.isBefore` compares year, then month, then day; on real dates it holds exactly when the first date lies fewer days from the calendar's origin than the second |
| `Dates.ChronologicalOrder` | src/main/java/flight/FlightSearch.java:145-146 | for valid dates, `isBefore` holds exactly when the first date has the smaller day index; two dates are equal exactly when their day indexes are; of two dates, one is before the other or they are equal |
| `Dates.YearsAreOrdered` | src/main/java/flight/FlightSearch.java:145-146 | every day of a year lies before every day of any later year |
| `Dates.MonthsAreOrdered` | src/main/java/flight/FlightSearch.java:145-146 | within a year, every day of a month lies before every day of any later month |
| `Flight.Wrap32` | src/main/java/flight/FlightSearch.java:121-124 | Java's 32-bit `int` result of an exact value: unchanged in range, reduced by 2^32 just above it |
| `Flight.ValidatePassengerCounts` | src/main/java/flight/FlightSearch.java:118-127 | the passenger check, with Java's wrapping sum and doubling, accepts exactly when all counts are non-negative, the total is between 1 and 9, children are at most twice the adults and infants at most the adults |
| `Flight.PartyHasAnAdult` | src/main/java/flight/FlightSearch.java:118-127 | a party that passes the passenger rule has between 1 and 9 adults, so with no adult no child or infant is ever accepted |
| `Flight.IsValidClass` | src/main/java/flight/FlightSearch.java:130-132 | the class check accepts exactly `economy`, `premium economy`, `business` and `first`, matched case-sensitively |
| `Flight.AreValidAirports` | src/main/java/flight/FlightSearch.java:135-140 | the airport check accepts exactly two airports of {syd, mel, lax, cdg, del, pvg, doh} that differ from each other |
| `Flight.AreValidDates` | src/main/java/flight/FlightSearch.java:143-148 | the date check accepts exactly when today ≤ departure ≤ return on the time line; a same-day return is allowed |
| `Flight.ValidateSeatingRules` | src/main/java/flight/FlightSearch.java:153-177 | the seating check accepts exactly when: an emergency row goes with `economy` and no children or infants; `first` has no children; `business` has no infants |
| `Flight.HelpersDecideAccepts` | src/main/java/flight/FlightSearch.java:69-99 | the five helpers and both strict parses, taken together in the source's order, accept exactly the requests that satisfy every rule: the verdict does not depend on the order of the checks |
| `Flight.AcceptedRequest` | src/main/java/flight/FlightSearch.java:69-99 | an accepted request has 1 to 9 passengers, children ≤ 2·adults, infants ≤ adults, an allowed class, two different allowed airports, two strictly parsed dates with today ≤ departure ≤ return, and obeys the emergency-row, first-class and business rules |
| `Flight.Validate` | src/main/java/flight/FlightSearch.java:69-99 | the early-return chain of checks returns true exactly when the request satisfies every rule on the given day |
| `Flight.FlightSearch.RunFlightSearch` | src/main/java/flight/FlightSearch.java:59-113 | returns true exactly when every rule holds; on true the nine fields equal the nine arguments; on false all nine fields equal their values before the call; the object invariant is kept |
| `Flight.FlightSearch.constructor` | src/main/java/flight/FlightSearch.java:34-43 | a new object holds Java's default field values (no strings, no emergency row, zero counts) and satisfies the invariant |
| `FlightScenarios.Primed` | src/test/java/flight/FlightSearchTest.java:25-34 | the suite's priming request syd→mel, economy, 2 adults and 2 children is accepted and committed in full |

## Left out

- The system clock (`LocalDate.now(ZoneId.systemDefault())`) and the time zone. `today` is a
  parameter, which must be a valid date.
- Years that do not have exactly four digits. The `uuuu` field also accepts longer years,
  and signed years under its sign style. The parser here accepts four-digit years only.
- Null arguments. Dafny strings are never null. The source's null guards on the class and
  airports, and the exception `LocalDate.parse` throws on a null date, are not modelled.
  The null values of the fields before the first success are modelled, as `None`.
- `DateTimeParseException`. A failed parse is `None`, and the check it belongs to refuses.
- Thread safety and the atomicity of the commit against concurrent readers. The source is
  single-threaded.
- The getters carry no contracts: each one returns its field. `State()` gathers all nine.
- The suite computes its dates as `LocalDate.now()` plus or minus some days.
  `FlightScenarios` replaces them with fixed texts on a fixed day (1 March 2030). Its
  scenario methods have no contracts; they verify the expected verdict and held state
  through assertions.
