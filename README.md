# Ride-hailing backend: ride lifecycle, queries and analytics

A Dafny model of the core of a ride-hailing backend. Passengers request
rides, drivers accept them, and either party completes them. The backend
also answers read-side queries over the stored rides and computes a few
analytics aggregations.

The model has these parts:

- `rides.dfy` (module `Rides`): the `Ride` record, its three status values,
  the request body and its binding (only pickup, drop, fare and distance
  are client-writable), and the well-formedness invariant.
- `text.dfy` (module `Text`): ASCII case folding and the case-insensitive
  substring test that stands in for the keyword regex.
- `query.dfy` (module `Query`): the document-store criteria the service
  builds, as a datatype, and `Find`, which filters the collection by them.
- `ordering.dfy` (module `Ordering`): sorting by one field in one
  direction (insertion sort, proved sorted and a permutation) and the page
  window.
- `repository.dfy` (module `Repository`): the storage port as a class over
  a `map<string, Ride>` keyed by id, with `save`, `findById`, `findAll` and
  the three derived finders.
- `lifecycle.dfy` (module `Lifecycle`): create, accept and complete as pure
  transitions over the store, their invariants and the monotone status
  order. The `RideService` class performs them against the repository, and
  each method is proved equal to its transition.
- `ride_queries.dfy` (module `RideQueries`): the service's query methods,
  as functions over the collection.
- `analytics.dfy` (module `Analytics`): the aggregation pipelines, as
  recursive folds and group-counts.
- `controller.dfy` (module `Controller`): the driver-role gate on accept,
  identity passing, and request-parameter defaults.

Queries take the collection as the store enumerates it, as a `seq<Ride>`.
Apart from sorted results, the store promises no order. So contracts say
which rides a result holds and how often (multisets), not where.

## Model

| member | source | states |
|---|---|---|
| Rides.Rank | src/main/java/org/example/uberbackend/model/Ride.java:43-45 | statuses are ordered REQUESTED < ACCEPTED < COMPLETED: rank 0 exactly for REQUESTED, 2 exactly for COMPLETED |
| Rides.BindIgnoresReadOnlyFields | src/main/java/org/example/uberbackend/model/Ride.java:18-53 | a request body's id, passenger, driver, status and timestamps are read-only: bodies agreeing on pickup, drop, fare and distance bind to the same draft |
| Text.ContainsIffOccurs | src/main/java/org/example/uberbackend/service/RideService.java:74-75 | the case-insensitive keyword test succeeds exactly when the pattern occurs, ignoring case, at some offset of the field |
| Text.EmptyPatternMatchesAll | src/main/java/org/example/uberbackend/service/RideService.java:74-75 | an empty keyword matches every location |
| Text.PatternCaseIrrelevant | src/main/java/org/example/uberbackend/service/RideService.java:74-75 | the "i" option: keywords differing only in letter case match the same locations |
| Text.AscIgnoringCase | src/main/java/org/example/uberbackend/service/RideService.java:105 | in this ASCII model, "asc".equalsIgnoreCase(order) holds exactly for the eight ASCII case spellings of asc |
| Query.Find | src/main/java/org/example/uberbackend/service/RideService.java:77-78 | a find returns no more rides than the collection holds |
| Query.FindSelects | src/main/java/org/example/uberbackend/service/RideService.java:77-78 | a find keeps each matching ride as often as the collection holds it and nothing else |
| Query.FindAppend | src/main/java/org/example/uberbackend/service/RideService.java:77-78 | finding over two parts of the collection is the concatenation of the two finds |
| Query.FindThenFind | src/main/java/org/example/uberbackend/service/RideService.java:121-122 | chaining a second criterion with and is the same as refining the first result by it |
| Query.FindOrderIndependent | src/main/java/org/example/uberbackend/service/RideService.java:77-78 | the multiset of found rides does not depend on the order the collection is enumerated in |
| Query.FindNothing | src/main/java/org/example/uberbackend/service/RideService.java:97-100 | a find is empty exactly when no ride of the collection matches |
| Ordering.SortBy | src/main/java/org/example/uberbackend/service/RideService.java:108 | Sort.by(direction, field) yields a permutation of its input ordered by the field in that direction |
| Ordering.Page | src/main/java/org/example/uberbackend/service/RideService.java:185-186 | PageRequest.of(page, size) keeps the slice [page*size, page*size+size) cut at the end, at most size rides |
| Ordering.PageHolds | src/main/java/org/example/uberbackend/service/RideService.java:185-186 | every element of the sorted result lies on page i/size at position i%size |
| Ordering.PageSorted | src/main/java/org/example/uberbackend/service/RideService.java:182-186 | a page of a sorted result is sorted |
| Ordering.PageSubMultiset | src/main/java/org/example/uberbackend/service/RideService.java:185-186 | a page holds nothing the filtered result does not |
| Ordering.FirstPageFirst | src/main/java/org/example/uberbackend/service/RideService.java:182-186 | the first page of a sorted result comes first: every ride left off it may follow every ride on it |
| Repository.RideRepository.constructor | src/main/java/org/example/uberbackend/repository/RideRepository.java:7 | an empty store keyed by id |
| Repository.RideRepository.Save | src/main/java/org/example/uberbackend/repository/RideRepository.java:7 | save stores the ride under its id, replacing only that entry, and keeps every ride under its own id |
| Repository.RideRepository.FindById | src/main/java/org/example/uberbackend/repository/RideRepository.java:7 | findById finds a ride exactly when one is stored under the id, and it carries that id |
| Repository.RideRepository.FindWhere | src/main/java/org/example/uberbackend/repository/RideRepository.java:8-10 | a derived query lists every stored ride that matches, each exactly once, and nothing else |
| Repository.RideRepository.FindAll | src/main/java/org/example/uberbackend/repository/RideRepository.java:7 | findAll lists every stored ride exactly once |
| Repository.RideRepository.FindByPassengerUsername | src/main/java/org/example/uberbackend/repository/RideRepository.java:8 | exactly the stored rides whose passenger is the username, each once |
| Repository.RideRepository.FindByDriverUsername | src/main/java/org/example/uberbackend/repository/RideRepository.java:9 | exactly the stored rides whose driver is the username, each once |
| Repository.RideRepository.FindByStatus | src/main/java/org/example/uberbackend/repository/RideRepository.java:10 | exactly the stored rides with the status, each once |
| Repository.ListedAreStored | src/main/java/org/example/uberbackend/repository/RideRepository.java:8-10 | in a store keyed by id a listing holds a ride exactly when it is stored and matches |
| Lifecycle.Accept | src/main/java/org/example/uberbackend/service/RideService.java:36-47 | accept succeeds iff the ride exists and is REQUESTED; NotFound iff it is missing, else InvalidState; a failure saves nothing; success records the driver and ACCEPTED and changes no other field and no other ride |
| Lifecycle.Complete | src/main/java/org/example/uberbackend/service/RideService.java:49-64 | complete succeeds iff the ride exists, is ACCEPTED and the caller is its driver or passenger; the checks come in that order (NotFound, InvalidState, Forbidden); a failure saves nothing; success changes only the status, to COMPLETED |
| Lifecycle.CreateRequested | src/main/java/org/example/uberbackend/service/RideService.java:27-33 | a created ride is REQUESTED with the caller as passenger, no driver, the draft's fields as given and the supplied clock values; a fresh id adds exactly one ride |
| Lifecycle.AcceptKeepsInvariant | src/main/java/org/example/uberbackend/service/RideService.java:36-47 | accept keeps every ride keyed by id with a known status and a driver exactly when past REQUESTED |
| Lifecycle.CompleteKeepsInvariant | src/main/java/org/example/uberbackend/service/RideService.java:49-64 | complete keeps the same store invariant |
| Lifecycle.CompletedIsFinal | src/main/java/org/example/uberbackend/service/RideService.java:40-54 | every accept (status check at line 40) and every complete (status check at line 53) of a COMPLETED ride fails with InvalidState and saves nothing |
| Lifecycle.AcceptedOnce | src/main/java/org/example/uberbackend/service/RideService.java:40-46 | after one accept succeeds, a second fails with InvalidState and the first driver stays |
| Lifecycle.StepAdvances | src/main/java/org/example/uberbackend/service/RideService.java:27-64 | each operation keeps the invariant and moves a ride's status at most one step forward, changing no other field |
| Lifecycle.AdvancesTransitive | src/main/java/org/example/uberbackend/service/RideService.java:27-64 | advancing composes over consecutive states |
| Lifecycle.RunAdvances | src/main/java/org/example/uberbackend/service/RideService.java:27-64 | over any run of operations status only moves REQUESTED to ACCEPTED to COMPLETED, a driver once set never changes and no ride disappears |
| Lifecycle.RideService.CreateRide | src/main/java/org/example/uberbackend/service/RideService.java:27-33 | createRide sets passenger, REQUESTED and the clock values on the draft and saves it, as Create specifies |
| Lifecycle.RideService.AcceptRide | src/main/java/org/example/uberbackend/service/RideService.java:36-47 | acceptRide reads, checks, updates and saves the ride exactly as Accept specifies |
| Lifecycle.RideService.CompleteRide | src/main/java/org/example/uberbackend/service/RideService.java:49-64 | completeRide reads, checks, updates and saves the ride exactly as Complete specifies |
| Lifecycle.RideService.GetAllRides | src/main/java/org/example/uberbackend/service/RideService.java:66-68 | getAllRides lists every stored ride exactly once |
| RideQueries.SearchRides | src/main/java/org/example/uberbackend/service/RideService.java:72-79 | exactly the rides whose pickup or drop contains the text ignoring case, with their multiplicity |
| RideQueries.FilterByDistance | src/main/java/org/example/uberbackend/service/RideService.java:82-94 | fails iff a bound is negative or min > max, with the negative-values message first; otherwise exactly the rides with min <= distanceKm <= max |
| RideQueries.DistanceValidationIgnoresStore | src/main/java/org/example/uberbackend/service/RideService.java:83-89 | invalid bounds fail the same way whatever the store holds |
| RideQueries.FilterByDateRange | src/main/java/org/example/uberbackend/service/RideService.java:97-101 | exactly the rides created from start to end inclusive; nothing when start is after end |
| RideQueries.SortByFare | src/main/java/org/example/uberbackend/service/RideService.java:104-110 | a permutation of all rides, fares non-decreasing when order equals asc ignoring case and non-increasing otherwise |
| RideQueries.GetRidesByUser | src/main/java/org/example/uberbackend/service/RideService.java:113-117 | exactly the rides of the passenger |
| RideQueries.GetRidesByUserAndStatus | src/main/java/org/example/uberbackend/service/RideService.java:120-125 | exactly the passenger's rides with the status |
| RideQueries.GetDriverActiveRides | src/main/java/org/example/uberbackend/service/RideService.java:128-133 | exactly the driver's rides that are REQUESTED or ACCEPTED |
| RideQueries.ActiveRidesAreAccepted | src/main/java/org/example/uberbackend/service/RideService.java:128-133 | over well-formed rides the driver's active rides are exactly the driver's ACCEPTED rides |
| RideQueries.KeywordMatches | src/main/java/org/example/uberbackend/service/RideService.java:138-141 | the pickup-or-drop regex criterion matches exactly the rides mentioning the keyword in either location |
| RideQueries.FilterByStatusAndKeyword | src/main/java/org/example/uberbackend/service/RideService.java:136-146 | exactly the rides with the status whose pickup or drop contains the keyword |
| RideQueries.GetRidesByDate | src/main/java/org/example/uberbackend/service/RideService.java:192-196 | exactly the rides created on the date |
| RideQueries.AdvancedCriteriaTable | src/main/java/org/example/uberbackend/service/RideService.java:152-174 | the advancedSearch branches: a null or empty filter is ignored, a present keyword or status must hold, both give their AND, neither matches all |
| RideQueries.AdvancedSearch | src/main/java/org/example/uberbackend/service/RideService.java:149-189 | the result is the window [page*size, page*size+size) of an arrangement of exactly the rides satisfying the present filters (each as often as stored), sorted by the named field when sortBy is present; so at most size rides |
| Analytics.GetTotalEarnings | src/main/java/org/example/uberbackend/service/AnalyticsService.java:19-35 | the fare sum over the driver's COMPLETED rides, and 0.0 when the driver has none |
| Analytics.SumFareAppend | src/main/java/org/example/uberbackend/service/AnalyticsService.java:25-26 | the fare sum is additive over parts of the collection |
| Analytics.SumFareOrderIndependent | src/main/java/org/example/uberbackend/service/AnalyticsService.java:25-26 | the fare sum does not depend on the order of the rides |
| Analytics.TotalEarningsOrderIndependent | src/main/java/org/example/uberbackend/service/AnalyticsService.java:19-35 | earnings do not depend on the order of the collection |
| Analytics.TotalEarningsAppend | src/main/java/org/example/uberbackend/service/AnalyticsService.java:19-35 | earnings over two parts of the collection add up |
| Analytics.CompletingAddsFare | src/main/java/org/example/uberbackend/service/AnalyticsService.java:19-35 | completing one of the driver's ACCEPTED rides raises the driver's earnings by exactly its fare |
| Analytics.CountWhereIsFindSize | src/main/java/org/example/uberbackend/service/AnalyticsService.java:64-66 | the conditional count adds one per ride matching the condition: the size of the find |
| Analytics.GetDriverSummary | src/main/java/org/example/uberbackend/service/AnalyticsService.java:57-77 | empty iff the driver has no ride; else totalRides counts the driver's rides, completedRides those COMPLETED (so no more than totalRides), totalFare sums their fares, avgDistance times totalRides is their distance sum |
| Analytics.SummaryFareIsEarningsWhenAllCompleted | src/main/java/org/example/uberbackend/service/AnalyticsService.java:57-77 | when all the driver's rides are COMPLETED the summary's fare total equals the earnings and every ride counts as completed |
| Analytics.GetUserSpending | src/main/java/org/example/uberbackend/service/AnalyticsService.java:80-97 | empty iff the passenger has no COMPLETED ride; else the count and fare sum of exactly those rides |
| Analytics.GroupCountsCoverAll | src/main/java/org/example/uberbackend/service/AnalyticsService.java:39-40 | with distinct keys covering every ride, the group counts sum to the number of rides |
| Analytics.DatesDescending | src/main/java/org/example/uberbackend/service/AnalyticsService.java:47 | the distinct creation dates, each once, strictly descending |
| Analytics.GetRidesPerDay | src/main/java/org/example/uberbackend/service/AnalyticsService.java:38-54 | one entry per distinct createdDate, dates strictly descending, each with the positive number of rides created that day, every ride's date listed |
| Analytics.RidesPerDayTotal | src/main/java/org/example/uberbackend/service/AnalyticsService.java:38-54 | the per-day counts sum to the number of rides |
| Analytics.DistinctKeys | src/main/java/org/example/uberbackend/service/AnalyticsService.java:101-102 | group by: the distinct keys of the rides, each once |
| Analytics.GetStatusSummary | src/main/java/org/example/uberbackend/service/AnalyticsService.java:100-114 | one entry per distinct status, no status twice, each with its positive count, every ride's status listed |
| Analytics.StatusSummaryTotal | src/main/java/org/example/uberbackend/service/AnalyticsService.java:100-114 | the status counts sum to the number of rides |
| Analytics.StatusSummaryAtMostThree | src/main/java/org/example/uberbackend/service/AnalyticsService.java:100-114 | over well-formed rides there are at most three status groups |
| Controller.HasAuthority | src/main/java/org/example/uberbackend/controller/RideController.java:47-48 | anyMatch over the authorities holds exactly when the role is among them |
| Controller.GatedAccept | src/main/java/org/example/uberbackend/controller/RideController.java:47-54 | a caller without ROLE_DRIVER gets Forbidden and the store is unchanged; a driver's accept is the service's accept with the caller's username |
| Controller.GatedAcceptChangesOnlyForDrivers | src/main/java/org/example/uberbackend/controller/RideController.java:47-54 | the accept endpoint changes the store only for a ROLE_DRIVER caller, on a REQUESTED ride that then has the caller as driver |
| Controller.UsersCannotAccept | src/main/java/org/example/uberbackend/controller/RideController.java:47-52 | a caller with only ROLE_USER is always refused |
| Controller.RideController.CreateRide | src/main/java/org/example/uberbackend/controller/RideController.java:31-36 | the passenger is the authenticated username whatever the body says, and only the body's writable fields are used |
| Controller.RideController.AcceptRide | src/main/java/org/example/uberbackend/controller/RideController.java:43-55 | the role check runs before the service, as GatedAccept specifies |
| Controller.RideController.CompleteRide | src/main/java/org/example/uberbackend/controller/RideController.java:62-67 | the authenticated username is the identity checked for ownership |
| Controller.SortByFareEndpoint | src/main/java/org/example/uberbackend/controller/RideController.java:125-128 | without an order parameter fares come in non-decreasing order; always a permutation of all rides |
| Controller.AdvancedSearchEndpoint | src/main/java/org/example/uberbackend/controller/RideController.java:187-195 | the window at the defaulted page (0) and size (10) of the matching rides, sorted by createdAt (the default sort) in the defaulted order (asc) when no sort is given |
| Controller.AdvancedSearchDefaults | src/main/java/org/example/uberbackend/controller/RideController.java:188-193 | with no parameters the result is min(10, n) rides sorted oldest first, and no ride left off it was created before one on it: the ten oldest |
| Controller.Param | src/main/java/org/example/uberbackend/controller/RideController.java:190-191 | a string parameter with defaultValue (also the order default at line 126): absent or empty reads as the default, otherwise the value given; used by SortByFareEndpoint and AdvancedSearchEndpoint |
| Controller.IntParam | src/main/java/org/example/uberbackend/controller/RideController.java:192-193 | an int parameter with defaultValue: absent reads as the default; used by AdvancedSearchEndpoint |

## Left out

- HTTP and framework glue is not modelled: request mapping, API
  documentation annotations and exception-to-status translation. The
  analytics endpoints only delegate, so they are not modelled either.
- Authentication and token issuance are foreign calls. Only the role
  strings `ROLE_USER` and `ROLE_DRIVER` are used, by the accept gate.
- The health endpoint only performs database I/O and reads the clock.
- Concurrency is not modelled. The transactional annotation on accept and
  the race between concurrent accepts are outside the model, and every
  operation is one sequential step on the store.
- Keyword search is modelled as an ASCII case-insensitive literal substring
  test. Regex metacharacters and Unicode case folding are not modelled.
- Text.AscIgnoringCase: `equalsIgnoreCase` is ASCII-only here. Java also
  folds some non-ASCII letters (U+017F upper-cases to `S`), so an order
  such as `aſc` sorts ascending in the source but descending in the model.
- `Double` fares and distances are modelled as `real`, so there is no
  rounding and no NaN.
- The clock (`LocalDate.now()`, `LocalDateTime.now()`) and the id the store
  generates are parameters of `CreateRide`. Dates are day numbers and
  timestamps are integers.
- Lifecycle.RideService.CreateRide: a fresh id is assumed only where a
  lemma needs it (`FreshCreates`, `CreateRequested`), because the store's
  id generator is not modelled.
- RideQueries.AdvancedSearch: sorting is modelled only for `createdAt`,
  `fare` and `distanceKm`. Any other field name gives an unsorted result.
  The order of rides with equal keys, and of unsorted finds, is not
  promised.
- RideQueries.AdvancedSearch: page and size come in as `page: nat` and
  `size >= 1`, preconditions in place of the exception `PageRequest.of`
  raises.
- Null inputs and the null-pointer exceptions they raise are not modelled.
- Service failures are a `Result` whose error names its kind (NotFound,
  InvalidState, Forbidden, Validation) and carries the source's message.
  The source throws a plain runtime exception with that message instead.
- Analytics results are datatypes (`Group`, `DriverSummary`,
  `UserSpending`) with the fields the pipelines project. A result that is
  an empty document in the source is `None` here.
- Analytics.GetDriverSummary: the average distance is stated only as
  `avgDistance * totalRides == distance sum`, an exact real quotient.
- Analytics.GetStatusSummary: the aggregation promises no group order, and
  the model lists groups in order of last appearance (a status seen again
  later in the collection keeps its later place).
