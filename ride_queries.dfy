/** The ride service's read-side queries. Each takes the ride collection as
    the store enumerates it; apart from the sorted ones, the order of a
    result is not promised, so contracts speak of which rides it holds and
    how often. */
module RideQueries {
  import opened Rides
  import opened Text
  import opened Query
  import opened Ordering

  const NEGATIVE_DISTANCE: string := "Distance values cannot be negative"
  const MIN_ABOVE_MAX: string := "Minimum distance cannot be greater than maximum distance"

  /** Keyword search on pickup OR drop, ignoring case. */
  function KeywordCriteria(text: string): Criteria {
    Or(RegexIgnoreCase(PickupLocation, text), RegexIgnoreCase(DropLocation, text))
  }

  /** The ride's pickup or drop location contains text, ignoring case. */
  predicate MentionsPlace(r: Ride, text: string) {
    ContainsIgnoreCase(r.pickupLocation, text) || ContainsIgnoreCase(r.dropLocation, text)
  }

  /** The found rides are exactly those of `rides` that satisfy `keep`,
      each as often as the collection holds it. */
  ghost predicate Selects(found: seq<Ride>, rides: seq<Ride>, keep: iset<Ride>) {
    && (forall x :: multiset(found)[x] == if x in keep then multiset(rides)[x] else 0)
    && (forall x :: x in found <==> x in rides && x in keep)
  }

  /** A find by a criterion that matches exactly the rides of `keep`
      selects `keep`. */
  lemma FindSelectsSet(rides: seq<Ride>, c: Criteria, keep: iset<Ride>)
    requires forall x :: Matches(c, x) <==> x in keep
    ensures Selects(Find(rides, c), rides, keep)
  {
    FindSelects(rides, c);
  }

  function SearchRides(rides: seq<Ride>, text: string): (found: seq<Ride>)
    ensures Selects(found, rides, iset x: Ride | MentionsPlace(x, text))
  {
    KeywordMatches(text);
    FindSelects(rides, KeywordCriteria(text));
    Find(rides, KeywordCriteria(text))
  }

  /** Validation comes first and does not look at the collection. */
  function FilterByDistance(rides: seq<Ride>, min: real, max: real): (r: Result<seq<Ride>>)
    ensures r.Err? <==> min < 0.0 || max < 0.0 || min > max
    ensures r.Err? ==> r.error == Validation(if min < 0.0 || max < 0.0 then NEGATIVE_DISTANCE else MIN_ABOVE_MAX)
    ensures r.Ok? ==> Selects(r.value, rides, iset x: Ride | min <= x.distanceKm <= max)
  {
    if min < 0.0 || max < 0.0 then
      Err(Validation(NEGATIVE_DISTANCE))
    else if min > max then
      Err(Validation(MIN_ABOVE_MAX))
    else
      FindSelects(rides, DistanceBetween(min, max));
      Ok(Find(rides, DistanceBetween(min, max)))
  }

  /** Invalid bounds fail the same way whatever the store holds. */
  lemma DistanceValidationIgnoresStore(a: seq<Ride>, b: seq<Ride>, min: real, max: real)
    requires min < 0.0 || max < 0.0 || min > max
    ensures FilterByDistance(a, min, max) == FilterByDistance(b, min, max)
  {
  }

  /** Both ends inclusive; start after end finds nothing. */
  function FilterByDateRange(rides: seq<Ride>, start: Date, end: Date): (found: seq<Ride>)
    ensures Selects(found, rides, iset x: Ride | start <= x.createdDate <= end)
    ensures start > end ==> found == []
  {
    FindSelectsSet(rides, DateBetween(start, end), iset x: Ride | start <= x.createdDate <= end);
    if start > end then
      FindNothing(rides, DateBetween(start, end));
      Find(rides, DateBetween(start, end))
    else
      Find(rides, DateBetween(start, end))
  }

  /** "asc" in any case sorts ascending; every other value descending. */
  function DirectionOf(order: string): Direction {
    if EqualsIgnoreCase("asc", order) then Asc else Desc
  }

  /** All rides, ordered by fare. */
  function SortByFare(rides: seq<Ride>, order: string): (sorted: seq<Ride>)
    ensures multiset(sorted) == multiset(rides)
    ensures EqualsIgnoreCase("asc", order) ==> forall i, j :: 0 <= i < j < |sorted| ==> sorted[i].fare <= sorted[j].fare
    ensures !EqualsIgnoreCase("asc", order) ==> forall i, j :: 0 <= i < j < |sorted| ==> sorted[i].fare >= sorted[j].fare
  {
    SortBy(rides, Fare, DirectionOf(order))
  }

  function GetRidesByUser(rides: seq<Ride>, userId: string): (found: seq<Ride>)
    ensures Selects(found, rides, iset x: Ride | x.passengerUsername == userId)
  {
    FindSelects(rides, Is(PassengerUsername, userId));
    Find(rides, Is(PassengerUsername, userId))
  }

  function GetRidesByUserAndStatus(rides: seq<Ride>, userId: string, status: string): (found: seq<Ride>)
    ensures Selects(found, rides, iset x: Ride | x.passengerUsername == userId && x.status == status)
  {
    var c := And(Is(PassengerUsername, userId), Is(Status, status));
    assert forall x :: Matches(c, x) <==> Matches(Is(PassengerUsername, userId), x) && Matches(Is(Status, status), x);
    FindSelects(rides, c);
    Find(rides, c)
  }

  /** The driver's rides that are REQUESTED or ACCEPTED. */
  function GetDriverActiveRides(rides: seq<Ride>, driverId: string): (found: seq<Ride>)
    ensures Selects(found, rides, iset x: Ride | x.driverUsername == Some(driverId) && (x.status == REQUESTED || x.status == ACCEPTED))
  {
    var c := And(Is(DriverUsername, driverId), In(Status, [REQUESTED, ACCEPTED]));
    ActiveMatches(driverId);
    FindSelectsSet(rides, c, iset x: Ride | x.driverUsername == Some(driverId) && (x.status == REQUESTED || x.status == ACCEPTED));
    Find(rides, c)
  }

  lemma ActiveMatches(driverId: string)
    ensures forall x :: Matches(And(Is(DriverUsername, driverId), In(Status, [REQUESTED, ACCEPTED])), x) <==>
      x.driverUsername == Some(driverId) && (x.status == REQUESTED || x.status == ACCEPTED)
  {
    forall x ensures Matches(And(Is(DriverUsername, driverId), In(Status, [REQUESTED, ACCEPTED])), x) <==>
      x.driverUsername == Some(driverId) && (x.status == REQUESTED || x.status == ACCEPTED)
    {
      assert x.status in [REQUESTED, ACCEPTED] <==> x.status == REQUESTED || x.status == ACCEPTED;
    }
  }

  /** Over well-formed rides a REQUESTED ride has no driver, so a driver's
      active rides are exactly the driver's ACCEPTED ones. */
  lemma ActiveRidesAreAccepted(rides: seq<Ride>, driverId: string)
    requires forall x :: x in rides ==> WellFormed(x)
    ensures GetDriverActiveRides(rides, driverId) ==
            Find(rides, And(Is(DriverUsername, driverId), Is(Status, ACCEPTED)))
  {
    var c := And(Is(DriverUsername, driverId), In(Status, [REQUESTED, ACCEPTED]));
    var c' := And(Is(DriverUsername, driverId), Is(Status, ACCEPTED));
    SameMatchesSameFind(rides, c, c');
  }

  lemma {:induction false} SameMatchesSameFind(rides: seq<Ride>, c: Criteria, c': Criteria)
    requires forall x :: x in rides ==> Matches(c, x) == Matches(c', x)
    ensures Find(rides, c) == Find(rides, c')
  {
    if rides != [] {
      assert rides[0] in rides;
      SameMatchesSameFind(rides[1..], c, c');
    }
  }

  lemma KeywordMatches(text: string)
    ensures forall x :: Matches(KeywordCriteria(text), x) <==> MentionsPlace(x, text)
  {
    forall x ensures Matches(KeywordCriteria(text), x) <==> MentionsPlace(x, text) {
      assert Matches(RegexIgnoreCase(PickupLocation, text), x) == ContainsIgnoreCase(x.pickupLocation, text);
      assert Matches(RegexIgnoreCase(DropLocation, text), x) == ContainsIgnoreCase(x.dropLocation, text);
    }
  }

  /** Status equality AND keyword match. */
  function FilterByStatusAndKeyword(rides: seq<Ride>, status: string, search: string): (found: seq<Ride>)
    ensures Selects(found, rides, iset x: Ride | x.status == status && MentionsPlace(x, search))
  {
    var c := And(Is(Status, status), KeywordCriteria(search));
    KeywordMatches(search);
    assert forall x :: Matches(c, x) <==> Matches(Is(Status, status), x) && Matches(KeywordCriteria(search), x);
    FindSelects(rides, c);
    Find(rides, c)
  }

  function GetRidesByDate(rides: seq<Ride>, date: Date): (found: seq<Ride>)
    ensures Selects(found, rides, iset x: Ride | x.createdDate == date)
  {
    FindSelects(rides, DateIs(date));
    Find(rides, DateIs(date))
  }

  /** A null or empty parameter counts as absent. */
  predicate Present(s: Option<string>) {
    s.Some? && s.value != ""
  }

  /** The criterion advanced search builds, branch by branch. */
  function AdvancedCriteria(search: Option<string>, status: Option<string>): Criteria {
    var criteria := if Present(search) then KeywordCriteria(search.value) else All;
    if Present(status) then
      if Present(search) then And(Is(Status, status.value), KeywordCriteria(search.value))
      else Is(Status, status.value)
    else criteria
  }

  /** Reference reading of the branch table: each present filter must hold,
      an absent one is ignored. */
  predicate AdvancedMatch(search: Option<string>, status: Option<string>, x: Ride) {
    && (Present(search) ==> MentionsPlace(x, search.value))
    && (Present(status) ==> x.status == status.value)
  }

  lemma AdvancedCriteriaTable(search: Option<string>, status: Option<string>, x: Ride)
    ensures Matches(AdvancedCriteria(search, status), x) <==> AdvancedMatch(search, status, x)
  {
    KeywordMatches(if search.Some? then search.value else "");
  }

  /** The sortable field a sort parameter names, if any. */
  function SortFieldNamed(name: string): Option<SortField> {
    if name == "createdAt" then Some(CreatedAt)
    else if name == "fare" then Some(Fare)
    else if name == "distanceKm" then Some(DistanceKm)
    else None
  }

  /** The order a present sort parameter asks for; a null order is not
      "asc", so it sorts descending. */
  function SortOrderOf(order: Option<string>): Direction {
    if order.Some? then DirectionOf(order.value) else Desc
  }

  /** The result is sorted when the sort parameter is present and names a
      sortable field. */
  function Ordered(rides: seq<Ride>, sortBy: Option<string>, order: Option<string>): seq<Ride> {
    if Present(sortBy) && SortFieldNamed(sortBy.value).Some? then
      SortBy(rides, SortFieldNamed(sortBy.value).value, SortOrderOf(order))
    else rides
  }

  /** Filter, sort, then take the page [page * size, page * size + size). */
  function AdvancedSearch(rides: seq<Ride>, search: Option<string>, status: Option<string>,
                          sortBy: Option<string>, order: Option<string>, page: nat, size: nat): (found: seq<Ride>)
    requires size >= 1
    ensures |found| <= size
    ensures forall x :: x in found ==> x in rides && AdvancedMatch(search, status, x)
    ensures multiset(found) <= multiset(rides)
    ensures Present(sortBy) && SortFieldNamed(sortBy.value).Some? ==>
      Sorted(found, SortFieldNamed(sortBy.value).value, SortOrderOf(order))
    ensures exists ordered: seq<Ride> ::
      && Selects(ordered, rides, iset x: Ride | AdvancedMatch(search, status, x))
      && (Present(sortBy) && SortFieldNamed(sortBy.value).Some? ==>
            Sorted(ordered, SortFieldNamed(sortBy.value).value, SortOrderOf(order)))
      && found == Page(ordered, page, size)
  {
    var ordered := Ordered(Find(rides, AdvancedCriteria(search, status)), sortBy, order);
    OrderedSelects(rides, search, status, sortBy, order);
    WindowSelects(ordered, rides, (iset x: Ride | AdvancedMatch(search, status, x)), page, size);
    if Present(sortBy) && SortFieldNamed(sortBy.value).Some? then
      PageSorted(ordered, page, size, SortFieldNamed(sortBy.value).value, SortOrderOf(order));
      Page(ordered, page, size)
    else
      Page(ordered, page, size)
  }

  /** Filtered and ordered, the rides are exactly the matching ones, sorted
      when a sortable field is named. */
  lemma OrderedSelects(rides: seq<Ride>, search: Option<string>, status: Option<string>,
                       sortBy: Option<string>, order: Option<string>)
    ensures var ordered := Ordered(Find(rides, AdvancedCriteria(search, status)), sortBy, order);
      && Selects(ordered, rides, iset x: Ride | AdvancedMatch(search, status, x))
      && (Present(sortBy) && SortFieldNamed(sortBy.value).Some? ==>
            Sorted(ordered, SortFieldNamed(sortBy.value).value, SortOrderOf(order)))
  {
    var c := AdvancedCriteria(search, status);
    var matching := Find(rides, c);
    var ordered := Ordered(matching, sortBy, order);
    AdvancedCriteriaMatches(search, status);
    FindSelectsSet(rides, c, iset x: Ride | AdvancedMatch(search, status, x));
    SelectsPermuted(matching, ordered, rides, iset x: Ride | AdvancedMatch(search, status, x));
  }

  /** A page of a selection holds only selected rides, none more often than
      stored. */
  lemma WindowSelects(ordered: seq<Ride>, rides: seq<Ride>, keep: iset<Ride>, page: nat, size: nat)
    requires size >= 1 && Selects(ordered, rides, keep)
    ensures forall x :: x in Page(ordered, page, size) ==> x in rides && x in keep
    ensures multiset(Page(ordered, page, size)) <= multiset(rides)
  {
    PageSubMultiset(ordered, page, size);
    assert multiset(ordered) <= multiset(rides) by {
      forall x ensures multiset(ordered)[x] <= multiset(rides)[x] {
      }
    }
    forall x | x in Page(ordered, page, size) ensures x in rides && x in keep {
      assert x in multiset(Page(ordered, page, size));
    }
  }

  lemma AdvancedCriteriaMatches(search: Option<string>, status: Option<string>)
    ensures forall x :: Matches(AdvancedCriteria(search, status), x) <==> AdvancedMatch(search, status, x)
  {
    forall x ensures Matches(AdvancedCriteria(search, status), x) <==> AdvancedMatch(search, status, x) {
      AdvancedCriteriaTable(search, status, x);
    }
  }

  /** A rearrangement of a selection is the same selection. */
  lemma SelectsPermuted(a: seq<Ride>, b: seq<Ride>, rides: seq<Ride>, keep: iset<Ride>)
    requires Selects(a, rides, keep) && multiset(a) == multiset(b)
    ensures Selects(b, rides, keep)
  {
    forall x ensures x in b <==> x in rides && x in keep {
      assert x in b <==> x in multiset(b);
      assert x in a <==> x in multiset(a);
    }
  }
}
