/** The HTTP layer's part in the ride model: who the caller is, the driver
    role gate on accepting, and the defaults of the request parameters. */
module Controller {
  import opened Rides
  import opened Query
  import opened Ordering
  import opened Repository
  import opened Lifecycle
  import opened RideQueries

  const ROLE_DRIVER: string := "ROLE_DRIVER"
  const ROLE_USER: string := "ROLE_USER"
  const ONLY_DRIVERS: string := "Only drivers can accept rides"

  /** The authenticated caller: a username and the authorities granted. */
  datatype Principal = Principal(username: string, authorities: seq<string>)

  /** Whether some granted authority equals role exactly. */
  function HasAuthority(authorities: seq<string>, role: string): (b: bool)
    ensures b <==> role in authorities
  {
    if authorities == [] then false
    else
      assert authorities == [authorities[0]] + authorities[1..];
      authorities[0] == role || HasAuthority(authorities[1..], role)
  }

  /** Accepting through the endpoint: a caller without the driver authority
      is refused before the service is reached; otherwise the caller's
      username is the driver. */
  function GatedAccept(rides: map<string, Ride>, caller: Principal, id: string): (o: Outcome)
    ensures ROLE_DRIVER !in caller.authorities ==> o == Outcome(Err(Forbidden(ONLY_DRIVERS)), rides)
    ensures ROLE_DRIVER in caller.authorities ==> o == Accept(rides, id, caller.username)
  {
    if !HasAuthority(caller.authorities, ROLE_DRIVER) then
      Outcome(Err(Forbidden(ONLY_DRIVERS)), rides)
    else
      Accept(rides, id, caller.username)
  }

  /** Only a caller holding the driver authority can change the store
      through the accept endpoint, and then only the ride named, which
      becomes ACCEPTED with the caller as its driver. */
  lemma GatedAcceptChangesOnlyForDrivers(rides: map<string, Ride>, caller: Principal, id: string)
    ensures GatedAccept(rides, caller, id).rides != rides ==>
      && ROLE_DRIVER in caller.authorities
      && id in rides && rides[id].status == REQUESTED
      && GatedAccept(rides, caller, id).rides[id].driverUsername == Some(caller.username)
  {
  }

  /** A passenger holding only the user authority can never accept. */
  lemma UsersCannotAccept(rides: map<string, Ride>, username: string, id: string)
    ensures GatedAccept(rides, Principal(username, [ROLE_USER]), id).result == Err(Forbidden(ONLY_DRIVERS))
  {
    assert ROLE_DRIVER != ROLE_USER by {
      assert ROLE_DRIVER[5] != ROLE_USER[5];
    }
    assert ROLE_DRIVER !in [ROLE_USER];
  }

  class RideController {
    const service: RideService

    constructor (service: RideService)
      ensures this.service == service
    {
      this.service := service;
    }

    /** The passenger is the authenticated caller, whatever the body says;
        only the writable fields of the body are used. */
    method CreateRide(user: Principal, body: RideJson, newId: string, today: Date, now: Timestamp)
      returns (saved: Ride)
      requires service.repo.Valid()
      modifies service.repo
      ensures service.repo.Valid()
      ensures Outcome(Ok(saved), service.repo.rides) == Create(old(service.repo.rides), newId, user.username, Bind(body), today, now)
      ensures saved.passengerUsername == user.username && saved.status == REQUESTED && saved.driverUsername == None
    {
      saved := service.CreateRide(user.username, Bind(body), newId, today, now);
    }

    method AcceptRide(driver: Principal, id: string) returns (result: Result<Ride>)
      requires service.repo.Valid()
      modifies service.repo
      ensures service.repo.Valid()
      ensures Outcome(result, service.repo.rides) == GatedAccept(old(service.repo.rides), driver, id)
    {
      var isDriver := HasAuthority(driver.authorities, ROLE_DRIVER);
      if !isDriver {
        return Err(Forbidden(ONLY_DRIVERS));
      }
      result := service.AcceptRide(id, driver.username);
    }

    /** The identity checked for ownership is the authenticated caller's. */
    method CompleteRide(user: Principal, id: string) returns (result: Result<Ride>)
      requires service.repo.Valid()
      modifies service.repo
      ensures service.repo.Valid()
      ensures Outcome(result, service.repo.rides) == Complete(old(service.repo.rides), id, user.username)
    {
      result := service.CompleteRide(id, user.username);
    }
  }

  /** A string request parameter with a default: absent or empty reads as
      the default. */
  function Param(value: Option<string>, default: string): (s: string)
    ensures value.Some? && value.value != "" ==> s == value.value
    ensures value.None? || value.value == "" ==> s == default
  {
    if value.Some? && value.value != "" then value.value else default
  }

  /** An integer request parameter with a default. */
  function IntParam(value: Option<int>, default: int): (n: int)
    ensures value.Some? ==> n == value.value
    ensures value.None? ==> n == default
  {
    if value.Some? then value.value else default
  }

  /** Sort by fare; without an order the fares come cheapest first. */
  function SortByFareEndpoint(rides: seq<Ride>, order: Option<string>): (sorted: seq<Ride>)
    ensures multiset(sorted) == multiset(rides)
    ensures order.None? ==> forall i, j :: 0 <= i < j < |sorted| ==> sorted[i].fare <= sorted[j].fare
  {
    SortByFare(rides, Param(order, "asc"))
  }

  /** Advanced search with sort "createdAt", order "asc", page 0 and size
      10 unless the request says otherwise; search and status stay
      optional. */
  function AdvancedSearchEndpoint(rides: seq<Ride>, search: Option<string>, status: Option<string>,
                                  sort: Option<string>, order: Option<string>,
                                  page: Option<int>, size: Option<int>): (found: seq<Ride>)
    requires IntParam(page, 0) >= 0 && IntParam(size, 10) >= 1
    ensures |found| <= IntParam(size, 10)
    ensures forall x :: x in found ==> x in rides && AdvancedMatch(search, status, x)
    ensures multiset(found) <= multiset(rides)
    ensures sort.None? && order.None? ==> Sorted(found, CreatedAt, Asc)
    ensures exists ordered: seq<Ride> ::
      && Selects(ordered, rides, iset x: Ride | AdvancedMatch(search, status, x))
      && (sort.None? ==> Sorted(ordered, CreatedAt, DirectionOf(Param(order, "asc"))))
      && found == Page(ordered, IntParam(page, 0), IntParam(size, 10))
  {
    assert DirectionOf("asc") == Asc;
    AdvancedSearch(rides, search, status, Some(Param(sort, "createdAt")), Some(Param(order, "asc")),
                   IntParam(page, 0), IntParam(size, 10))
  }

  /** With no filter, the selection is a rearrangement of all the rides. */
  lemma SelectsEverything(ordered: seq<Ride>, rides: seq<Ride>)
    requires Selects(ordered, rides, iset x: Ride | AdvancedMatch(None, None, x))
    ensures multiset(ordered) == multiset(rides) && |ordered| == |rides|
  {
    assert multiset(ordered) == multiset(rides) by {
      forall x ensures multiset(ordered)[x] == multiset(rides)[x] {
        assert AdvancedMatch(None, None, x);
      }
    }
    assert |multiset(ordered)| == |multiset(rides)|;
  }

  /** With no parameters at all the endpoint returns the first ten rides by
      creation time, oldest first: as many as there are, up to ten, and no
      ride left off the page was created before one on it. */
  lemma AdvancedSearchDefaults(rides: seq<Ride>)
    ensures var found := AdvancedSearchEndpoint(rides, None, None, None, None, None, None);
      && Sorted(found, CreatedAt, Asc)
      && |found| == Min(10, |rides|)
      && multiset(found) <= multiset(rides)
      && forall x, y :: x in found && y in multiset(rides) - multiset(found) ==> x.createdAt <= y.createdAt
  {
    var found := AdvancedSearchEndpoint(rides, None, None, None, None, None, None);
    assert DirectionOf("asc") == Asc;
    var ordered :| && Selects(ordered, rides, iset x: Ride | AdvancedMatch(None, None, x))
                   && Sorted(ordered, CreatedAt, Asc)
                   && found == Page(ordered, 0, 10);
    SelectsEverything(ordered, rides);
    FirstPageFirst(ordered, 10, CreatedAt, Asc);
  }
}
