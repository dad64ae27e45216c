/** The ride lifecycle: create, accept and complete, as transitions of the
    ride store, and the service class that performs them against the
    repository. */
module Lifecycle {
  import opened Rides
  import opened Query
  import opened Repository

  const RIDE_NOT_FOUND: string := "Ride not found"
  const MUST_BE_REQUESTED: string := "Ride must be in REQUESTED status"
  const MUST_BE_ACCEPTED: string := "Ride must be ACCEPTED to complete"
  const NOT_A_PARTY: string := "Only the assigned driver or passenger can complete this ride"

  /** What an operation returns, and what the store holds after it. */
  datatype Outcome = Outcome(result: Result<Ride>, rides: map<string, Ride>)

  /** The invariant the lifecycle keeps: every ride under its own id, and
      every ride well formed. */
  predicate StoreInvariant(rides: map<string, Ride>) {
    KeyedById(rides) && forall k :: k in rides ==> WellFormed(rides[k])
  }

  /** A caller is a party to a ride if it is the assigned driver or the
      passenger. */
  predicate IsParty(ride: Ride, username: string) {
    ride.driverUsername == Some(username) || ride.passengerUsername == username
  }

  /** The ride a passenger's draft becomes: the caller as passenger, status
      REQUESTED, no driver, the clock's date and time. */
  function NewRide(id: string, passenger: string, draft: RideDraft, today: Date, now: Timestamp): Ride {
    Ride(id, passenger, None, draft.pickupLocation, draft.dropLocation, draft.fare, draft.distanceKm,
         REQUESTED, today, now)
  }

  function Create(rides: map<string, Ride>, id: string, passenger: string, draft: RideDraft,
                  today: Date, now: Timestamp): Outcome
  {
    var ride := NewRide(id, passenger, draft, today, now);
    Outcome(Ok(ride), rides[id := ride])
  }

  /** A driver accepts a ride. */
  function Accept(rides: map<string, Ride>, id: string, driver: string): (o: Outcome)
    ensures o.result.Ok? <==> id in rides && rides[id].status == REQUESTED
    ensures o.result.Err? ==> o.rides == rides
    ensures o.result.Err? ==> (o.result.error.NotFound? <==> id !in rides)
    ensures o.result.Err? && id in rides ==> o.result.error == InvalidState(MUST_BE_REQUESTED)
    ensures o.result.Ok? ==>
      && o.result.value.status == ACCEPTED
      && o.result.value.driverUsername == Some(driver)
      && o.result.value.(driverUsername := rides[id].driverUsername, status := rides[id].status) == rides[id]
      && o.rides.Keys == rides.Keys
      && o.rides[id] == o.result.value
      && (forall k :: k in rides && k != id ==> o.rides[k] == rides[k])
  {
    if id !in rides then
      Outcome(Err(NotFound(RIDE_NOT_FOUND)), rides)
    else if rides[id].status != REQUESTED then
      Outcome(Err(InvalidState(MUST_BE_REQUESTED)), rides)
    else
      var accepted := rides[id].(driverUsername := Some(driver), status := ACCEPTED);
      Outcome(Ok(accepted), rides[id := accepted])
  }

  /** The driver or the passenger completes a ride. Existence is checked
      first, then the status, then the caller. */
  function Complete(rides: map<string, Ride>, id: string, caller: string): (o: Outcome)
    ensures o.result.Ok? <==> id in rides && rides[id].status == ACCEPTED && IsParty(rides[id], caller)
    ensures o.result.Err? ==> o.rides == rides
    ensures o.result.Err? ==> (o.result.error.NotFound? <==> id !in rides)
    ensures o.result.Err? ==> (o.result.error.InvalidState? <==> id in rides && rides[id].status != ACCEPTED)
    ensures o.result.Err? ==> (o.result.error.Forbidden? <==>
      id in rides && rides[id].status == ACCEPTED && !IsParty(rides[id], caller))
    ensures o.result.Ok? ==>
      && o.result.value == rides[id].(status := COMPLETED)
      && o.rides.Keys == rides.Keys
      && o.rides[id] == o.result.value
      && (forall k :: k in rides && k != id ==> o.rides[k] == rides[k])
  {
    if id !in rides then
      Outcome(Err(NotFound(RIDE_NOT_FOUND)), rides)
    else if rides[id].status != ACCEPTED then
      Outcome(Err(InvalidState(MUST_BE_ACCEPTED)), rides)
    else if !IsParty(rides[id], caller) then
      Outcome(Err(Forbidden(NOT_A_PARTY)), rides)
    else
      var completed := rides[id].(status := COMPLETED);
      Outcome(Ok(completed), rides[id := completed])
  }

  /** A created ride is REQUESTED, has the caller as passenger and no driver,
      keeps the draft's fields as given, carries the supplied clock values,
      and keeps the store invariant; a fresh id adds one ride and touches no
      other. */
  lemma CreateRequested(rides: map<string, Ride>, id: string, passenger: string, draft: RideDraft,
                        today: Date, now: Timestamp)
    requires StoreInvariant(rides)
    ensures var o := Create(rides, id, passenger, draft, today, now);
      && o.result.Ok?
      && o.result.value.status == REQUESTED
      && o.result.value.passengerUsername == passenger
      && o.result.value.driverUsername.None?
      && o.result.value.pickupLocation == draft.pickupLocation
      && o.result.value.dropLocation == draft.dropLocation
      && o.result.value.fare == draft.fare
      && o.result.value.distanceKm == draft.distanceKm
      && o.result.value.createdDate == today
      && o.result.value.createdAt == now
      && o.rides[id] == o.result.value
      && StoreInvariant(o.rides)
      && (id !in rides ==> |o.rides| == |rides| + 1 && forall k :: k in rides ==> o.rides[k] == rides[k])
  {
  }

  lemma AcceptKeepsInvariant(rides: map<string, Ride>, id: string, driver: string)
    requires StoreInvariant(rides)
    ensures StoreInvariant(Accept(rides, id, driver).rides)
  {
  }

  lemma CompleteKeepsInvariant(rides: map<string, Ride>, id: string, caller: string)
    requires StoreInvariant(rides)
    ensures StoreInvariant(Complete(rides, id, caller).rides)
  {
  }

  /** A COMPLETED ride is final: every accept and every complete on it fails
      with InvalidState, whoever calls. */
  lemma CompletedIsFinal(rides: map<string, Ride>, id: string, driver: string, caller: string)
    requires id in rides && rides[id].status == COMPLETED
    ensures Accept(rides, id, driver) == Outcome(Err(InvalidState(MUST_BE_REQUESTED)), rides)
    ensures Complete(rides, id, caller) == Outcome(Err(InvalidState(MUST_BE_ACCEPTED)), rides)
  {
  }

  /** A ride is accepted at most once: after one driver's accept succeeds,
      any other accept fails with InvalidState and the first driver stays. */
  lemma AcceptedOnce(rides: map<string, Ride>, id: string, first: string, second: string)
    requires Accept(rides, id, first).result.Ok?
    ensures var after := Accept(rides, id, first).rides;
      && Accept(after, id, second) == Outcome(Err(InvalidState(MUST_BE_REQUESTED)), after)
      && after[id].driverUsername == Some(first)
  {
  }

  /** One operation on the store, as a client issues it. */
  datatype Command =
    | CreateCmd(id: string, passenger: string, draft: RideDraft, today: Date, now: Timestamp)
    | AcceptCmd(id: string, driver: string)
    | CompleteCmd(id: string, caller: string)

  function Step(rides: map<string, Ride>, cmd: Command): map<string, Ride> {
    match cmd
    case CreateCmd(id, p, draft, today, now) => Create(rides, id, p, draft, today, now).rides
    case AcceptCmd(id, d) => Accept(rides, id, d).rides
    case CompleteCmd(id, u) => Complete(rides, id, u).rides
  }

  function Run(rides: map<string, Ride>, cmds: seq<Command>): map<string, Ride>
    decreases |cmds|
  {
    if cmds == [] then rides else Run(Step(rides, cmds[0]), cmds[1..])
  }

  /** Every create in the run uses an id the store does not hold yet, as the
      store's id generator guarantees. */
  predicate FreshCreates(rides: map<string, Ride>, cmds: seq<Command>)
    decreases |cmds|
  {
    cmds == [] ||
    ((cmds[0].CreateCmd? ==> cmds[0].id !in rides) && FreshCreates(Step(rides, cmds[0]), cmds[1..]))
  }

  /** b is a later state of ride a: its status has not moved back, a driver
      once assigned stays, and no other field has changed. */
  predicate RideAdvances(a: Ride, b: Ride)
    requires WellFormed(a) && WellFormed(b)
  {
    && Rank(a.status) <= Rank(b.status)
    && (a.driverUsername.Some? ==> b.driverUsername == a.driverUsername)
    && b.(driverUsername := a.driverUsername, status := a.status) == a
  }

  /** Every ride of `before` is still stored in `after`, and has advanced. */
  ghost predicate Advances(before: map<string, Ride>, after: map<string, Ride>)
    requires StoreInvariant(before) && StoreInvariant(after)
  {
    forall k :: k in before ==> k in after && RideAdvances(before[k], after[k])
  }

  /** One step keeps the invariant, moves every ride at most one status
      forward, and changes nothing else. */
  lemma StepAdvances(rides: map<string, Ride>, cmd: Command)
    requires StoreInvariant(rides)
    requires cmd.CreateCmd? ==> cmd.id !in rides
    ensures StoreInvariant(Step(rides, cmd))
    ensures Advances(rides, Step(rides, cmd))
    ensures forall k :: k in rides ==> Rank(Step(rides, cmd)[k].status) <= Rank(rides[k].status) + 1
  {
    match cmd
    case CreateCmd(id, p, draft, today, now) =>
      CreateRequested(rides, id, p, draft, today, now);
    case AcceptCmd(id, d) =>
      AcceptAdvances(rides, id, d);
    case CompleteCmd(id, u) =>
      CompleteAdvances(rides, id, u);
  }

  lemma AcceptAdvances(rides: map<string, Ride>, id: string, driver: string)
    requires StoreInvariant(rides)
    ensures StoreInvariant(Accept(rides, id, driver).rides)
    ensures Advances(rides, Accept(rides, id, driver).rides)
    ensures forall k :: k in rides ==> Rank(Accept(rides, id, driver).rides[k].status) <= Rank(rides[k].status) + 1
  {
    AcceptKeepsInvariant(rides, id, driver);
  }

  lemma CompleteAdvances(rides: map<string, Ride>, id: string, caller: string)
    requires StoreInvariant(rides)
    ensures StoreInvariant(Complete(rides, id, caller).rides)
    ensures Advances(rides, Complete(rides, id, caller).rides)
    ensures forall k :: k in rides ==> Rank(Complete(rides, id, caller).rides[k].status) <= Rank(rides[k].status) + 1
  {
    CompleteKeepsInvariant(rides, id, caller);
  }

  lemma AdvancesTransitive(a: map<string, Ride>, b: map<string, Ride>, c: map<string, Ride>)
    requires StoreInvariant(a) && StoreInvariant(b) && StoreInvariant(c)
    requires Advances(a, b) && Advances(b, c)
    ensures Advances(a, c)
  {
  }

  /** Over any run of operations, status only moves along
      REQUESTED -> ACCEPTED -> COMPLETED, a driver once assigned never
      changes, no ride disappears and no other field of a ride changes. */
  lemma {:induction false} RunAdvances(rides: map<string, Ride>, cmds: seq<Command>)
    requires StoreInvariant(rides) && FreshCreates(rides, cmds)
    ensures StoreInvariant(Run(rides, cmds))
    ensures Advances(rides, Run(rides, cmds))
    decreases |cmds|
  {
    if cmds != [] {
      var next := Step(rides, cmds[0]);
      StepAdvances(rides, cmds[0]);
      RunAdvances(next, cmds[1..]);
      AdvancesTransitive(rides, next, Run(next, cmds[1..]));
    }
  }

  /** The service: each operation reads the ride, checks it, updates it and
      saves it back, as the transitions above specify. */
  class RideService {
    const repo: RideRepository

    constructor (repo: RideRepository)
      ensures this.repo == repo
    {
      this.repo := repo;
    }

    /** The clock values and the id the store generates are parameters. */
    method CreateRide(passengerUsername: string, ride: RideDraft, newId: string, today: Date, now: Timestamp)
      returns (saved: Ride)
      requires repo.Valid()
      modifies repo
      ensures repo.Valid()
      ensures Outcome(Ok(saved), repo.rides) == Create(old(repo.rides), newId, passengerUsername, ride, today, now)
    {
      var r := Ride(newId, "", None, ride.pickupLocation, ride.dropLocation, ride.fare, ride.distanceKm, "", 0, 0);
      r := r.(passengerUsername := passengerUsername);
      r := r.(status := REQUESTED);
      r := r.(createdDate := today);
      r := r.(createdAt := now);
      saved := repo.Save(r);
    }

    method AcceptRide(rideId: string, driverUsername: string) returns (result: Result<Ride>)
      requires repo.Valid()
      modifies repo
      ensures repo.Valid()
      ensures Outcome(result, repo.rides) == Accept(old(repo.rides), rideId, driverUsername)
    {
      var found := repo.FindById(rideId);
      if found.None? {
        return Err(NotFound(RIDE_NOT_FOUND));
      }
      var ride := found.value;
      if ride.status != REQUESTED {
        return Err(InvalidState(MUST_BE_REQUESTED));
      }
      ride := ride.(driverUsername := Some(driverUsername));
      ride := ride.(status := ACCEPTED);
      var saved := repo.Save(ride);
      return Ok(saved);
    }

    method CompleteRide(rideId: string, username: string) returns (result: Result<Ride>)
      requires repo.Valid()
      modifies repo
      ensures repo.Valid()
      ensures Outcome(result, repo.rides) == Complete(old(repo.rides), rideId, username)
    {
      var found := repo.FindById(rideId);
      if found.None? {
        return Err(NotFound(RIDE_NOT_FOUND));
      }
      var ride := found.value;
      if ride.status != ACCEPTED {
        return Err(InvalidState(MUST_BE_ACCEPTED));
      }
      if Some(username) != ride.driverUsername && username != ride.passengerUsername {
        return Err(Forbidden(NOT_A_PARTY));
      }
      ride := ride.(status := COMPLETED);
      var saved := repo.Save(ride);
      return Ok(saved);
    }

    method GetAllRides() returns (all: seq<Ride>)
      requires repo.Valid()
      ensures ListsExactly(all, repo.rides, All)
      ensures Ids(all) == repo.rides.Keys && |all| == |repo.rides|
    {
      all := repo.FindAll();
    }
  }
}
