/** The storage port for rides: a collection keyed by ride id. */
module Repository {
  import opened Rides
  import opened Query

  /** Every ride is stored under its own id. */
  predicate KeyedById(rides: map<string, Ride>) {
    forall k :: k in rides ==> rides[k].id == k
  }

  function Ids(s: seq<Ride>): set<string> {
    set r | r in s :: r.id
  }

  /** `found` lists every stored ride that matches c exactly once: each
      element is the ride stored under its id and matches, no id repeats,
      and every matching id is listed. */
  ghost predicate ListsExactly(found: seq<Ride>, rides: map<string, Ride>, c: Criteria) {
    && (forall i :: 0 <= i < |found| ==> found[i].id in rides && rides[found[i].id] == found[i] && Matches(c, found[i]))
    && (forall i, j :: 0 <= i < j < |found| ==> found[i].id != found[j].id)
    && Ids(found) == (set k | k in rides && Matches(c, rides[k]))
  }

  class RideRepository {
    var rides: map<string, Ride>

    ghost predicate Valid()
      reads this
    {
      KeyedById(rides)
    }

    constructor ()
      ensures Valid() && rides == map[]
    {
      rides := map[];
    }

    /** Stores the ride under its id, replacing any ride stored there. */
    method Save(ride: Ride) returns (saved: Ride)
      requires Valid()
      modifies this
      ensures Valid()
      ensures rides == old(rides)[ride.id := ride]
      ensures saved == ride
    {
      rides := rides[ride.id := ride];
      saved := ride;
    }

    /** The ride stored under id, if any; it carries that id. */
    function FindById(id: string): (found: Option<Ride>)
      reads this
      requires Valid()
      ensures found.Some? <==> id in rides
      ensures found.Some? ==> found.value.id == id && rides[id] == found.value
    {
      if id in rides then Some(rides[id]) else None
    }

    /** Every stored ride that matches c, each exactly once, in no promised
        order. */
    method FindWhere(c: Criteria) returns (found: seq<Ride>)
      requires Valid()
      ensures ListsExactly(found, rides, c)
      ensures |found| == |Ids(found)|
    {
      found := [];
      var remaining := rides.Keys;
      while remaining != {}
        invariant Scanned(found, rides, c, remaining)
        decreases remaining
      {
        var k :| k in remaining;
        ScanStep(found, rides, c, remaining, k);
        if Matches(c, rides[k]) {
          found := found + [rides[k]];
        }
        remaining := remaining - {k};
      }
      ScannedAll(found, rides, c);
    }

    /** Every stored ride exactly once. */
    method FindAll() returns (all: seq<Ride>)
      requires Valid()
      ensures ListsExactly(all, rides, All)
      ensures Ids(all) == rides.Keys && |all| == |rides|
    {
      all := FindWhere(All);
      assert Ids(all) == rides.Keys;
    }

    method FindByPassengerUsername(username: string) returns (found: seq<Ride>)
      requires Valid()
      ensures ListsExactly(found, rides, Is(PassengerUsername, username))
      ensures forall x :: x in found <==> x in rides.Values && x.passengerUsername == username
    {
      found := FindWhere(Is(PassengerUsername, username));
      ListedAreStored(found, rides, Is(PassengerUsername, username));
    }

    method FindByDriverUsername(username: string) returns (found: seq<Ride>)
      requires Valid()
      ensures ListsExactly(found, rides, Is(DriverUsername, username))
      ensures forall x :: x in found <==> x in rides.Values && x.driverUsername == Some(username)
    {
      found := FindWhere(Is(DriverUsername, username));
      ListedAreStored(found, rides, Is(DriverUsername, username));
    }

    method FindByStatus(status: string) returns (found: seq<Ride>)
      requires Valid()
      ensures ListsExactly(found, rides, Is(Status, status))
      ensures forall x :: x in found <==> x in rides.Values && x.status == status
    {
      found := FindWhere(Is(Status, status));
      ListedAreStored(found, rides, Is(Status, status));
    }
  }

  /** In a store keyed by id, a listing holds exactly the stored rides that
      match. */
  lemma ListedAreStored(found: seq<Ride>, rides: map<string, Ride>, c: Criteria)
    requires KeyedById(rides) && ListsExactly(found, rides, c)
    ensures forall x :: x in found <==> x in rides.Values && Matches(c, x)
  {
    forall x | x in rides.Values && Matches(c, x)
      ensures x in found
    {
      var k :| k in rides && rides[k] == x;
      assert k in Ids(found);
      var y :| y in found && y.id == k;
      var i :| 0 <= i < |found| && found[i] == y;
      assert rides[found[i].id] == found[i];
    }
    forall x | x in found
      ensures x in rides.Values
    {
      var i :| 0 <= i < |found| && found[i] == x;
      assert rides[x.id] == x;
    }
  }

  /** Loop invariant of FindWhere: the keys outside `remaining` have been
      examined, and `found` lists each matching one of them once. */
  ghost predicate Scanned(found: seq<Ride>, rides: map<string, Ride>, c: Criteria, remaining: set<string>) {
    && remaining <= rides.Keys
    && StoredMatches(found, rides, c, remaining)
    && DistinctIds(found)
    && Covers(found, rides, c, remaining)
    && |found| == |Ids(found)|
  }

  ghost predicate StoredMatches(found: seq<Ride>, rides: map<string, Ride>, c: Criteria, remaining: set<string>) {
    forall i :: 0 <= i < |found| ==>
      found[i].id in rides && rides[found[i].id] == found[i] && Matches(c, found[i]) && found[i].id !in remaining
  }

  ghost predicate DistinctIds(found: seq<Ride>) {
    forall i, j :: 0 <= i < j < |found| ==> found[i].id != found[j].id
  }

  ghost predicate Covers(found: seq<Ride>, rides: map<string, Ride>, c: Criteria, remaining: set<string>) {
    forall k :: k in rides && k !in remaining && Matches(c, rides[k]) ==> k in Ids(found)
  }

  lemma ScanStep(found: seq<Ride>, rides: map<string, Ride>, c: Criteria, remaining: set<string>, k: string)
    requires KeyedById(rides) && Scanned(found, rides, c, remaining) && k in remaining
    ensures Scanned(if Matches(c, rides[k]) then found + [rides[k]] else found, rides, c, remaining - {k})
  {
    var ride := rides[k];
    assert ride.id == k;
    if Matches(c, ride) {
      NotYetListed(found, rides, c, remaining, k);
      IdsAppend(found, ride);
      StoredStep(found, rides, c, remaining, k);
      DistinctStep(found, rides, c, remaining, k);
      CoversStep(found, rides, c, remaining, k);
    } else {
      CoversSkip(found, rides, c, remaining, k);
    }
  }

  lemma NotYetListed(found: seq<Ride>, rides: map<string, Ride>, c: Criteria, remaining: set<string>, k: string)
    requires StoredMatches(found, rides, c, remaining) && k in remaining
    ensures k !in Ids(found)
  {
  }

  lemma StoredStep(found: seq<Ride>, rides: map<string, Ride>, c: Criteria, remaining: set<string>, k: string)
    requires KeyedById(rides) && StoredMatches(found, rides, c, remaining) && k in rides && Matches(c, rides[k])
    ensures StoredMatches(found + [rides[k]], rides, c, remaining - {k})
  {
    var next := found + [rides[k]];
    forall i | 0 <= i < |next|
      ensures next[i].id in rides && rides[next[i].id] == next[i] && Matches(c, next[i]) && next[i].id !in remaining - {k}
    {
      if i < |found| {
        assert next[i] == found[i];
      }
    }
  }

  lemma DistinctStep(found: seq<Ride>, rides: map<string, Ride>, c: Criteria, remaining: set<string>, k: string)
    requires KeyedById(rides) && DistinctIds(found) && StoredMatches(found, rides, c, remaining) && k in remaining && k in rides
    ensures DistinctIds(found + [rides[k]])
  {
    var next := found + [rides[k]];
    forall i, j | 0 <= i < j < |next|
      ensures next[i].id != next[j].id
    {
      assert next[i] == found[i];
      if j < |found| {
        assert next[j] == found[j];
      }
    }
  }

  lemma CoversStep(found: seq<Ride>, rides: map<string, Ride>, c: Criteria, remaining: set<string>, k: string)
    requires KeyedById(rides) && Covers(found, rides, c, remaining) && k in rides
    requires Ids(found + [rides[k]]) == Ids(found) + {k}
    ensures Covers(found + [rides[k]], rides, c, remaining - {k})
  {
  }

  lemma CoversSkip(found: seq<Ride>, rides: map<string, Ride>, c: Criteria, remaining: set<string>, k: string)
    requires Covers(found, rides, c, remaining) && k in rides && !Matches(c, rides[k])
    ensures Covers(found, rides, c, remaining - {k})
  {
  }

  lemma IdsAppend(s: seq<Ride>, r: Ride)
    ensures Ids(s + [r]) == Ids(s) + {r.id}
    ensures r.id !in Ids(s) ==> |Ids(s + [r])| == |Ids(s)| + 1
  {
    assert forall x :: x in s + [r] <==> x in s || x == r;
  }

  /** A scan with nothing remaining lists exactly the matching rides. */
  lemma ScannedAll(found: seq<Ride>, rides: map<string, Ride>, c: Criteria)
    requires Scanned(found, rides, c, {})
    ensures ListsExactly(found, rides, c) && |found| == |Ids(found)|
  {
    ListingIds(found, rides, c);
  }

  /** The ids listed are exactly the matching keys. */
  lemma ListingIds(found: seq<Ride>, rides: map<string, Ride>, c: Criteria)
    requires forall i :: 0 <= i < |found| ==> found[i].id in rides && rides[found[i].id] == found[i] && Matches(c, found[i])
    requires forall k :: k in rides && Matches(c, rides[k]) ==> k in Ids(found)
    ensures Ids(found) == (set k | k in rides && Matches(c, rides[k]))
  {
    forall k | k in Ids(found)
      ensures k in rides && Matches(c, rides[k])
    {
      var x :| x in found && x.id == k;
      var i :| 0 <= i < |found| && found[i] == x;
    }
  }
}
