/** Ride analytics: fixed aggregations over the ride collection (filtered
    sums, conditional counts and group-by counts). */
module Analytics {
  import opened Rides
  import opened Query

  function SumFare(rides: seq<Ride>): real {
    if rides == [] then 0.0 else rides[0].fare + SumFare(rides[1..])
  }

  function SumDistance(rides: seq<Ride>): real {
    if rides == [] then 0.0 else rides[0].distanceKm + SumDistance(rides[1..])
  }

  lemma {:induction false} SumFareAppend(a: seq<Ride>, b: seq<Ride>)
    ensures SumFare(a + b) == SumFare(a) + SumFare(b)
  {
    if a == [] {
      assert a + b == b;
    } else {
      assert (a + b)[1..] == a[1..] + b;
      SumFareAppend(a[1..], b);
    }
  }

  /** A fare total does not depend on the order the rides are listed in. */
  lemma {:induction false} SumFareOrderIndependent(a: seq<Ride>, b: seq<Ride>)
    requires multiset(a) == multiset(b)
    ensures SumFare(a) == SumFare(b)
    decreases |a|
  {
    if a != [] {
      var x := a[0];
      assert a == [x] + a[1..];
      assert multiset(a) == multiset{x} + multiset(a[1..]);
      assert x in multiset(b);
      var i :| 0 <= i < |b| && b[i] == x;
      var rest := b[..i] + b[i + 1..];
      RemoveAt(b, i);
      assert multiset(a[1..]) == multiset(a) - multiset{x};
      SumFareOrderIndependent(a[1..], rest);
    }
  }

  /** Taking out the ride at index i takes it out of the multiset and its
      fare out of the total. */
  lemma RemoveAt(b: seq<Ride>, i: nat)
    requires i < |b|
    ensures multiset(b[..i] + b[i + 1..]) == multiset(b) - multiset{b[i]}
    ensures SumFare(b) == b[i].fare + SumFare(b[..i] + b[i + 1..])
  {
    var l, x, r := b[..i], b[i], b[i + 1..];
    assert b == l + ([x] + r);
    assert multiset(b) == multiset(l) + (multiset{x} + multiset(r));
    SumFareAppend(l, [x] + r);
    SumFareAppend(l, r);
    assert ([x] + r)[1..] == r;
  }

  /** Rides that earn their driver money: the driver's COMPLETED rides. */
  function EarningsCriteria(driver: string): Criteria {
    And(Is(DriverUsername, driver), Is(Status, COMPLETED))
  }

  /** Sum of fare over the driver's COMPLETED rides; no such ride gives no
      group, which reads as 0.0. */
  function GetTotalEarnings(rides: seq<Ride>, driver: string): (total: real)
    ensures (forall x :: x in rides ==> !(x.driverUsername == Some(driver) && x.status == COMPLETED)) ==> total == 0.0
    ensures total == SumFare(Find(rides, EarningsCriteria(driver)))
  {
    var matched := Find(rides, EarningsCriteria(driver));
    FindNothing(rides, EarningsCriteria(driver));
    if matched == [] then 0.0 else SumFare(matched)
  }

  /** Earnings are the same however the collection is enumerated. */
  lemma TotalEarningsOrderIndependent(a: seq<Ride>, b: seq<Ride>, driver: string)
    requires multiset(a) == multiset(b)
    ensures GetTotalEarnings(a, driver) == GetTotalEarnings(b, driver)
  {
    FindOrderIndependent(a, b, EarningsCriteria(driver));
    SumFareOrderIndependent(Find(a, EarningsCriteria(driver)), Find(b, EarningsCriteria(driver)));
  }

  /** Earnings over two parts of the collection add up. */
  lemma TotalEarningsAppend(a: seq<Ride>, b: seq<Ride>, driver: string)
    ensures GetTotalEarnings(a + b, driver) == GetTotalEarnings(a, driver) + GetTotalEarnings(b, driver)
  {
    FindAppend(a, b, EarningsCriteria(driver));
    SumFareAppend(Find(a, EarningsCriteria(driver)), Find(b, EarningsCriteria(driver)));
  }

  /** Completing one of a driver's ACCEPTED rides adds exactly its fare to the
      driver's earnings. */
  lemma CompletingAddsFare(a: seq<Ride>, b: seq<Ride>, ride: Ride, driver: string)
    requires ride.driverUsername == Some(driver) && ride.status == ACCEPTED
    ensures GetTotalEarnings(a + [ride.(status := COMPLETED)] + b, driver)
         == GetTotalEarnings(a + [ride] + b, driver) + ride.fare
  {
    var done := ride.(status := COMPLETED);
    TotalEarningsAppend(a + [done], b, driver);
    TotalEarningsAppend(a, [done], driver);
    TotalEarningsAppend(a + [ride], b, driver);
    TotalEarningsAppend(a, [ride], driver);
    assert [done][1..] == [] && [ride][1..] == [];
    assert Matches(Is(DriverUsername, driver), done) && Matches(Is(Status, COMPLETED), done);
    assert |ACCEPTED| != |COMPLETED|;
    assert !Matches(Is(Status, COMPLETED), ride);
    assert Find([done], EarningsCriteria(driver)) == [done];
    assert Find([ride], EarningsCriteria(driver)) == [];
  }

  /** How many rides satisfy c: a conditional count adding one per match. */
  function CountWhere(rides: seq<Ride>, c: Criteria): nat {
    if rides == [] then 0 else (if Matches(c, rides[0]) then 1 else 0) + CountWhere(rides[1..], c)
  }

  lemma {:induction false} CountWhereIsFindSize(rides: seq<Ride>, c: Criteria)
    ensures CountWhere(rides, c) == |Find(rides, c)|
  {
    if rides != [] {
      CountWhereIsFindSize(rides[1..], c);
    }
  }

  datatype DriverSummary = DriverSummary(totalRides: nat, completedRides: nat, avgDistance: real, totalFare: real)

  /** Over the driver's rides: how many, how many COMPLETED, the mean
      distance and the fare total; no ride of the driver gives no summary. */
  function GetDriverSummary(rides: seq<Ride>, driver: string): (summary: Option<DriverSummary>)
    ensures summary.None? <==> forall x :: x in rides ==> x.driverUsername != Some(driver)
    ensures summary.Some? ==>
      var mine := Find(rides, Is(DriverUsername, driver));
      && summary.value.totalRides == |mine| > 0
      && summary.value.completedRides == |Find(rides, EarningsCriteria(driver))|
      && summary.value.completedRides <= summary.value.totalRides
      && summary.value.totalFare == SumFare(mine)
      && summary.value.avgDistance * (summary.value.totalRides as real) == SumDistance(mine)
  {
    var mine := Find(rides, Is(DriverUsername, driver));
    FindNothing(rides, Is(DriverUsername, driver));
    if mine == [] then None
    else
      CountWhereIsFindSize(mine, Is(Status, COMPLETED));
      FindThenFind(rides, Is(DriverUsername, driver), Is(Status, COMPLETED));
      MeanTimesCount(SumDistance(mine), |mine|);
      Some(DriverSummary(|mine|, CountWhere(mine, Is(Status, COMPLETED)),
                         SumDistance(mine) / (|mine| as real), SumFare(mine)))
  }

  lemma MeanTimesCount(sum: real, n: nat)
    requires n > 0
    ensures (sum / (n as real)) * (n as real) == sum
  {
  }

  /** The fare total of a summary agrees with the driver's earnings once all
      of the driver's rides are COMPLETED. */
  lemma SummaryFareIsEarningsWhenAllCompleted(rides: seq<Ride>, driver: string)
    requires forall x :: x in rides && x.driverUsername == Some(driver) ==> x.status == COMPLETED
    requires GetDriverSummary(rides, driver).Some?
    ensures GetDriverSummary(rides, driver).value.totalFare == GetTotalEarnings(rides, driver)
    ensures GetDriverSummary(rides, driver).value.completedRides == GetDriverSummary(rides, driver).value.totalRides
  {
    FindThenFind(rides, Is(DriverUsername, driver), Is(Status, COMPLETED));
    FindSelects(rides, Is(DriverUsername, driver));
    AllMatchKeepsAll(Find(rides, Is(DriverUsername, driver)), Is(Status, COMPLETED));
  }

  lemma {:induction false} AllMatchKeepsAll(rides: seq<Ride>, c: Criteria)
    requires forall x :: x in rides ==> Matches(c, x)
    ensures Find(rides, c) == rides
  {
    if rides != [] {
      assert rides[0] in rides;
      assert forall x :: x in rides[1..] ==> x in rides;
      AllMatchKeepsAll(rides[1..], c);
      assert rides == [rides[0]] + rides[1..];
    }
  }

  datatype UserSpending = UserSpending(totalCompletedRides: nat, totalSpent: real)

  function SpendingCriteria(passenger: string): Criteria {
    And(Is(PassengerUsername, passenger), Is(Status, COMPLETED))
  }

  /** Count and fare total of the passenger's COMPLETED rides; none gives no
      result. */
  function GetUserSpending(rides: seq<Ride>, passenger: string): (spending: Option<UserSpending>)
    ensures spending.None? <==> forall x :: x in rides ==> !(x.passengerUsername == passenger && x.status == COMPLETED)
    ensures spending.Some? ==>
      var paid := Find(rides, SpendingCriteria(passenger));
      spending.value.totalCompletedRides == |paid| > 0 && spending.value.totalSpent == SumFare(paid)
  {
    var paid := Find(rides, SpendingCriteria(passenger));
    FindNothing(rides, SpendingCriteria(passenger));
    if paid == [] then None else Some(UserSpending(|paid|, SumFare(paid)))
  }

  // ---- group-by counts ----

  datatype Group<K> = Group(key: K, ridesCount: nat)

  function DateOf(r: Ride): Date { r.createdDate }

  function StatusOf(r: Ride): string { r.status }

  /** How many rides have key k. */
  function Count<K(==)>(rides: seq<Ride>, key: Ride -> K, k: K): nat {
    if rides == [] then 0 else (if key(rides[0]) == k then 1 else 0) + Count(rides[1..], key, k)
  }

  /** One group per listed key, with its count. */
  function Tally<K(==)>(rides: seq<Ride>, key: Ride -> K, ks: seq<K>): seq<Group<K>> {
    if ks == [] then [] else [Group(ks[0], Count(rides, key, ks[0]))] + Tally(rides, key, ks[1..])
  }

  function TotalCount<K>(groups: seq<Group<K>>): nat {
    if groups == [] then 0 else groups[0].ridesCount + TotalCount(groups[1..])
  }

  predicate Distinct<K(==)>(ks: seq<K>) {
    forall i, j :: 0 <= i < j < |ks| ==> ks[i] != ks[j]
  }

  function Occurrences<K(==)>(ks: seq<K>, k: K): nat {
    if ks == [] then 0 else (if ks[0] == k then 1 else 0) + Occurrences(ks[1..], k)
  }

  lemma {:induction false} TallyCons<K>(x: Ride, rest: seq<Ride>, key: Ride -> K, ks: seq<K>)
    ensures TotalCount(Tally([x] + rest, key, ks)) == Occurrences(ks, key(x)) + TotalCount(Tally(rest, key, ks))
  {
    if ks != [] {
      assert ([x] + rest)[1..] == rest;
      TallyCons(x, rest, key, ks[1..]);
    }
  }

  lemma {:induction false} DistinctOccursOnce<K>(ks: seq<K>, k: K)
    requires Distinct(ks) && k in ks
    ensures Occurrences(ks, k) == 1
  {
    if ks[0] == k {
      NotInOccursNever(ks[1..], k);
    } else {
      DistinctOccursOnce(ks[1..], k);
    }
  }

  lemma {:induction false} NotInOccursNever<K>(ks: seq<K>, k: K)
    requires k !in ks
    ensures Occurrences(ks, k) == 0
  {
    if ks != [] {
      NotInOccursNever(ks[1..], k);
    }
  }

  /** When the keys are distinct and cover every ride, the group counts add
      up to the number of rides. */
  lemma {:induction false} GroupCountsCoverAll<K>(rides: seq<Ride>, key: Ride -> K, ks: seq<K>)
    requires Distinct(ks)
    requires forall i :: 0 <= i < |rides| ==> key(rides[i]) in ks
    ensures TotalCount(Tally(rides, key, ks)) == |rides|
  {
    if rides == [] {
      EmptyTally(key, ks);
    } else {
      assert rides == [rides[0]] + rides[1..];
      TallyCons(rides[0], rides[1..], key, ks);
      DistinctOccursOnce(ks, key(rides[0]));
      GroupCountsCoverAll(rides[1..], key, ks);
    }
  }

  lemma {:induction false} EmptyTally<K>(key: Ride -> K, ks: seq<K>)
    ensures TotalCount(Tally([], key, ks)) == 0
  {
    if ks != [] {
      EmptyTally(key, ks[1..]);
    }
  }

  lemma {:induction false} CountPositive<K>(rides: seq<Ride>, key: Ride -> K, i: nat)
    requires i < |rides|
    ensures Count(rides, key, key(rides[i])) > 0
  {
    if i > 0 {
      CountPositive(rides[1..], key, i - 1);
    }
  }

  lemma {:induction false} TallyAt<K>(rides: seq<Ride>, key: Ride -> K, ks: seq<K>, j: nat)
    requires j < |ks|
    ensures |Tally(rides, key, ks)| == |ks|
    ensures Tally(rides, key, ks)[j] == Group(ks[j], Count(rides, key, ks[j]))
  {
    if j > 0 {
      TallyAt(rides, key, ks[1..], j - 1);
    } else {
      TallyLength(rides, key, ks);
    }
  }

  lemma {:induction false} TallyLength<K>(rides: seq<Ride>, key: Ride -> K, ks: seq<K>)
    ensures |Tally(rides, key, ks)| == |ks|
  {
    if ks != [] {
      TallyLength(rides, key, ks[1..]);
    }
  }

  predicate StrictlyDescending(ds: seq<Date>) {
    forall i, j :: 0 <= i < j < |ds| ==> ds[i] > ds[j]
  }

  /** Adds d to a strictly descending list of dates, unless already there. */
  function InsertDescending(d: Date, ds: seq<Date>): (r: seq<Date>)
    requires StrictlyDescending(ds)
    ensures StrictlyDescending(r)
    ensures forall e :: e in r <==> e == d || e in ds
  {
    if ds == [] || d > ds[0] then
      [d] + ds
    else if d == ds[0] then
      ds
    else
      var rest := InsertDescending(d, ds[1..]);
      assert forall j :: 0 <= j < |rest| ==> ds[0] > rest[j] by {
        forall j | 0 <= j < |rest|
          ensures ds[0] > rest[j]
        {
          assert rest[j] in rest;
          if rest[j] != d {
            var k :| 0 <= k < |ds[1..]| && ds[1..][k] == rest[j];
            assert ds[k + 1] == rest[j];
          }
        }
      }
      assert forall e :: e in ds <==> e == ds[0] || e in ds[1..] by {
        assert ds == [ds[0]] + ds[1..];
      }
      [ds[0]] + rest
  }

  /** The distinct creation dates of the rides, latest first. */
  function DatesDescending(rides: seq<Ride>): (ds: seq<Date>)
    ensures StrictlyDescending(ds)
    ensures forall i :: 0 <= i < |rides| ==> rides[i].createdDate in ds
    ensures forall d :: d in ds ==> exists i :: 0 <= i < |rides| && rides[i].createdDate == d
  {
    if rides == [] then []
    else
      var ds := InsertDescending(rides[0].createdDate, DatesDescending(rides[1..]));
      assert forall i :: 0 <= i < |rides| ==> rides[i].createdDate in ds by {
        forall i | 0 <= i < |rides| ensures rides[i].createdDate in ds {
          if i > 0 {
            assert rides[1..][i - 1] == rides[i];
          }
        }
      }
      assert forall d :: d in ds ==> exists i :: 0 <= i < |rides| && rides[i].createdDate == d by {
        forall d | d in ds ensures exists i :: 0 <= i < |rides| && rides[i].createdDate == d {
          if d != rides[0].createdDate {
            var i :| 0 <= i < |rides[1..]| && rides[1..][i].createdDate == d;
            assert rides[i + 1].createdDate == d;
          }
        }
      }
      ds
  }

  /** Rides per day: one group per distinct creation date, latest first,
      each with the number of rides created that day. */
  function GetRidesPerDay(rides: seq<Ride>): (days: seq<Group<Date>>)
    ensures forall i, j :: 0 <= i < j < |days| ==> days[i].key > days[j].key
    ensures forall i :: 0 <= i < |days| ==> days[i].ridesCount == Count(rides, DateOf, days[i].key) > 0
    ensures forall i :: 0 <= i < |rides| ==> exists j :: 0 <= j < |days| && days[j].key == rides[i].createdDate
  {
    var ds := DatesDescending(rides);
    var days := Tally(rides, DateOf, ds);
    TallyLength(rides, DateOf, ds);
    assert forall j :: 0 <= j < |ds| ==> days[j] == Group(ds[j], Count(rides, DateOf, ds[j])) by {
      forall j | 0 <= j < |ds| ensures days[j] == Group(ds[j], Count(rides, DateOf, ds[j])) {
        TallyAt(rides, DateOf, ds, j);
      }
    }
    assert forall j :: 0 <= j < |ds| ==> Count(rides, DateOf, ds[j]) > 0 by {
      forall j | 0 <= j < |ds| ensures Count(rides, DateOf, ds[j]) > 0 {
        assert ds[j] in ds;
        var i :| 0 <= i < |rides| && rides[i].createdDate == ds[j];
        CountPositive(rides, DateOf, i);
      }
    }
    assert forall i :: 0 <= i < |rides| ==> rides[i].createdDate in ds;
    days
  }

  /** The day counts add up to the number of rides. */
  lemma RidesPerDayTotal(rides: seq<Ride>)
    ensures TotalCount(GetRidesPerDay(rides)) == |rides|
  {
    var ds := DatesDescending(rides);
    assert Distinct(ds);
    assert forall i :: 0 <= i < |rides| ==> DateOf(rides[i]) in ds;
    GroupCountsCoverAll(rides, DateOf, ds);
  }

  /** The distinct keys of the rides, each once. */
  function DistinctKeys<K(==)>(rides: seq<Ride>, key: Ride -> K): (ks: seq<K>)
    ensures Distinct(ks)
    ensures forall i :: 0 <= i < |rides| ==> key(rides[i]) in ks
    ensures forall k :: k in ks ==> exists i :: 0 <= i < |rides| && key(rides[i]) == k
  {
    if rides == [] then []
    else
      var rest := DistinctKeys(rides[1..], key);
      var ks := if key(rides[0]) in rest then rest else [key(rides[0])] + rest;
      assert forall i :: 0 <= i < |rides| ==> key(rides[i]) in ks by {
        forall i | 0 <= i < |rides| ensures key(rides[i]) in ks {
          if i > 0 {
            assert rides[1..][i - 1] == rides[i];
          }
        }
      }
      assert forall k :: k in ks ==> exists i :: 0 <= i < |rides| && key(rides[i]) == k by {
        forall k | k in ks ensures exists i :: 0 <= i < |rides| && key(rides[i]) == k {
          if k != key(rides[0]) {
            var i :| 0 <= i < |rides[1..]| && key(rides[1..][i]) == k;
            assert rides[i + 1] == rides[1..][i];
          }
        }
      }
      ks
  }

  /** Status summary: one group per distinct status with its count; the
      order of the groups is not promised. */
  function GetStatusSummary(rides: seq<Ride>): (groups: seq<Group<string>>)
    ensures forall i, j :: 0 <= i < j < |groups| ==> groups[i].key != groups[j].key
    ensures forall i :: 0 <= i < |groups| ==> groups[i].ridesCount == Count(rides, StatusOf, groups[i].key) > 0
    ensures forall i :: 0 <= i < |rides| ==> exists j :: 0 <= j < |groups| && groups[j].key == rides[i].status
  {
    var ks := DistinctKeys(rides, StatusOf);
    var groups := Tally(rides, StatusOf, ks);
    TallyLength(rides, StatusOf, ks);
    assert forall j :: 0 <= j < |ks| ==> groups[j] == Group(ks[j], Count(rides, StatusOf, ks[j])) by {
      forall j | 0 <= j < |ks| ensures groups[j] == Group(ks[j], Count(rides, StatusOf, ks[j])) {
        TallyAt(rides, StatusOf, ks, j);
      }
    }
    assert forall j :: 0 <= j < |ks| ==> Count(rides, StatusOf, ks[j]) > 0 by {
      forall j | 0 <= j < |ks| ensures Count(rides, StatusOf, ks[j]) > 0 {
        assert ks[j] in ks;
        var i :| 0 <= i < |rides| && StatusOf(rides[i]) == ks[j];
        CountPositive(rides, StatusOf, i);
      }
    }
    assert forall i :: 0 <= i < |rides| ==> StatusOf(rides[i]) in ks;
    groups
  }

  /** The status counts add up to the number of rides. */
  lemma StatusSummaryTotal(rides: seq<Ride>)
    ensures TotalCount(GetStatusSummary(rides)) == |rides|
  {
    var ks := DistinctKeys(rides, StatusOf);
    assert forall i :: 0 <= i < |rides| ==> StatusOf(rides[i]) in ks;
    GroupCountsCoverAll(rides, StatusOf, ks);
  }

  /** Over well-formed rides there are at most three status groups. */
  lemma StatusSummaryAtMostThree(rides: seq<Ride>)
    requires forall x :: x in rides ==> WellFormed(x)
    ensures |GetStatusSummary(rides)| <= 3
  {
    var ks := DistinctKeys(rides, StatusOf);
    TallyLength(rides, StatusOf, ks);
    forall k | k in ks ensures k in {REQUESTED, ACCEPTED, COMPLETED} {
      var i :| 0 <= i < |rides| && StatusOf(rides[i]) == k;
      assert rides[i] in rides;
    }
    DistinctBound(ks, {REQUESTED, ACCEPTED, COMPLETED});
    assert |{REQUESTED, ACCEPTED, COMPLETED}| == 3;
  }

  /** A list without repeats drawn from a set is no longer than the set. */
  lemma {:induction false} DistinctBound<K>(ks: seq<K>, s: set<K>)
    requires Distinct(ks) && forall k :: k in ks ==> k in s
    ensures |ks| <= |s|
  {
    if ks != [] {
      forall k | k in ks[1..] ensures k in s - {ks[0]} {
        var j :| 0 <= j < |ks[1..]| && ks[1..][j] == k;
        assert ks[j + 1] == k;
      }
      DistinctBound(ks[1..], s - {ks[0]});
    }
  }
}
