/** The document-store query criteria the ride service composes, and the
    find operation that evaluates them over the ride collection. */
module Query {
  import opened Rides
  import opened Text

  /** The string-valued fields a criterion can name. */
  datatype Field = PassengerUsername | DriverUsername | PickupLocation | DropLocation | Status

  /** A query criterion, one constructor per builder call the service uses. */
  datatype Criteria =
    | All                                            // an empty criterion
    | Is(field: Field, value: string)                // where(field).is(value)
    | In(field: Field, values: seq<string>)          // where(field).in(values)
    | RegexIgnoreCase(field: Field, pattern: string) // where(field).regex(pattern, "i")
    | DistanceBetween(min: real, max: real)          // where("distanceKm").gte(min).lte(max)
    | DateBetween(start: Date, end: Date)            // where("createdDate").gte(start).lte(end)
    | DateIs(date: Date)                             // where("createdDate").is(date)
    | Or(left: Criteria, right: Criteria)            // orOperator
    | And(left: Criteria, right: Criteria)           // andOperator, or a chained .and(...)

  /** The value of a string field; an unset driver has no value. */
  function FieldValue(r: Ride, f: Field): Option<string> {
    match f
    case PassengerUsername => Some(r.passengerUsername)
    case DriverUsername => r.driverUsername
    case PickupLocation => Some(r.pickupLocation)
    case DropLocation => Some(r.dropLocation)
    case Status => Some(r.status)
  }

  /** Whether a ride satisfies a criterion. A missing value matches no
      equality, membership or pattern test. */
  predicate Matches(c: Criteria, r: Ride) {
    match c
    case All => true
    case Is(f, v) => FieldValue(r, f) == Some(v)
    case In(f, vs) => FieldValue(r, f).Some? && FieldValue(r, f).value in vs
    case RegexIgnoreCase(f, p) => FieldValue(r, f).Some? && ContainsIgnoreCase(FieldValue(r, f).value, p)
    case DistanceBetween(lo, hi) => lo <= r.distanceKm <= hi
    case DateBetween(lo, hi) => lo <= r.createdDate <= hi
    case DateIs(d) => r.createdDate == d
    case Or(a, b) => Matches(a, r) || Matches(b, r)
    case And(a, b) => Matches(a, r) && Matches(b, r)
  }

  /** The rides of the collection that match, in collection order. */
  function Find(rides: seq<Ride>, c: Criteria): (found: seq<Ride>)
    ensures |found| <= |rides|
  {
    if rides == [] then []
    else
      var rest := Find(rides[1..], c);
      if Matches(c, rides[0]) then [rides[0]] + rest else rest
  }

  /** Each matching ride is kept as often as the collection holds it, and
      nothing else is kept. */
  lemma {:induction false} FindSelects(rides: seq<Ride>, c: Criteria)
    ensures forall x :: multiset(Find(rides, c))[x] == if Matches(c, x) then multiset(rides)[x] else 0
    ensures forall x :: x in Find(rides, c) <==> x in rides && Matches(c, x)
  {
    if rides != [] {
      FindSelects(rides[1..], c);
      assert rides == [rides[0]] + rides[1..];
    }
  }

  /** Finding over two collections one after the other is finding over both. */
  lemma {:induction false} FindAppend(a: seq<Ride>, b: seq<Ride>, c: Criteria)
    ensures Find(a + b, c) == Find(a, c) + Find(b, c)
  {
    if a == [] {
      assert a + b == b;
    } else {
      var ab := a + b;
      assert ab != [] && ab[0] == a[0] && ab[1..] == a[1..] + b;
      FindAppend(a[1..], b, c);
      calc {
        Find(ab, c);
        (if Matches(c, a[0]) then [a[0]] else []) + Find(ab[1..], c);
        (if Matches(c, a[0]) then [a[0]] else []) + (Find(a[1..], c) + Find(b, c));
      }
    }
  }

  /** Refining a result by a second criterion is the same as finding by both. */
  lemma {:induction false} FindThenFind(rides: seq<Ride>, a: Criteria, b: Criteria)
    ensures Find(Find(rides, a), b) == Find(rides, And(a, b))
  {
    if rides != [] {
      FindThenFind(rides[1..], a, b);
    }
  }

  /** The result does not depend on the order in which the collection is
      enumerated, up to the order of the found rides. */
  lemma FindOrderIndependent(a: seq<Ride>, b: seq<Ride>, c: Criteria)
    requires multiset(a) == multiset(b)
    ensures multiset(Find(a, c)) == multiset(Find(b, c))
  {
    FindSelects(a, c);
    FindSelects(b, c);
    forall x ensures multiset(Find(a, c))[x] == multiset(Find(b, c))[x] {
    }
  }

  /** The result is empty exactly when no ride of the collection matches. */
  lemma {:induction false} FindNothing(rides: seq<Ride>, c: Criteria)
    ensures Find(rides, c) == [] <==> forall x :: x in rides ==> !Matches(c, x)
  {
    if rides != [] {
      FindNothing(rides[1..], c);
      if Matches(c, rides[0]) {
        assert Find(rides, c)[0] == rides[0];
        assert rides[0] in rides;
      } else {
        assert Find(rides, c) == Find(rides[1..], c);
        assert forall x :: x in rides <==> x == rides[0] || x in rides[1..];
      }
    }
  }
}
