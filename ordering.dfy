/** Sorting a query result by one field in one direction, and cutting a page
    out of it. */
module Ordering {
  import opened Rides

  /** The fields a result can be sorted by. */
  datatype SortField = CreatedAt | Fare | DistanceKm

  datatype Direction = Asc | Desc

  function Key(r: Ride, f: SortField): real {
    match f
    case CreatedAt => r.createdAt as real
    case Fare => r.fare
    case DistanceKm => r.distanceKm
  }

  /** a may come before b in a result sorted by f in direction d. */
  predicate InOrder(a: Ride, b: Ride, f: SortField, d: Direction) {
    if d == Asc then Key(a, f) <= Key(b, f) else Key(a, f) >= Key(b, f)
  }

  predicate Sorted(s: seq<Ride>, f: SortField, d: Direction) {
    forall i, j :: 0 <= i < j < |s| ==> InOrder(s[i], s[j], f, d)
  }

  /** Puts x in front of the first element it may precede. */
  function Insert(x: Ride, s: seq<Ride>, f: SortField, d: Direction): (r: seq<Ride>)
    requires Sorted(s, f, d)
    ensures Sorted(r, f, d)
    ensures multiset(r) == multiset(s) + multiset{x}
    ensures forall y :: y in r <==> y == x || y in s
  {
    if s == [] || InOrder(x, s[0], f, d) then
      HeadSorted(x, s, f, d);
      [x] + s
    else
      assert s == [s[0]] + s[1..];
      var rest := Insert(x, s[1..], f, d);
      HeadPrecedes(x, s, f, d);
      HeadSorted(s[0], rest, f, d);
      [s[0]] + rest
  }

  /** A sequence stays sorted when an element that may precede all of it is
      put in front. */
  lemma HeadSorted(h: Ride, t: seq<Ride>, f: SortField, d: Direction)
    requires Sorted(t, f, d)
    requires t == [] || InOrder(h, t[0], f, d) || forall y :: y in t ==> InOrder(h, y, f, d)
    ensures Sorted([h] + t, f, d)
  {
    var r := [h] + t;
    forall i, j | 0 <= i < j < |r| ensures InOrder(r[i], r[j], f, d) {
      if i > 0 {
        assert r[i] == t[i - 1] && r[j] == t[j - 1];
      } else {
        assert r[j] == t[j - 1] && r[j] in t;
        if j > 1 {
          assert InOrder(t[0], t[j - 1], f, d);
        }
      }
    }
  }

  /** When x may not precede the head of a sorted s, the head may precede x
      and every later element. */
  lemma HeadPrecedes(x: Ride, s: seq<Ride>, f: SortField, d: Direction)
    requires Sorted(s, f, d) && s != [] && !InOrder(x, s[0], f, d)
    ensures forall y :: y == x || y in s[1..] ==> InOrder(s[0], y, f, d)
  {
    forall y | y in s[1..] ensures InOrder(s[0], y, f, d) {
      var k :| 0 <= k < |s[1..]| && s[1..][k] == y;
      assert s[k + 1] == y;
    }
  }

  /** The rides of s ordered by field f in direction d; rides with equal keys
      come in no promised order. */
  function SortBy(s: seq<Ride>, f: SortField, d: Direction): (r: seq<Ride>)
    ensures Sorted(r, f, d)
    ensures multiset(r) == multiset(s)
  {
    if s == [] then []
    else
      assert s == [s[0]] + s[1..];
      Insert(s[0], SortBy(s[1..], f, d), f, d)
  }

  function Min(a: int, b: int): int {
    if a <= b then a else b
  }

  /** The page with index `page` of `size` elements each: the slice
      [page * size, page * size + size) of s, cut short at its end. */
  function Page<T>(s: seq<T>, page: nat, size: nat): (r: seq<T>)
    requires size >= 1
    ensures |r| <= size
    ensures |r| == if page * size >= |s| then 0 else Min(size, |s| - page * size)
    ensures forall i :: 0 <= i < |r| ==> page * size + i < |s| && r[i] == s[page * size + i]
  {
    var start := page * size;
    if start >= |s| then [] else s[start..Min(start + size, |s|)]
  }

  /** Every element lies on exactly the page its index divides into. */
  lemma PageHolds<T>(s: seq<T>, size: nat, i: nat)
    requires size >= 1 && i < |s|
    ensures i % size < |Page(s, i / size, size)|
    ensures Page(s, i / size, size)[i % size] == s[i]
  {
    var p := i / size;
    assert p * size + i % size == i;
  }

  /** A slice of a sorted sequence is sorted. */
  lemma PageSorted(s: seq<Ride>, page: nat, size: nat, f: SortField, d: Direction)
    requires size >= 1 && Sorted(s, f, d)
    ensures Sorted(Page(s, page, size), f, d)
  {
    var r := Page(s, page, size);
    forall i, j | 0 <= i < j < |r| ensures InOrder(r[i], r[j], f, d) {
      assert r[i] == s[page * size + i] && r[j] == s[page * size + j];
    }
  }

  /** A page holds nothing the sequence does not. */
  lemma PageSubMultiset<T>(s: seq<T>, page: nat, size: nat)
    requires size >= 1
    ensures multiset(Page(s, page, size)) <= multiset(s)
  {
    var start := page * size;
    if start < |s| {
      var end := Min(start + size, |s|);
      assert Page(s, page, size) == s[start..end];
      SliceSubMultiset(s, start, end);
    }
  }

  lemma SliceSubMultiset<T>(s: seq<T>, i: nat, j: nat)
    requires i <= j <= |s|
    ensures multiset(s[i..j]) <= multiset(s)
  {
    assert s == s[..i] + s[i..j] + s[j..];
    assert multiset(s) == multiset(s[..i]) + multiset(s[i..j]) + multiset(s[j..]);
  }

  /** The first page of a sorted sequence comes first: every element left
      off it may follow every element on it. */
  lemma FirstPageFirst(s: seq<Ride>, size: nat, f: SortField, d: Direction)
    requires size >= 1 && Sorted(s, f, d)
    ensures forall x, y :: x in Page(s, 0, size) && y in multiset(s) - multiset(Page(s, 0, size)) ==> InOrder(x, y, f, d)
  {
    var k := |Page(s, 0, size)|;
    assert Page(s, 0, size) == s[..k];
    PrefixRemainder(s, k);
    SortedSplit(s, k, f, d);
  }

  lemma PrefixRemainder<T>(s: seq<T>, k: nat)
    requires k <= |s|
    ensures multiset(s) - multiset(s[..k]) == multiset(s[k..])
  {
    assert s == s[..k] + s[k..];
  }

  lemma SortedSplit(s: seq<Ride>, k: nat, f: SortField, d: Direction)
    requires k <= |s| && Sorted(s, f, d)
    ensures forall x, y :: x in s[..k] && y in s[k..] ==> InOrder(x, y, f, d)
  {
    forall x, y | x in s[..k] && y in s[k..] ensures InOrder(x, y, f, d) {
      var i :| 0 <= i < k && s[..k][i] == x;
      var j :| 0 <= j < |s[k..]| && s[k..][j] == y;
      assert s[i] == x && s[k + j] == y;
    }
  }
}
