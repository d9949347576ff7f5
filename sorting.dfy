/** Python's `sorted(keys, reverse=True)` on strings, and the one strictly
    descending listing of a finite set of paths. */
module Sorting {
  import opened Paths

  /** No element comes after a larger one. */
  predicate Descending(xs: seq<Path>)
  {
    forall i, j :: 0 <= i < j < |xs| ==> !StrLess(xs[i], xs[j])
  }

  /** Every element is larger than every later one. */
  predicate StrictlyDescending(xs: seq<Path>)
  {
    forall i, j :: 0 <= i < j < |xs| ==> StrLess(xs[j], xs[i])
  }

  predicate Distinct(xs: seq<Path>)
  {
    forall i, j :: 0 <= i < j < |xs| ==> xs[i] != xs[j]
  }

  /** Inserts `x` into a descending sequence, after the elements it does not exceed. */
  function Insert(x: Path, xs: seq<Path>): (r: seq<Path>)
    requires Descending(xs)
    ensures Descending(r)
    ensures multiset(r) == multiset(xs) + multiset{x}
    ensures forall y :: y in r <==> y == x || y in xs
    ensures Distinct(xs) && x !in xs ==> Distinct(r)
  {
    if xs == [] then [x]
    else if StrLess(xs[0], x) then
      InsertFront(x, xs);
      [x] + xs
    else
      assert xs == [xs[0]] + xs[1..];
      var rest := Insert(x, xs[1..]);
      InsertBehind(x, xs, rest);
      [xs[0]] + rest
  }

  lemma InsertFront(x: Path, xs: seq<Path>)
    requires Descending(xs) && xs != [] && StrLess(xs[0], x)
    ensures Descending([x] + xs)
  {
    var r := [x] + xs;
    forall i, j | 0 <= i < j < |r|
      ensures !StrLess(r[i], r[j])
    {
      if i == 0 && StrLess(x, r[j]) {
        StrLessTransitive(xs[0], x, r[j]);
        if j == 1 { StrLessIrreflexive(xs[0]); }
      }
    }
  }

  lemma InsertBehind(x: Path, xs: seq<Path>, rest: seq<Path>)
    requires Descending(xs) && xs != [] && !StrLess(xs[0], x)
    requires Descending(rest)
    requires forall y :: y in rest <==> y == x || y in xs[1..]
    requires Distinct(xs) && x !in xs ==> Distinct(rest)
    ensures Descending([xs[0]] + rest)
    ensures Distinct(xs) && x !in xs ==> Distinct([xs[0]] + rest)
  {
    var r := [xs[0]] + rest;
    forall j | 0 < j < |r|
      ensures !StrLess(xs[0], r[j]) && (Distinct(xs) && x !in xs ==> xs[0] != r[j])
    {
      assert r[j] in rest;
    }
  }

  /** `sorted(xs, reverse=True)`: a descending permutation of `xs`. */
  function SortDescending(xs: seq<Path>): (r: seq<Path>)
    ensures Descending(r)
    ensures multiset(r) == multiset(xs)
    ensures forall y :: y in r <==> y in xs
    ensures Distinct(xs) ==> Distinct(r)
  {
    if xs == [] then []
    else
      assert xs == [xs[0]] + xs[1..];
      Insert(xs[0], SortDescending(xs[1..]))
  }

  /** Without repetitions, descending is strictly descending. */
  lemma DistinctDescendingIsStrict(xs: seq<Path>)
    requires Descending(xs) && Distinct(xs)
    ensures StrictlyDescending(xs)
  {
    forall i, j | 0 <= i < j < |xs|
      ensures StrLess(xs[j], xs[i])
    {
      StrLessTotal(xs[i], xs[j]);
    }
  }

  /** Two strictly descending sequences with the same elements are equal. */
  lemma {:induction false} DescendingUnique(a: seq<Path>, b: seq<Path>)
    requires StrictlyDescending(a) && StrictlyDescending(b)
    requires forall y :: y in a <==> y in b
    ensures a == b
  {
    assert a != [] ==> a[0] in b;
    assert b != [] ==> b[0] in a;
    if a != [] {
      var m :| 0 <= m < |b| && b[m] == a[0];
      var n :| 0 <= n < |a| && a[n] == b[0];
      if m != 0 {
        assert StrLess(a[0], b[0]);
        if n != 0 {
          StrLessAsymmetric(a[0], b[0]);
        } else {
          StrLessIrreflexive(a[0]);
        }
      }
      assert a[0] == b[0];
      forall y
        ensures y in a[1..] <==> y in b[1..]
      {
        if y in a[1..] {
          var i :| 1 <= i < |a| && a[i] == y;
          assert StrLess(y, a[0]);
          if y == a[0] { StrLessIrreflexive(y); }
          assert y in b;
        }
        if y in b[1..] {
          var i :| 1 <= i < |b| && b[i] == y;
          assert StrLess(y, b[0]);
          if y == b[0] { StrLessIrreflexive(y); }
          assert y in a;
        }
      }
      DescendingUnique(a[1..], b[1..]);
      assert a == [a[0]] + a[1..] && b == [b[0]] + b[1..];
    }
  }

  /** Some repetition-free listing of a finite set. */
  ghost function Listing(ks: set<Path>): (r: seq<Path>)
    ensures Distinct(r)
    ensures forall y :: y in r <==> y in ks
    decreases ks
  {
    if ks == {} then []
    else
      var k :| k in ks;
      var rest := Listing(ks - {k});
      [k] + rest
  }

  /** The keys of a set from largest to smallest: the order in which a loop
      over `sorted(keys, reverse=True)` visits them. */
  ghost function DescendingListing(ks: set<Path>): (r: seq<Path>)
    ensures StrictlyDescending(r)
    ensures forall y :: y in r <==> y in ks
  {
    var r := SortDescending(Listing(ks));
    DistinctDescendingIsStrict(r);
    r
  }

  /** Sorting any repetition-free listing of a set gives its descending listing,
      whichever order the listing had. */
  lemma SortedListingIsCanonical(xs: seq<Path>, ks: set<Path>)
    requires Distinct(xs)
    requires forall y :: y in xs <==> y in ks
    ensures SortDescending(xs) == DescendingListing(ks)
  {
    var r := SortDescending(xs);
    DistinctDescendingIsStrict(r);
    DescendingUnique(r, DescendingListing(ks));
  }

  /** In a strictly descending listing a path comes before every listed
      directory that contains it: nested datasets first. */
  lemma NestedBeforeContainer(xs: seq<Path>, i: int, j: int)
    requires StrictlyDescending(xs)
    requires 0 <= i < |xs| && 0 <= j < |xs|
    requires IsStrictlyUnder(xs[i], xs[j])
    ensures i < j
  {
    ContainerSortsFirst(xs[i], xs[j]);
    if j < i {
      StrLessAsymmetric(xs[j], xs[i]);
    }
  }
}
