/** Sorting by a strict order, and why the result does not depend on the input order. */
module Sorting {

  type Less<!T> = (T, T) -> bool

  ghost predicate Strict<T(!new)>(less: Less<T>) {
    && (forall x: T :: !less(x, x))
    && (forall x: T, y: T, z: T :: less(x, y) && less(y, z) ==> less(x, z))
  }

  /** Any two different elements are ordered one way or the other. */
  ghost predicate TotalOn<T(!new)>(less: Less<T>, xs: seq<T>) {
    forall x, y | x in xs && y in xs && x != y :: less(x, y) || less(y, x)
  }

  ghost predicate StrictTotal<T(!new)>(less: Less<T>) {
    Strict(less) && forall x: T, y: T :: x == y || less(x, y) || less(y, x)
  }

  ghost predicate Below<T>(x: T, ys: seq<T>, less: Less<T>) { forall y | y in ys :: less(x, y) }

  ghost predicate Sorted<T>(xs: seq<T>, less: Less<T>) {
    xs == [] || (Below(xs[0], xs[1..], less) && Sorted(xs[1..], less))
  }

  ghost predicate Distinct<T>(xs: seq<T>) {
    xs == [] || (xs[0] !in xs[1..] && Distinct(xs[1..]))
  }

  function Insert<T(!new)>(x: T, xs: seq<T>, less: Less<T>): (r: seq<T>)
    ensures forall y :: y in r <==> y == x || y in xs
    ensures |r| == |xs| + 1
  {
    if xs == [] then [x]
    else if less(x, xs[0]) then [x] + xs
    else
      var r := [xs[0]] + Insert(x, xs[1..], less);
      assert forall y :: y in xs <==> y == xs[0] || y in xs[1..];
      r
  }

  function Sort<T(!new)>(xs: seq<T>, less: Less<T>): (r: seq<T>)
    ensures forall y :: y in r <==> y in xs
    ensures |r| == |xs|
  {
    if xs == [] then []
    else
      assert forall y :: y in xs <==> y == xs[0] || y in xs[1..];
      Insert(xs[0], Sort(xs[1..], less), less)
  }

  lemma {:induction false} BelowMeansOut<T(!new)>(x: T, xs: seq<T>, less: Less<T>)
    requires Strict(less) && Below(x, xs, less)
    ensures x !in xs
  {
    assert x in xs ==> less(x, x);
  }

  lemma {:induction false} InsertSorted<T(!new)>(x: T, xs: seq<T>, less: Less<T>)
    requires Strict(less) && Sorted(xs, less) && x !in xs
    requires forall y | y in xs :: less(x, y) || less(y, x)
    ensures Sorted(Insert(x, xs, less), less)
  {
    if xs == [] {
      assert [x][1..] == [];
    } else if less(x, xs[0]) {
      assert ([x] + xs)[1..] == xs;
      assert Below(x, xs, less) by {
        forall y | y in xs ensures less(x, y) {
          assert y == xs[0] || y in xs[1..];
        }
      }
    } else {
      var rest := Insert(x, xs[1..], less);
      InsertSorted(x, xs[1..], less);
      assert ([xs[0]] + rest)[1..] == rest;
      assert less(xs[0], x);
      assert Below(xs[0], rest, less);
    }
  }

  lemma {:induction false} SortSorted<T(!new)>(xs: seq<T>, less: Less<T>)
    requires Strict(less) && TotalOn(less, xs) && Distinct(xs)
    ensures Sorted(Sort(xs, less), less)
  {
    if xs != [] {
      SortSorted(xs[1..], less);
      InsertSorted(xs[0], Sort(xs[1..], less), less);
    }
  }

  /** Sortedness, index by index. */
  lemma {:induction false} SortedAt<T>(xs: seq<T>, less: Less<T>, i: nat, j: nat)
    requires Sorted(xs, less) && i < j < |xs|
    ensures less(xs[i], xs[j])
  {
    if i == 0 {
      assert xs[j] == xs[1..][j - 1];
    } else {
      SortedAt(xs[1..], less, i - 1, j - 1);
    }
  }

  /** A sorted sequence is determined by its elements. */
  lemma {:induction false} SortedUnique<T(!new)>(xs: seq<T>, ys: seq<T>, less: Less<T>)
    requires Strict(less) && Sorted(xs, less) && Sorted(ys, less)
    requires forall z :: z in xs <==> z in ys
    ensures xs == ys
  {
    if xs == [] {
      HeadIsMember(ys);
    } else {
      assert xs[0] in ys;
      var x, y := xs[0], ys[0];
      assert x == y by {
        assert y in xs;
        assert x == y || less(y, x);
        assert y == x || less(x, y);
        assert less(x, y) && less(y, x) ==> less(x, x);
      }
      BelowMeansOut(x, xs[1..], less);
      BelowMeansOut(y, ys[1..], less);
      forall z
        ensures z in xs[1..] <==> z in ys[1..]
      {
        TailMembers(xs, z);
        TailMembers(ys, z);
      }
      SortedUnique(xs[1..], ys[1..], less);
    }
  }

  lemma {:induction false} HeadIsMember<T>(xs: seq<T>)
    ensures xs == [] || exists x :: x in xs
  {
    assert xs == [] || xs[0] in xs;
  }

  lemma {:induction false} TailMembers<T>(xs: seq<T>, z: T)
    requires xs != [] && xs[0] !in xs[1..]
    ensures z in xs[1..] <==> z in xs && z != xs[0]
  {
  }

  /** Two orderings of the same elements sort to the same sequence. */
  lemma {:induction false} SortUnique<T(!new)>(xs: seq<T>, ys: seq<T>, less: Less<T>)
    requires Strict(less) && TotalOn(less, xs) && Distinct(xs) && Distinct(ys)
    requires forall z :: z in xs <==> z in ys
    ensures Sort(xs, less) == Sort(ys, less)
  {
    SortSorted(xs, less);
    SortSorted(ys, less);
    SortedUnique(Sort(xs, less), Sort(ys, less), less);
  }
}
