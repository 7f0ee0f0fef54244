/**
 * JavaScript's Set as the front end uses it: built from an array, it keeps
 * the first occurrence of each element in insertion order; `delete` removes
 * an element, `add` appends a new one, and `Array.from` lists it in order.
 */
module JsSets {
  import opened Seqs

  /** `Array.from(new Set(xs))`: the first occurrence of each element, in order. */
  function Dedup<T(==,!new)>(xs: seq<T>): (r: seq<T>)
    ensures Distinct(r)
    ensures forall x :: x in r <==> x in xs
    ensures Distinct(xs) ==> r == xs
  {
    if xs == [] then []
    else
      var init := xs[..|xs| - 1];
      var last := xs[|xs| - 1];
      assert xs == init + [last];
      assert Distinct(xs) ==> Distinct(init) && last !in init;
      var d := Dedup(init);
      if last in d then d else d + [last]
  }

  /** `set.delete(x)`, or `filter(y => y !== x)` on an array: every copy of `x` goes, the rest keep their order. */
  function Without<T(==,!new)>(xs: seq<T>, x: T): (r: seq<T>)
    ensures forall y :: y in r <==> y in xs && y != x
    ensures Distinct(xs) ==> Distinct(r)
    ensures x !in xs ==> r == xs
  {
    if xs == [] then []
    else if xs[0] == x then Without(xs[1..], x)
    else
      assert Distinct(xs) ==> Distinct(xs[1..]) && xs[0] !in xs[1..];
      [xs[0]] + Without(xs[1..], x)
  }

  /**
   * What `Without` leaves is `xs` with exactly the copies of `x` taken out:
   * the survivors keep their order and their number.
   */
  lemma {:induction false} WithoutKeepsOrder<T(!new)>(xs: seq<T>, x: T)
    ensures SubsequenceOf(Without(xs, x), xs)
    ensures multiset(Without(xs, x)) == multiset(xs)[x := 0]
  {
    if xs != [] {
      WithoutKeepsOrder(xs[1..], x);
      assert xs == [xs[0]] + xs[1..];
      var r := Without(xs, x);
      if xs[0] != x {
        assert r[1..] == Without(xs[1..], x);
      } else if r != [] {
        assert r[0] in r;
      }
    }
  }

  /** Removing an element just appended gives back the list it was appended to. */
  lemma {:induction false} WithoutLast<T(!new)>(xs: seq<T>, x: T)
    requires x !in xs
    ensures Without(xs + [x], x) == xs
  {
    if xs != [] {
      assert (xs + [x])[1..] == xs[1..] + [x];
      WithoutLast(xs[1..], x);
    }
  }

  /**
   * The toggle the filter and option handlers share: copy into a Set, then
   * delete the element if present, else add it at the end.
   */
  function Toggle<T(==,!new)>(xs: seq<T>, x: T): (r: seq<T>)
    ensures Distinct(r)
    ensures x in r <==> x !in xs
    ensures forall y :: y != x ==> (y in r <==> y in xs)
    ensures x !in xs ==> r == Dedup(xs) + [x]
  {
    var current := Dedup(xs);
    if x in current then Without(current, x) else current + [x]
  }

  /**
   * Toggling the same element twice leaves the same elements, and when the
   * element was absent from a list without repeats the list comes back
   * exactly, order included.
   */
  lemma ToggleTwice<T(!new)>(xs: seq<T>, x: T)
    ensures Elems(Toggle(Toggle(xs, x), x)) == Elems(xs)
    ensures x !in xs && Distinct(xs) ==> Toggle(Toggle(xs, x), x) == xs
  {
    var once := Toggle(xs, x);
    assert Dedup(once) == once;
    if x !in xs {
      assert once == Dedup(xs) + [x];
      WithoutLast(Dedup(xs), x);
    }
  }
}
