/** Stable sorting as the program uses it from the `sort` and `slices` packages. */
module Sorting {
  /** A strict weak order: what makes "sorted" and "stable" determine the result. */
  ghost predicate StrictWeak<T(!new)>(before: (T, T) -> bool) {
    && (forall x, y :: before(x, y) ==> !before(y, x))
    && (forall x, y, z :: !before(y, x) && !before(z, y) ==> !before(z, x))
  }

  predicate Sorted<T>(xs: seq<T>, before: (T, T) -> bool) {
    forall i, j :: 0 <= i < j < |xs| ==> !before(xs[j], xs[i])
  }

  predicate Tied<T>(x: T, y: T, before: (T, T) -> bool) { !before(x, y) && !before(y, x) }

  /** The elements tied with `x`, in order. */
  function TiedWith<T>(x: T, xs: seq<T>, before: (T, T) -> bool): seq<T> {
    if xs == [] then [] else (if Tied(x, xs[0], before) then [xs[0]] else []) + TiedWith(x, xs[1..], before)
  }

  function Insert<T>(x: T, xs: seq<T>, before: (T, T) -> bool): seq<T> {
    if xs == [] || !before(xs[0], x) then [x] + xs else [xs[0]] + Insert(x, xs[1..], before)
  }

  function StableSort<T>(xs: seq<T>, before: (T, T) -> bool): seq<T> {
    if xs == [] then [] else Insert(xs[0], StableSort(xs[1..], before), before)
  }

  lemma {:induction false} InsertPermutes<T>(x: T, xs: seq<T>, before: (T, T) -> bool)
    ensures multiset(Insert(x, xs, before)) == multiset(xs) + multiset{x}
  {
    if xs != [] && before(xs[0], x) {
      InsertPermutes(x, xs[1..], before);
      assert xs == [xs[0]] + xs[1..];
    }
  }

  lemma {:induction false} InsertSorted<T(!new)>(x: T, xs: seq<T>, before: (T, T) -> bool)
    requires StrictWeak(before) && Sorted(xs, before)
    ensures Sorted(Insert(x, xs, before), before)
  {
    if xs != [] && before(xs[0], x) {
      var rest := Insert(x, xs[1..], before);
      InsertSorted(x, xs[1..], before);
      InsertPermutes(x, xs[1..], before);
      forall j | 0 <= j < |rest| ensures !before(rest[j], xs[0]) {
        assert rest[j] in multiset(rest);
      }
    }
  }

  lemma TiedWithCons<T>(x: T, y: T, xs: seq<T>, before: (T, T) -> bool)
    ensures TiedWith(x, [y] + xs, before) == (if Tied(x, y, before) then [y] else []) + TiedWith(x, xs, before)
  {
    assert ([y] + xs)[1..] == xs;
  }

  lemma NotBothTied<T(!new)>(x: T, y: T, z: T, before: (T, T) -> bool)
    requires StrictWeak(before) && before(x, y)
    ensures !(Tied(z, x, before) && Tied(z, y, before))
  {
  }

  lemma {:induction false} InsertStable<T(!new)>(x: T, xs: seq<T>, z: T, before: (T, T) -> bool)
    requires StrictWeak(before)
    ensures TiedWith(z, Insert(x, xs, before), before) == TiedWith(z, [x] + xs, before)
  {
    hide StrictWeak;
    hide Tied;
    if xs != [] && before(xs[0], x) {
      InsertStable(x, xs[1..], z, before);
      TiedWithCons(z, xs[0], Insert(x, xs[1..], before), before);
      TiedWithCons(z, x, xs[1..], before);
      TiedWithCons(z, x, xs, before);
      NotBothTied(xs[0], x, z, before);
    }
  }

  /** The result is sorted, a permutation, and keeps the order of tied elements. */
  lemma {:induction false} StableSortCorrect<T(!new)>(xs: seq<T>, before: (T, T) -> bool)
    requires StrictWeak(before)
    ensures Sorted(StableSort(xs, before), before)
    ensures multiset(StableSort(xs, before)) == multiset(xs)
    ensures forall z :: TiedWith(z, StableSort(xs, before), before) == TiedWith(z, xs, before)
  {
    if xs != [] {
      var rest := StableSort(xs[1..], before);
      StableSortCorrect(xs[1..], before);
      InsertSorted(xs[0], rest, before);
      InsertPermutes(xs[0], rest, before);
      assert xs == [xs[0]] + xs[1..];
      forall z ensures TiedWith(z, StableSort(xs, before), before) == TiedWith(z, xs, before) {
        InsertStable(xs[0], rest, z, before);
        TiedWithCons(z, xs[0], rest, before);
      }
    }
  }

  /** Sorted and stable leave no choice: two such arrangements are equal. */
  lemma {:induction false} StableSortUnique<T(!new)>(a: seq<T>, b: seq<T>, before: (T, T) -> bool)
    requires StrictWeak(before) && Sorted(a, before) && Sorted(b, before)
    requires forall z :: TiedWith(z, a, before) == TiedWith(z, b, before)
    ensures a == b
    decreases |a|
  {
    if a == [] {
      assert b != [] ==> TiedWith(b[0], b, before) != [];
    } else {
      HeadsAgree(a, b, before);
      forall z ensures TiedWith(z, a[1..], before) == TiedWith(z, b[1..], before) {
        assert TiedWith(z, a, before) == TiedWith(z, b, before);
        var head := if Tied(z, a[0], before) then [a[0]] else [];
        assert TiedWith(z, a, before)[|head|..] == TiedWith(z, a[1..], before);
        assert TiedWith(z, b, before)[|head|..] == TiedWith(z, b[1..], before);
      }
      StableSortUnique(a[1..], b[1..], before);
      assert a == [a[0]] + a[1..] && b == [b[0]] + b[1..];
    }
  }

  lemma HeadsAgree<T(!new)>(a: seq<T>, b: seq<T>, before: (T, T) -> bool)
    requires StrictWeak(before) && a != [] && Sorted(a, before) && Sorted(b, before)
    requires forall z :: TiedWith(z, a, before) == TiedWith(z, b, before)
    ensures b != [] && a[0] == b[0]
  {
    assert TiedWith(a[0], a, before)[0] == a[0];
    assert TiedWith(a[0], a, before) == TiedWith(a[0], b, before);
    var i := TiedOccurs(a[0], b, before);
    assert TiedWith(b[0], b, before)[0] == b[0];
    assert TiedWith(b[0], a, before) == TiedWith(b[0], b, before);
    var j := TiedOccurs(b[0], a, before);
    assert !before(b[i], b[0]) && !before(a[j], a[0]);
    assert Tied(a[0], b[0], before);
    assert TiedWith(a[0], b, before)[0] == b[0];
  }

  lemma {:induction false} TiedOccurs<T>(x: T, xs: seq<T>, before: (T, T) -> bool) returns (i: nat)
    requires TiedWith(x, xs, before) != []
    ensures i < |xs| && Tied(x, xs[i], before)
  {
    if Tied(x, xs[0], before) {
      i := 0;
    } else {
      var k := TiedOccurs(x, xs[1..], before);
      i := k + 1;
    }
  }
}
