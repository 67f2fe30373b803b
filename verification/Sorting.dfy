/** Sorting a sequence by an order given as a function, and the order of Rust
    strings.  A sorted arrangement is unique when the order is antisymmetric on
    the elements, so which stable sort is used does not matter. */
module Sorting {

  function Map<T, U>(f: T -> U, xs: seq<T>): (ys: seq<U>)
    ensures |ys| == |xs|
    ensures forall i | 0 <= i < |xs| :: ys[i] == f(xs[i])
  {
    seq(|xs|, i requires 0 <= i < |xs| => f(xs[i]))
  }

  ghost predicate Reorders<T>(ys: seq<T>, xs: seq<T>) {
    multiset(ys) == multiset(xs)
  }

  ghost predicate IsSorted<T>(le: (T, T) -> bool, xs: seq<T>) {
    forall i, j | 0 <= i < j < |xs| :: le(xs[i], xs[j])
  }

  ghost predicate IsOrder<T(!new)>(le: (T, T) -> bool) {
    (forall x, y :: le(x, y) || le(y, x)) && (forall x, y, z :: le(x, y) && le(y, z) ==> le(x, z))
  }

  ghost predicate IsAntisymmetricOn<T(!new)>(le: (T, T) -> bool, xs: seq<T>) {
    forall x, y | x in xs && y in xs :: le(x, y) && le(y, x) ==> x == y
  }

  function Insert<T>(le: (T, T) -> bool, x: T, xs: seq<T>): seq<T> {
    if xs == [] || le(x, xs[0]) then [x] + xs else [xs[0]] + Insert(le, x, xs[1..])
  }

  /** A stable sort. */
  function Sort<T>(le: (T, T) -> bool, xs: seq<T>): seq<T> {
    if xs == [] then [] else Insert(le, xs[0], Sort(le, xs[1..]))
  }

  lemma {:induction false} InsertReorders<T(!new)>(le: (T, T) -> bool, x: T, xs: seq<T>)
    ensures Reorders(Insert(le, x, xs), [x] + xs)
  {
    if xs != [] && !le(x, xs[0]) {
      InsertReorders(le, x, xs[1..]);
      assert xs == [xs[0]] + xs[1..];
    }
  }

  lemma {:induction false} SortReorders<T(!new)>(le: (T, T) -> bool, xs: seq<T>)
    ensures Reorders(Sort(le, xs), xs) && |Sort(le, xs)| == |xs|
    ensures forall x :: x in Sort(le, xs) <==> x in xs
  {
    if xs != [] {
      SortReorders(le, xs[1..]);
      InsertReorders(le, xs[0], Sort(le, xs[1..]));
      assert xs == [xs[0]] + xs[1..];
    }
    ReordersSameMembers(Sort(le, xs), xs);
  }

  lemma ReordersSameMembers<T(!new)>(ys: seq<T>, xs: seq<T>)
    requires Reorders(ys, xs)
    ensures |ys| == |xs| && forall x :: x in ys <==> x in xs
  {
    assert |multiset(ys)| == |ys| && |multiset(xs)| == |xs|;
    forall x
      ensures x in ys <==> x in xs
    {
      assert x in ys <==> x in multiset(ys);
      assert x in xs <==> x in multiset(xs);
    }
  }

  lemma {:induction false} InsertSorts<T(!new)>(le: (T, T) -> bool, x: T, xs: seq<T>)
    requires IsOrder(le) && IsSorted(le, xs)
    ensures IsSorted(le, Insert(le, x, xs))
  {
    if xs != [] {
      if le(x, xs[0]) {
        forall j | 0 <= j < |xs|
          ensures le(x, xs[j])
        {
          assert j > 0 ==> le(xs[0], xs[j]);
        }
      } else {
        InsertSorts(le, x, xs[1..]);
        InsertReorders(le, x, xs[1..]);
        ReordersSameMembers(Insert(le, x, xs[1..]), [x] + xs[1..]);
        forall y | y in Insert(le, x, xs[1..])
          ensures le(xs[0], y)
        {
        }
      }
    }
  }

  lemma {:induction false} SortSorts<T(!new)>(le: (T, T) -> bool, xs: seq<T>)
    requires IsOrder(le)
    ensures IsSorted(le, Sort(le, xs))
  {
    if xs != [] {
      SortSorts(le, xs[1..]);
      InsertSorts(le, xs[0], Sort(le, xs[1..]));
    }
  }

  lemma {:induction false} SortedIsUnique<T(!new)>(le: (T, T) -> bool, xs: seq<T>, ys: seq<T>)
    requires IsSorted(le, xs) && IsSorted(le, ys) && Reorders(xs, ys) && IsAntisymmetricOn(le, xs)
    requires IsOrder(le)
    ensures xs == ys
  {
    ReordersSameMembers(xs, ys);
    if xs != [] {
      assert xs[0] in ys && ys[0] in xs;
      assert xs[0] == ys[0];
      TakeOutFromBoth(xs, ys, 0);
      assert Without(ys, 0) == ys[1..];
      SortedIsUnique(le, xs[1..], ys[1..]);
    }
  }

  /** Sorting decides whether two sequences hold the same elements. */
  lemma SortDecidesReordering<T(!new)>(le: (T, T) -> bool, xs: seq<T>, ys: seq<T>)
    requires IsOrder(le) && IsAntisymmetricOn(le, xs)
    ensures Sort(le, xs) == Sort(le, ys) <==> Reorders(xs, ys)
  {
    SortReorders(le, xs);
    SortReorders(le, ys);
    if Reorders(xs, ys) {
      SortSorts(le, xs);
      SortSorts(le, ys);
      SortedIsUnique(le, Sort(le, xs), Sort(le, ys));
    }
  }

  lemma SortOfSorted<T(!new)>(le: (T, T) -> bool, xs: seq<T>)
    requires IsOrder(le) && IsAntisymmetricOn(le, xs) && IsSorted(le, xs)
    ensures Sort(le, xs) == xs
  {
  }

  // ---------------------------------------------------- mapping and reordering

  function Without<T>(xs: seq<T>, i: nat): seq<T>
    requires i < |xs|
  {
    xs[..i] + xs[i + 1..]
  }

  lemma TakeOut<T(!new)>(xs: seq<T>, i: nat)
    requires i < |xs|
    ensures multiset(xs) == multiset(Without(xs, i)) + multiset{xs[i]}
  {
    assert xs == xs[..i] + [xs[i]] + xs[i + 1..];
  }

  lemma TakeOutFromBoth<T(!new)>(xs: seq<T>, ys: seq<T>, i: nat)
    requires xs != [] && i < |ys| && xs[0] == ys[i]
    ensures Reorders(xs, ys) <==> Reorders(xs[1..], Without(ys, i))
  {
    TakeOut(ys, i);
    TakeOut(xs, 0);
    assert Without(xs, 0) == xs[1..];
    assert multiset(xs[1..]) == multiset(xs) - multiset{xs[0]};
    assert multiset(Without(ys, i)) == multiset(ys) - multiset{ys[i]};
  }

  lemma MapWithout<T(!new), U(!new)>(f: T -> U, ys: seq<T>, i: nat)
    requires i < |ys|
    ensures Without(Map(f, ys), i) == Map(f, Without(ys, i)) && Map(f, ys)[i] == f(ys[i])
  {
  }

  lemma MapCons<T(!new), U(!new)>(f: T -> U, x: T, xs: seq<T>)
    ensures Map(f, [x] + xs) == [f(x)] + Map(f, xs)
  {
  }

  lemma {:induction false} MapReorders<T(!new), U(!new)>(f: T -> U, xs: seq<T>, ys: seq<T>)
    requires Reorders(xs, ys)
    ensures Reorders(Map(f, xs), Map(f, ys))
  {
    ReordersSameMembers(xs, ys);
    if xs == [] {
      assert Map(f, xs) == Map(f, ys);
    } else {
      assert xs[0] in ys;
      var i :| 0 <= i < |ys| && ys[i] == xs[0];
      TakeOutFromBoth(xs, ys, i);
      MapReorders(f, xs[1..], Without(ys, i));
      assert Map(f, xs)[1..] == Map(f, xs[1..]);
      assert Without(Map(f, ys), i) == Map(f, Without(ys, i));
      TakeOutFromBoth(Map(f, xs), Map(f, ys), i);
    }
  }

  /** A reordering of the images comes from a reordering of the elements. */
  lemma {:induction false} Rearrange<T(!new), U(!new)>(f: T -> U, ys: seq<T>, images: seq<U>) returns (zs: seq<T>)
    requires Reorders(images, Map(f, ys))
    ensures Reorders(zs, ys) && Map(f, zs) == images
    decreases |images|
  {
    ReordersSameMembers(images, Map(f, ys));
    if images == [] {
      zs := [];
    } else {
      assert images[0] in Map(f, ys);
      var i :| 0 <= i < |ys| && Map(f, ys)[i] == images[0];
      var rest := images[1..];
      TakeOutFromBoth(images, Map(f, ys), i);
      MapWithout(f, ys, i);
      hide Reorders, Map, Without;
      var more := Rearrange(f, Without(ys, i), rest);
      zs := [ys[i]] + more;
      assert zs[1..] == more;
      TakeOutFromBoth(zs, ys, i);
      MapCons(f, ys[i], more);
      assert images == [images[0]] + rest;
    }
  }

  /** `f` carries one order to the other on `xs`. */
  ghost predicate Carries<T(!new), U(!new)>(f: T -> U, lt: (T, T) -> bool, lu: (U, U) -> bool, xs: seq<T>) {
    forall x, y | x in xs && y in xs :: lt(x, y) <==> lu(f(x), f(y))
  }

  lemma {:induction false} InsertMaps<T(!new), U(!new)>(
      f: T -> U, lt: (T, T) -> bool, lu: (U, U) -> bool, x: T, xs: seq<T>)
    requires Carries(f, lt, lu, [x] + xs)
    ensures Map(f, Insert(lt, x, xs)) == Insert(lu, f(x), Map(f, xs))
  {
    assert x in [x] + xs && forall y | y in xs :: y in [x] + xs;
    if xs != [] {
      assert xs[0] in xs;
      assert Map(f, xs)[1..] == Map(f, xs[1..]);
      if !lt(x, xs[0]) {
        InsertMaps(f, lt, lu, x, xs[1..]);
      }
    }
  }

  lemma HeadAndMembers<T(!new)>(xs: seq<T>, ys: seq<T>)
    requires xs != [] && forall y | y in ys :: y in xs[1..]
    ensures forall y | y in [xs[0]] + ys :: y in xs
  {
  }

  /** Sorting by the images and then mapping is mapping and then sorting. */
  lemma {:induction false} SortMaps<T(!new), U(!new)>(f: T -> U, lt: (T, T) -> bool, lu: (U, U) -> bool, xs: seq<T>)
    requires Carries(f, lt, lu, xs)
    ensures Map(f, Sort(lt, xs)) == Sort(lu, Map(f, xs))
  {
    if xs != [] {
      SortMaps(f, lt, lu, xs[1..]);
      var sorted := Sort(lt, xs[1..]);
      SortReorders(lt, xs[1..]);
      ReordersSameMembers(sorted, xs[1..]);
      HeadAndMembers(xs, sorted);
      InsertMaps(f, lt, lu, xs[0], sorted);
      assert Map(f, xs)[1..] == Map(f, xs[1..]);
    }
  }

  // ------------------------------------------------------------ string order

  /** `str::cmp`: UTF-8 bytes compare like code points. */
  predicate StringLe(a: string, b: string) {
    a == "" || (b != "" && (a[0] < b[0] || (a[0] == b[0] && StringLe(a[1..], b[1..]))))
  }

  lemma {:induction false} StringLeTotal(a: string, b: string)
    ensures StringLe(a, b) || StringLe(b, a)
  {
    if a != "" && b != "" {
      StringLeTotal(a[1..], b[1..]);
    }
  }

  lemma {:induction false} StringLeTransitive(a: string, b: string, c: string)
    requires StringLe(a, b) && StringLe(b, c)
    ensures StringLe(a, c)
  {
    if a != "" && b != "" && c != "" && a[0] == b[0] == c[0] {
      StringLeTransitive(a[1..], b[1..], c[1..]);
    }
  }

  lemma {:induction false} StringLeAntisymmetric(a: string, b: string)
    requires StringLe(a, b) && StringLe(b, a)
    ensures a == b
  {
    if a != "" && b != "" {
      StringLeAntisymmetric(a[1..], b[1..]);
      assert a == [a[0]] + a[1..] && b == [b[0]] + b[1..];
    }
  }
}
