/** Orderings and the stable sort the faces rely on. */
module Ordering {

  ghost predicate StrictOrder<T(!new)>(less: (T, T) -> bool) {
    && (forall x :: !less(x, x))
    && (forall x, y, z :: less(x, y) && less(y, z) ==> less(x, z))
  }

  ghost predicate Ascending<T(!new)>(xs: seq<T>, less: (T, T) -> bool) {
    forall i, j :: 0 <= i < j < |xs| ==> less(xs[i], xs[j])
  }

  /** Insert before the first element that `x` precedes. */
  function InsertBy<T>(x: T, xs: seq<T>, less: (T, T) -> bool): seq<T> {
    if xs == [] then [x]
    else if less(x, xs[0]) then [x] + xs
    else [xs[0]] + InsertBy(x, xs[1..], less)
  }

  lemma {:induction false} InsertByElements<T(!new)>(x: T, xs: seq<T>, less: (T, T) -> bool)
    ensures forall y :: y in InsertBy(x, xs, less) <==> y == x || y in xs
    ensures multiset(InsertBy(x, xs, less)) == multiset{x} + multiset(xs)
  {
    if xs != [] {
      assert xs == [xs[0]] + xs[1..];
      InsertByElements(x, xs[1..], less);
    }
  }

  lemma {:induction false} InsertByAscends<T(!new)>(x: T, xs: seq<T>, less: (T, T) -> bool)
    requires StrictOrder(less) && Ascending(xs, less)
    requires forall y :: y in xs ==> less(x, y) || less(y, x)
    ensures Ascending(InsertBy(x, xs, less), less)
  {
    if xs != [] {
      if less(x, xs[0]) {
        forall j | 0 <= j < |xs| ensures less(x, xs[j]) {
          if j > 0 { assert less(xs[0], xs[j]); }
        }
      } else {
        InsertByAscends(x, xs[1..], less);
        InsertByElements(x, xs[1..], less);
        var rest := InsertBy(x, xs[1..], less);
        forall j | 0 <= j < |rest| ensures less(xs[0], rest[j]) {
          assert rest[j] in rest;
          if rest[j] != x {
            var k :| 0 <= k < |xs[1..]| && xs[1..][k] == rest[j];
            assert less(xs[0], xs[k + 1]);
          } else {
            assert xs[0] in xs;
          }
        }
      }
    }
  }

  lemma EmptyOrInhabited<T>(xs: seq<T>)
    ensures xs == [] || exists x :: x in xs
  {
    if xs != [] { assert xs[0] in xs; }
  }

  /** A strictly ascending list is determined by its elements alone. */
  lemma {:induction false} AscendingIsUnique<T(!new)>(a: seq<T>, b: seq<T>, less: (T, T) -> bool)
    requires StrictOrder(less) && Ascending(a, less) && Ascending(b, less)
    requires forall x :: x in a <==> x in b
    ensures a == b
  {
    EmptyOrInhabited(b);
    if a != [] {
      assert a[0] in b;
      assert b[0] in a;
      var a', b' := a[1..], b[1..];
      forall x | x in a' ensures x in b' {
        var k :| 0 <= k < |a'| && a'[k] == x;
        assert a[k + 1] == x && less(a[0], x) && x in b;
        var l :| 0 <= l < |b| && b[l] == x;
        assert b'[l - 1] == x;
      }
      forall x | x in b' ensures x in a' {
        var k :| 0 <= k < |b'| && b'[k] == x;
        assert b[k + 1] == x && less(b[0], x) && x in a;
        var l :| 0 <= l < |a| && a[l] == x;
        assert a'[l - 1] == x;
      }
      AscendingIsUnique(a', b', less);
      assert a == [a[0]] + a' && b == [b[0]] + b';
    }
  }

  // --------------------------------------------------------------- strings

  /** Lexicographic order on code points. */
  predicate TextLess(a: string, b: string) {
    b != [] && (a == [] || a[0] < b[0] || (a[0] == b[0] && TextLess(a[1..], b[1..])))
  }

  /** The texts agree up to `n`, where the first one ends or has the smaller character. */
  predicate DiffersAt(a: string, b: string, n: nat) {
    n <= |a| && n < |b| && a[..n] == b[..n] && (n == |a| || a[n] < b[n])
  }

  lemma {:induction false} TextLessMeaning(a: string, b: string)
    ensures TextLess(a, b) <==> exists n: nat :: DiffersAt(a, b, n)
  {
    if b == [] {
    } else if a == [] || a[0] < b[0] {
      assert DiffersAt(a, b, 0);
    } else if a[0] == b[0] {
      TextLessMeaning(a[1..], b[1..]);
      if n: nat :| DiffersAt(a[1..], b[1..], n) {
        assert a[..n + 1] == [a[0]] + a[1..][..n] && b[..n + 1] == [b[0]] + b[1..][..n];
        assert DiffersAt(a, b, n + 1);
      }
      if n: nat :| DiffersAt(a, b, n) {
        assert n > 0;
        assert a[1..][..n - 1] == a[..n][1..] && b[1..][..n - 1] == b[..n][1..];
        assert DiffersAt(a[1..], b[1..], n - 1);
      }
    } else {
      forall n: nat ensures !DiffersAt(a, b, n) {
        if n > 0 && n <= |a| && n <= |b| { assert a[..n][0] == a[0] && b[..n][0] == b[0]; }
      }
    }
  }

  lemma {:induction false} TextLessIrreflexive(a: string)
    ensures !TextLess(a, a)
  {
    if a != [] { TextLessIrreflexive(a[1..]); }
  }

  lemma {:induction false} TextLessTransitive(a: string, b: string, c: string)
    requires TextLess(a, b) && TextLess(b, c)
    ensures TextLess(a, c)
  {
    if a != [] && a[0] == b[0] == c[0] {
      TextLessTransitive(a[1..], b[1..], c[1..]);
    }
  }

  lemma {:induction false} TextLessTotal(a: string, b: string)
    ensures a == b || TextLess(a, b) || TextLess(b, a)
  {
    if a != [] && b != [] && a[0] == b[0] {
      TextLessTotal(a[1..], b[1..]);
      assert a == [a[0]] + a[1..] && b == [b[0]] + b[1..];
    }
  }

  // ----------------------------------------------------------- stable sort

  /** Insertion sort, descending by an integer-tuple style comparison: `before(x, y)`
      says x must come strictly before y. Elements neither of which must precede the
      other keep their order. */
  function StableSort<T>(xs: seq<T>, before: (T, T) -> bool): seq<T> {
    if xs == [] then []
    else PlaceFirst(xs[0], StableSort(xs[1..], before), before)
  }

  /** Put `x`, which stood first, ahead of every element not forced before it. */
  function PlaceFirst<T>(x: T, xs: seq<T>, before: (T, T) -> bool): seq<T> {
    if xs == [] then [x]
    else if before(xs[0], x) then [xs[0]] + PlaceFirst(x, xs[1..], before)
    else [x] + xs
  }

  /** A strict weak order: incomparability is transitive. */
  ghost predicate WeakOrder<T(!new)>(before: (T, T) -> bool) {
    && (forall x :: !before(x, x))
    && (forall x, y, z :: before(x, y) && before(y, z) ==> before(x, z))
    && (forall x, y, z :: before(x, z) ==> before(x, y) || before(y, z))
  }

  ghost predicate Sorted<T(!new)>(xs: seq<T>, before: (T, T) -> bool) {
    forall i, j :: 0 <= i < j < |xs| ==> !before(xs[j], xs[i])
  }

  /** The elements of `xs` that tie with `x`, in their order of appearance. */
  function Ties<T>(xs: seq<T>, x: T, before: (T, T) -> bool): seq<T> {
    if xs == [] then []
    else (if !before(xs[0], x) && !before(x, xs[0]) then [xs[0]] else []) + Ties(xs[1..], x, before)
  }

  lemma SortedCons<T(!new)>(x: T, xs: seq<T>, before: (T, T) -> bool)
    requires Sorted(xs, before) && forall y :: y in xs ==> !before(y, x)
    ensures Sorted([x] + xs, before)
  {
  }

  lemma {:induction false} PlaceFirstElements<T(!new)>(x: T, xs: seq<T>, before: (T, T) -> bool)
    ensures multiset(PlaceFirst(x, xs, before)) == multiset{x} + multiset(xs)
    ensures |PlaceFirst(x, xs, before)| == |xs| + 1
    ensures forall y :: y in PlaceFirst(x, xs, before) <==> y == x || y in xs
  {
    if xs != [] {
      assert xs == [xs[0]] + xs[1..];
      PlaceFirstElements(x, xs[1..], before);
    }
  }

  lemma {:induction false} PlaceFirstSorted<T(!new)>(x: T, xs: seq<T>, before: (T, T) -> bool)
    requires WeakOrder(before) && Sorted(xs, before)
    ensures Sorted(PlaceFirst(x, xs, before), before)
  {
    if xs != [] {
      if before(xs[0], x) {
        PlaceFirstSorted(x, xs[1..], before);
        PlaceFirstElements(x, xs[1..], before);
        SortedCons(xs[0], PlaceFirst(x, xs[1..], before), before);
      } else {
        assert xs == [xs[0]] + xs[1..];
        SortedCons(x, xs, before);
      }
    }
  }

  lemma {:induction false} PlaceFirstTies<T(!new)>(x: T, xs: seq<T>, y: T, before: (T, T) -> bool)
    requires WeakOrder(before)
    ensures Ties(PlaceFirst(x, xs, before), y, before) == Ties([x] + xs, y, before)
  {
    assert ([x] + xs)[1..] == xs;
    if xs != [] && before(xs[0], x) {
      PlaceFirstTies(x, xs[1..], y, before);
      assert ([x] + xs[1..])[1..] == xs[1..];
      var placed := PlaceFirst(x, xs, before);
      assert placed[1..] == PlaceFirst(x, xs[1..], before);
    }
  }

  /** The whole contract of a stable sort: a permutation, in order, in which every
      class of ties keeps its original order. */
  lemma {:induction false} StableSortIsStable<T(!new)>(xs: seq<T>, before: (T, T) -> bool)
    requires WeakOrder(before)
    ensures multiset(StableSort(xs, before)) == multiset(xs)
    ensures |StableSort(xs, before)| == |xs|
    ensures Sorted(StableSort(xs, before), before)
    ensures forall y :: Ties(StableSort(xs, before), y, before) == Ties(xs, y, before)
  {
    if xs != [] {
      assert xs == [xs[0]] + xs[1..];
      StableSortIsStable(xs[1..], before);
      var rest := StableSort(xs[1..], before);
      PlaceFirstElements(xs[0], rest, before);
      PlaceFirstSorted(xs[0], rest, before);
      forall y ensures Ties(StableSort(xs, before), y, before) == Ties(xs, y, before) {
        PlaceFirstTies(xs[0], rest, y, before);
        assert ([xs[0]] + rest)[1..] == rest;
      }
    }
  }

  /** Only comparisons of a later element with an earlier one matter. */
  lemma {:induction false} StableSortAgrees<T(!new)>(xs: seq<T>, b1: (T, T) -> bool, b2: (T, T) -> bool)
    requires forall i, j :: 0 <= i < j < |xs| ==> b1(xs[j], xs[i]) == b2(xs[j], xs[i])
    ensures StableSort(xs, b1) == StableSort(xs, b2)
    ensures forall y :: y in StableSort(xs, b1) ==> y in xs
  {
    if xs != [] {
      var rest := xs[1..];
      forall i, j | 0 <= i < j < |rest| ensures b1(rest[j], rest[i]) == b2(rest[j], rest[i]) {
        assert rest[i] == xs[i + 1] && rest[j] == xs[j + 1];
      }
      StableSortAgrees(rest, b1, b2);
      forall y | y in StableSort(rest, b1) ensures y in xs && b1(y, xs[0]) == b2(y, xs[0]) {
        var k :| 0 <= k < |rest| && rest[k] == y;
        assert xs[k + 1] == y;
      }
      PlaceFirstAgrees(xs[0], StableSort(rest, b1), b1, b2);
      PlaceFirstElements(xs[0], StableSort(rest, b1), b1);
    }
  }

  lemma {:induction false} PlaceFirstAgrees<T(!new)>(x: T, xs: seq<T>, b1: (T, T) -> bool, b2: (T, T) -> bool)
    requires forall y :: y in xs ==> b1(y, x) == b2(y, x)
    ensures PlaceFirst(x, xs, b1) == PlaceFirst(x, xs, b2)
  {
    if xs != [] {
      assert forall y :: y in xs[1..] ==> y in xs;
      PlaceFirstAgrees(x, xs[1..], b1, b2);
    }
  }

  // ------------------------------------------------------------------ ties

  /** `u` occurs somewhere ahead of `v`. */
  ghost predicate Ahead<T(!new)>(xs: seq<T>, u: T, v: T) {
    exists i, j :: 0 <= i < j < |xs| && xs[i] == u && xs[j] == v
  }

  predicate Tied<T>(x: T, y: T, before: (T, T) -> bool) { !before(x, y) && !before(y, x) }

  lemma {:induction false} TiesElements<T(!new)>(xs: seq<T>, x: T, before: (T, T) -> bool)
    ensures forall y :: y in Ties(xs, x, before) <==> y in xs && Tied(y, x, before)
  {
    if xs != [] {
      assert xs == [xs[0]] + xs[1..];
      TiesElements(xs[1..], x, before);
    }
  }

  lemma AheadCons<T(!new)>(x: T, xs: seq<T>, u: T, v: T)
    ensures Ahead([x] + xs, u, v) <==> (x == u && v in xs) || Ahead(xs, u, v)
  {
    var all := [x] + xs;
    if Ahead(all, u, v) {
      var i, j :| 0 <= i < j < |all| && all[i] == u && all[j] == v;
      assert all[j] == xs[j - 1];
      if i > 0 { assert xs[i - 1] == u && xs[j - 1] == v; }
    }
    if x == u && v in xs {
      var k :| 0 <= k < |xs| && xs[k] == v;
      assert all[0] == u && all[k + 1] == v;
    }
    if Ahead(xs, u, v) {
      var i, j :| 0 <= i < j < |xs| && xs[i] == u && xs[j] == v;
      assert all[i + 1] == u && all[j + 1] == v;
    }
  }

  /** A class of ties keeps, and does not invent, the order of its members. */
  lemma {:induction false} TiesKeepOrder<T(!new)>(xs: seq<T>, x: T, before: (T, T) -> bool, u: T, v: T)
    requires Tied(u, x, before) && Tied(v, x, before)
    ensures Ahead(Ties(xs, x, before), u, v) <==> Ahead(xs, u, v)
  {
    if xs != [] {
      var rest := xs[1..];
      assert xs == [xs[0]] + rest;
      TiesKeepOrder(rest, x, before, u, v);
      TiesElements(rest, x, before);
      AheadCons(xs[0], rest, u, v);
      AheadCons(xs[0], Ties(rest, x, before), u, v);
      hide Ahead;
      if Tied(xs[0], x, before) {
        assert Ties(xs, x, before) == [xs[0]] + Ties(rest, x, before);
      } else {
        assert Ties(xs, x, before) == Ties(rest, x, before);
      }
    }
  }

  lemma TiesCons<T>(x: T, xs: seq<T>, y: T, before: (T, T) -> bool)
    ensures Ties([x] + xs, y, before) == (if Tied(x, y, before) then [x] else []) + Ties(xs, y, before)
  {
    assert ([x] + xs)[1..] == xs;
  }

  lemma SameHead<T(!new)>(a: seq<T>, b: seq<T>, before: (T, T) -> bool)
    requires WeakOrder(before) && Sorted(a, before) && Sorted(b, before) && a != [] && b != []
    requires forall y :: Ties(a, y, before) == Ties(b, y, before)
    ensures a[0] == b[0]
  {
    var x, z := a[0], b[0];
    TiesElements(a, x, before);
    TiesElements(b, x, before);
    TiesElements(a, z, before);
    TiesElements(b, z, before);
    assert x in Ties(a, x, before) && z in Ties(b, z, before);
    TiesCons(x, a[1..], x, before);
    TiesCons(z, b[1..], x, before);
    assert a == [x] + a[1..] && b == [z] + b[1..];
    assert Ties(a, x, before)[0] == x && Ties(b, x, before)[0] == z;
  }

  lemma SameTiesSameMembers<T(!new)>(a: seq<T>, b: seq<T>, before: (T, T) -> bool)
    requires WeakOrder(before) && forall y :: Ties(a, y, before) == Ties(b, y, before)
    ensures forall x :: x in a <==> x in b
  {
    forall x ensures x in a <==> x in b {
      TiesElements(a, x, before);
      TiesElements(b, x, before);
      assert x in a <==> x in Ties(a, x, before);
    }
  }

  /** The three clauses of a stable sort determine its result: whatever algorithm
      keeps them returns the same list. */
  lemma {:induction false} StableSortIsUnique<T(!new)>(a: seq<T>, b: seq<T>, before: (T, T) -> bool)
    requires WeakOrder(before) && Sorted(a, before) && Sorted(b, before)
    requires forall y :: Ties(a, y, before) == Ties(b, y, before)
    ensures a == b
    decreases |a|
  {
    SameTiesSameMembers(a, b, before);
    EmptyOrInhabited(a);
    EmptyOrInhabited(b);
    if a != [] {
      SameHead(a, b, before);
      var x, a', b' := a[0], a[1..], b[1..];
      assert a == [x] + a' && b == [x] + b';
      forall y ensures Ties(a', y, before) == Ties(b', y, before) {
        TiesCons(x, a', y, before);
        TiesCons(x, b', y, before);
        var head := if Tied(x, y, before) then [x] else [];
        assert Ties(a', y, before) == (head + Ties(a', y, before))[|head|..];
        assert Ties(b', y, before) == (head + Ties(b', y, before))[|head|..];
      }
      StableSortIsUnique(a', b', before);
    }
  }

  lemma {:induction false} TiesConcat<T(!new)>(a: seq<T>, b: seq<T>, y: T, before: (T, T) -> bool)
    ensures Ties(a + b, y, before) == Ties(a, y, before) + Ties(b, y, before)
    decreases |a|
  {
    if a == [] {
      assert a + b == b;
    } else {
      assert (a + b)[0] == a[0] && (a + b)[1..] == a[1..] + b;
      TiesConcat(a[1..], b, y, before);
    }
  }

  function Swapped<T>(xs: seq<T>, j: nat): seq<T>
    requires 0 < j < |xs|
  {
    xs[j - 1 := xs[j]][j := xs[j - 1]]
  }

  lemma TiesAroundSwap<T(!new)>(pre: seq<T>, u: T, v: T, post: seq<T>, y: T, before: (T, T) -> bool)
    requires WeakOrder(before) && before(v, u)
    ensures Ties(pre + ([v] + ([u] + post)), y, before) == Ties(pre + ([u] + ([v] + post)), y, before)
  {
    TiesConcat(pre, [u] + ([v] + post), y, before);
    TiesConcat(pre, [v] + ([u] + post), y, before);
    TiesCons(u, [v] + post, y, before);
    TiesCons(v, post, y, before);
    TiesCons(v, [u] + post, y, before);
    TiesCons(u, post, y, before);
    assert !(Tied(u, y, before) && Tied(v, y, before));
    hide Ties;
  }

  lemma SwapParts<T>(xs: seq<T>, j: nat)
    requires 0 < j < |xs|
    ensures xs == xs[..j - 1] + ([xs[j - 1]] + ([xs[j]] + xs[j + 1..]))
    ensures Swapped(xs, j) == xs[..j - 1] + ([xs[j]] + ([xs[j - 1]] + xs[j + 1..]))
  {
  }

  /** Swapping two neighbours that stand in the wrong order moves nothing inside any
      class of ties. */
  lemma SwapKeepsTies<T(!new)>(xs: seq<T>, j: nat, before: (T, T) -> bool)
    requires WeakOrder(before) && 0 < j < |xs| && before(xs[j], xs[j - 1])
    ensures forall y :: Ties(Swapped(xs, j), y, before) == Ties(xs, y, before)
    ensures multiset(Swapped(xs, j)) == multiset(xs)
  {
    hide Ties, Swapped;
    SwapParts(xs, j);
    var pre, u, v, post := xs[..j - 1], xs[j - 1], xs[j], xs[j + 1..];
    forall y ensures Ties(Swapped(xs, j), y, before) == Ties(xs, y, before) {
      TiesAroundSwap(pre, u, v, post, y, before);
    }
    assert multiset(pre + ([u] + ([v] + post))) == multiset(pre) + multiset{u} + multiset{v} + multiset(post);
    assert multiset(pre + ([v] + ([u] + post))) == multiset(pre) + multiset{u} + multiset{v} + multiset(post);
  }

  // ------------------------------------------------------ insertion in place

  /** A rearrangement that never reorders ties. */
  ghost predicate StablyPermutes<T(!new)>(xs: seq<T>, ys: seq<T>, before: (T, T) -> bool) {
    multiset(xs) == multiset(ys) && forall y :: Ties(xs, y, before) == Ties(ys, y, before)
  }

  /** The first `i + 1` elements are in order but for the one being moved down to `j`. */
  ghost predicate Inserting<T(!new)>(xs: seq<T>, i: nat, j: nat, before: (T, T) -> bool) {
    j <= i < |xs| && forall p, q :: 0 <= p < q <= i && q != j ==> !before(xs[q], xs[p])
  }

  lemma InsertingMoves<T(!new)>(xs: seq<T>, i: nat, j: nat, before: (T, T) -> bool)
    requires WeakOrder(before) && Inserting(xs, i, j, before) && j > 0 && before(xs[j], xs[j - 1])
    ensures Inserting(Swapped(xs, j), i, j - 1, before)
    ensures StablyPermutes(Swapped(xs, j), xs, before)
  {
    SwapKeepsTies(xs, j, before);
    hide Ties;
  }

  lemma NotBeforeChains<T(!new)>(x: T, y: T, z: T, before: (T, T) -> bool)
    requires WeakOrder(before) && !before(x, y) && !before(y, z)
    ensures !before(x, z)
  {
  }

  lemma InsertingEnds<T(!new)>(xs: seq<T>, i: nat, j: nat, before: (T, T) -> bool)
    requires WeakOrder(before) && Inserting(xs, i, j, before) && (j == 0 || !before(xs[j], xs[j - 1]))
    ensures Sorted(xs[..i + 1], before)
  {
    forall p | 0 <= p < j ensures !before(xs[j], xs[p]) {
      NotBeforeChains(xs[j], xs[j - 1], xs[p], before);
    }
  }
}
