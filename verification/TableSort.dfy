/** `table.sort` (auxsort and set2, ltablib.c:174-254) on the elements 1..n of a table. */
module TableSort {
  import opened Wrappers

  /** A strict weak order: incomparable elements are as good as equal. */
  ghost predicate StrictWeak<T(!new)>(lt: (T, T) -> bool) {
    && (forall x, y :: lt(x, y) ==> !lt(y, x))
    && (forall x, y, z :: lt(x, y) ==> lt(x, z) || lt(z, y))
  }

  predicate Le<T>(lt: (T, T) -> bool, x: T, y: T) { !lt(y, x) }

  lemma LeSelf<T(!new)>(lt: (T, T) -> bool, x: T)
    requires StrictWeak(lt)
    ensures Le(lt, x, x)
  {
  }

  /** Element `i`, counted from 1. */
  function E<T>(a: seq<T>, i: int): T
    requires 1 <= i <= |a|
  {
    a[i - 1]
  }

  ghost predicate InOrder<T(!new)>(lt: (T, T) -> bool, a: seq<T>, x: int, y: int)
    requires 1 <= x <= |a| && 1 <= y <= |a|
  {
    Le(lt, E(a, x), E(a, y))
  }

  ghost predicate Sorted<T(!new)>(lt: (T, T) -> bool, a: seq<T>, l: int, u: int)
    requires 1 <= l && u <= |a|
  {
    forall x, y :: l <= x < y <= u ==> InOrder(lt, a, x, y)
  }

  /** Sorted from `l0` to `u0`, but for pairs that lie within l..u. */
  ghost predicate SortedOutside<T(!new)>(lt: (T, T) -> bool, a: seq<T>, l0: int, u0: int, l: int, u: int)
    requires 1 <= l0 && u0 <= |a|
  {
    forall x, y :: l0 <= x < y <= u0 && !(l <= x && y <= u) ==> InOrder(lt, a, x, y)
  }

  // ----- rearrangements -----

  /** `b` is `a` with the elements l..u permuted. */
  ghost predicate Rearranged<T(!new)>(a: seq<T>, b: seq<T>, l: int, u: int)
    requires 1 <= l <= u + 1 <= |a| + 1
  {
    && |b| == |a| && b[..l - 1] == a[..l - 1] && b[u..] == a[u..]
    && multiset(b[l - 1..u]) == multiset(a[l - 1..u])
  }

  lemma RearrangedSelf<T(!new)>(a: seq<T>, l: int, u: int)
    requires 1 <= l <= u + 1 <= |a| + 1
    ensures Rearranged(a, a, l, u)
  {
  }

  lemma RearrangedTwice<T(!new)>(a: seq<T>, b: seq<T>, c: seq<T>, l: int, u: int)
    requires 1 <= l <= u + 1 <= |a| + 1 && Rearranged(a, b, l, u) && Rearranged(b, c, l, u)
    ensures Rearranged(a, c, l, u)
  {
  }

  /** A permutation of a part is one of the whole. */
  lemma Widen<T(!new)>(a: seq<T>, b: seq<T>, l: int, u: int, l0: int, u0: int)
    requires 1 <= l0 <= l <= u + 1 <= u0 + 1 <= |a| + 1 && Rearranged(a, b, l, u)
    ensures Rearranged(a, b, l0, u0)
  {
    assert a[l0 - 1..u0] == a[l0 - 1..l - 1] + a[l - 1..u] + a[u..u0];
    assert b[l0 - 1..u0] == b[l0 - 1..l - 1] + b[l - 1..u] + b[u..u0];
    assert a[l0 - 1..l - 1] == a[..l - 1][l0 - 1..] && b[l0 - 1..l - 1] == b[..l - 1][l0 - 1..];
    assert a[u..u0] == a[u..][..u0 - u] && b[u..u0] == b[u..][..u0 - u];
    assert a[..l0 - 1] == a[..l - 1][..l0 - 1] && b[..l0 - 1] == b[..l - 1][..l0 - 1];
    assert a[u0..] == a[u..][u0 - u..] && b[u0..] == b[u..][u0 - u..];
  }

  /** Where an element of a rearranged part was before. */
  lemma Before<T(!new)>(a: seq<T>, b: seq<T>, l: int, u: int, i: int) returns (j: int)
    requires 1 <= l <= u + 1 <= |a| + 1 && Rearranged(a, b, l, u) && 1 <= i <= |b|
    ensures 1 <= j <= |a| && E(a, j) == E(b, i) && (l <= i <= u ==> l <= j <= u) && (i < l || i > u ==> j == i)
  {
    if l <= i <= u {
      assert b[l - 1..u][i - l] == E(b, i);
      assert E(b, i) in multiset(b[l - 1..u]);
      assert E(b, i) in multiset(a[l - 1..u]);
      var k :| 0 <= k < u - l + 1 && a[l - 1..u][k] == E(b, i);
      j := l + k;
    } else {
      j := i;
      if i < l { assert a[..l - 1][i - 1] == b[..l - 1][i - 1]; } else { assert a[u..][i - 1 - u] == b[u..][i - 1 - u]; }
    }
  }

  function Swapped<T>(a: seq<T>, i: int, j: int): seq<T>
    requires 1 <= i <= |a| && 1 <= j <= |a|
  {
    a[i - 1 := E(a, j)][j - 1 := E(a, i)]
  }

  lemma SwapRearranges<T(!new)>(a: seq<T>, i: int, j: int, l: int, u: int)
    requires 1 <= l <= i <= u <= |a| && l <= j <= u
    ensures Rearranged(a, Swapped(a, i, j), l, u) && |Swapped(a, i, j)| == |a|
  {
    hide Swapped;
    SwappedParts(a, i, j, l, u);
    SwapMultiset(a[l - 1..u], i - l, j - l);
  }

  lemma SwappedParts<T(!new)>(a: seq<T>, i: int, j: int, l: int, u: int)
    requires 1 <= l <= i <= u <= |a| && l <= j <= u
    ensures var b := Swapped(a, i, j); |b| == |a| && b[..l - 1] == a[..l - 1] && b[u..] == a[u..]
    ensures var s := a[l - 1..u]; Swapped(a, i, j)[l - 1..u] == s[i - l := s[j - l]][j - l := s[i - l]]
  {
  }

  lemma EndsSwapped<T(!new)>(lt: (T, T) -> bool, a: seq<T>, l: int, u: int)
    requires StrictWeak(lt) && 1 <= l < u <= |a| && lt(E(a, u), E(a, l))
    ensures |Swapped(a, l, u)| == |a| && InOrder(lt, Swapped(a, l, u), l, u)
  {
  }

  /** Three elements are put in order once the outer ones are. */
  lemma MiddleLowered<T(!new)>(lt: (T, T) -> bool, a: seq<T>, l: int, i: int, u: int)
    requires StrictWeak(lt) && 1 <= l < i < u <= |a| && InOrder(lt, a, l, u) && lt(E(a, i), E(a, l))
    ensures var b := Swapped(a, i, l); |b| == |a| && InOrder(lt, b, l, i) && InOrder(lt, b, i, u) && InOrder(lt, b, l, u)
  {
  }

  lemma MiddleRaised<T(!new)>(lt: (T, T) -> bool, a: seq<T>, l: int, i: int, u: int)
    requires StrictWeak(lt) && 1 <= l < i < u <= |a| && InOrder(lt, a, l, i) && lt(E(a, u), E(a, i))
    requires InOrder(lt, a, l, u)
    ensures var b := Swapped(a, i, u); |b| == |a| && InOrder(lt, b, l, i) && InOrder(lt, b, i, u) && InOrder(lt, b, l, u)
  {
  }

  lemma SwapMultiset<T(!new)>(s: seq<T>, p: int, q: int)
    requires 0 <= p < |s| && 0 <= q < |s|
    ensures multiset(s[p := s[q]][q := s[p]]) == multiset(s)
  {
    var s1 := s[p := s[q]];
    assert multiset(s1) == multiset(s) - multiset{s[p]} + multiset{s[q]};
    assert multiset(s1[q := s[p]]) == multiset(s1) - multiset{s1[q]} + multiset{s[p]};
    assert s1[q] == s[q];
  }

  // ----- the partition -----

  /** After partitioning, element `i` is the pivot: nothing before it is greater, nothing behind it
      less. */
  ghost predicate Split<T(!new)>(lt: (T, T) -> bool, a: seq<T>, l: int, u: int, i: int)
    requires 1 <= l <= i <= u <= |a|
  {
    && (forall x :: l <= x < i ==> InOrder(lt, a, x, i))
    && (forall x :: i < x <= u ==> InOrder(lt, a, i, x))
  }

  ghost predicate AllLe<T(!new)>(lt: (T, T) -> bool, a: seq<T>, l: int, i: int, p: T)
    requires 1 <= l && i <= |a|
  {
    forall x :: l <= x <= i ==> Le(lt, E(a, x), p)
  }

  ghost predicate AllGe<T(!new)>(lt: (T, T) -> bool, a: seq<T>, j: int, u: int, p: T)
    requires 1 <= j && u <= |a|
  {
    forall x :: j <= x <= u ==> Le(lt, p, E(a, x))
  }

  lemma PartitionStarts<T(!new)>(lt: (T, T) -> bool, a: seq<T>, l: int, u: int, m: int)
    requires StrictWeak(lt) && 1 <= l < m < u <= |a| && u - l >= 3 && InOrder(lt, a, l, m) && InOrder(lt, a, m, u)
    ensures var b := Swapped(a, m, u - 1); AllLe(lt, b, l, l, E(a, m)) && AllGe(lt, b, u - 1, u, E(a, m)) && E(b, u - 1) == E(a, m)
  {
    LeSelf(lt, E(a, m));
  }

  lemma Ends<T(!new)>(lt: (T, T) -> bool, a: seq<T>, l: int, i: int, j: int, u: int, p: T)
    requires 1 <= l <= i <= j < u <= |a| && l < j && AllLe(lt, a, l, i, p) && AllGe(lt, a, j, u, p)
    ensures Le(lt, p, E(a, if i < j then j else i + 1)) && Le(lt, E(a, if i < j then i else j - 1), p)
  {
  }

  lemma Extended<T(!new)>(lt: (T, T) -> bool, a: seq<T>, l: int, i0: int, i: int, j: int, j0: int, u: int, p: T)
    requires 1 <= l <= i0 < i <= |a| + 1 && 0 <= j < j0 <= u <= |a|
    requires AllLe(lt, a, l, i0, p) && AllGe(lt, a, j0, u, p) && AllLe(lt, a, i0 + 1, i - 1, p) && AllGe(lt, a, j + 1, j0 - 1, p)
    ensures AllLe(lt, a, l, i - 1, p) && AllGe(lt, a, j + 1, u, p)
  {
  }

  lemma SwapBounds<T(!new)>(lt: (T, T) -> bool, a: seq<T>, l: int, i: int, j: int, u: int, p: T)
    requires 1 <= l < i <= j < u - 1 < |a| && AllLe(lt, a, l, i - 1, p) && AllGe(lt, a, j + 1, u, p)
    requires Le(lt, p, E(a, i)) && Le(lt, E(a, j), p)
    ensures var b := Swapped(a, i, j); AllLe(lt, b, l, i, p) && AllGe(lt, b, j, u, p) && E(b, u - 1) == E(a, u - 1)
  {
    var b := Swapped(a, i, j);
    forall x | l <= x <= i ensures Le(lt, E(b, x), p) { assert x < i ==> Le(lt, E(a, x), p); }
    forall x | j <= x <= u ensures Le(lt, p, E(b, x)) { assert x > j ==> Le(lt, p, E(a, x)); }
  }

  lemma SplitDone<T(!new)>(lt: (T, T) -> bool, a: seq<T>, l: int, i: int, j: int, u: int, p: T)
    requires 1 <= l < i <= u - 1 < |a| && 0 <= j < i && AllLe(lt, a, l, i - 1, p) && AllGe(lt, a, j + 1, u, p) && E(a, u - 1) == p
    ensures Split(lt, Swapped(a, u - 1, i), l, u, i)
  {
    var b := Swapped(a, u - 1, i);
    forall x | l <= x < i ensures InOrder(lt, b, x, i) { assert Le(lt, E(a, x), p); }
    forall x | i < x <= u ensures InOrder(lt, b, i, x) { assert Le(lt, p, E(a, if x == u - 1 then i else x)); }
  }

  /** Permuting l..u leaves the order around it. */
  lemma Inside<T(!new)>(lt: (T, T) -> bool, a0: seq<T>, a: seq<T>, b: seq<T>, l: int, u: int, l0: int, u0: int)
    requires 1 <= l0 <= l <= u + 1 <= u0 + 1 <= |a| + 1 && |a0| == |a| && Rearranged(a0, a, l0, u0) && Rearranged(a, b, l, u)
    requires SortedOutside(lt, a, l0, u0, l, u)
    ensures |b| == |a| && Rearranged(a0, b, l0, u0) && SortedOutside(lt, b, l0, u0, l, u)
  {
    Widen(a, b, l, u, l0, u0);
    RearrangedTwice(a0, a, b, l0, u0);
    forall x, y | l0 <= x < y <= u0 && !(l <= x && y <= u) ensures InOrder(lt, b, x, y) {
      var x' := Before(a, b, l, u, x);
      var y' := Before(a, b, l, u, y);
      assert InOrder(lt, a, x', y');
    }
  }

  lemma ThreeSorted<T(!new)>(lt: (T, T) -> bool, a: seq<T>, l: int, u: int, i: int, l0: int, u0: int)
    requires 1 <= l0 <= l < u <= u0 <= |a| && u - l <= 2 && SortedOutside(lt, a, l0, u0, l, u)
    requires InOrder(lt, a, l, u) && (u - l == 2 ==> i == l + 1 && InOrder(lt, a, l, i) && InOrder(lt, a, i, u))
    ensures Sorted(lt, a, l0, u0)
  {
  }

  lemma HalfDepth(n: nat, m: nat, d: nat)
    requires 1 < n < Pow2(d) && 2 * m <= n - 1
    ensures d >= 2 && m < Pow2(d - 1)
  {
  }

  /** The number of bits of `n`. */
  function Depth(n: nat): (d: nat)
    ensures n < Pow2(d)
    ensures if n > 0 then d > 0 && Pow2(d - 1) <= n else d == 0
  {
    if n == 0 then 0 else 1 + Depth(n / 2)
  }

  lemma {:induction false} DepthFits(n: nat, d: nat)
    requires d == Max(Depth(n), 1)
    ensures n < Pow2(d)
  {
    Pow2Grows(Depth(n), d);
  }

  lemma {:induction false} DepthKept(n: nat, d: nat, deepest: nat)
    requires d == Max(Depth(n), 1) && 0 < deepest <= d
    ensures Pow2(deepest - 1) <= Max(n, 1)
  {
    hide Depth;
    Pow2Grows(deepest - 1, d - 1);
  }

  lemma RearrangedWhole<T(!new)>(a: seq<T>, b: seq<T>)
    requires Rearranged(a, b, 1, |a|)
    ensures |b| == |a| && multiset(b) == multiset(a)
  {
    assert a[0..|a|] == a && b[0..|b|] == b;
  }

  lemma OutsideDone<T(!new)>(lt: (T, T) -> bool, a: seq<T>, l0: int, u0: int, l: int, u: int)
    requires 1 <= l0 && u0 <= |a|
    ensures l == l0 && u == u0 ==> SortedOutside(lt, a, l0, u0, l, u)
    ensures l >= u && SortedOutside(lt, a, l0, u0, l, u) ==> Sorted(lt, a, l0, u0)
  {
  }

  /** Once the part j..i is sorted only the part l..u on the other side of the pivot is left. */
  lemma PartSorted<T(!new)>(lt: (T, T) -> bool, a0: seq<T>, a: seq<T>, b: seq<T>, lo: int, hi: int, p: int,
                            j: int, i: int, l: int, u: int, l0: int, u0: int)
    requires StrictWeak(lt) && 1 <= l0 <= lo <= p <= hi <= u0 <= |a| && |a0| == |a|
    requires Rearranged(a0, a, l0, u0) && SortedOutside(lt, a, l0, u0, lo, hi) && Split(lt, a, lo, hi, p)
    requires (j == lo && i == p - 1 && l == p + 1 && u == hi) || (j == p + 1 && i == hi && l == lo && u == p - 1)
    requires Rearranged(a, b, j, i) && Sorted(lt, b, j, i)
    ensures |b| == |a| && Rearranged(a0, b, l0, u0) && SortedOutside(lt, b, l0, u0, l, u)
  {
    Widen(a, b, j, i, lo, hi);
    Inside(lt, a0, a, b, lo, hi, l0, u0);
    forall x, y | l0 <= x < y <= u0 && !(l <= x && y <= u) ensures InOrder(lt, b, x, y) {
      if lo <= x && y <= hi {
        if j <= x && y <= i {
          assert InOrder(lt, b, x, y);
        } else {
          AcrossPivot(lt, a, b, lo, hi, p, j, i, x, y);
        }
      } else {
        assert InOrder(lt, b, x, y);
      }
    }
  }

  lemma AcrossPivot<T(!new)>(lt: (T, T) -> bool, a: seq<T>, b: seq<T>, lo: int, hi: int, p: int, j: int, i: int, x: int, y: int)
    requires StrictWeak(lt) && 1 <= lo <= p <= hi <= |a| && Split(lt, a, lo, hi, p)
    requires (j == lo && i == p - 1) || (j == p + 1 && i == hi)
    requires Rearranged(a, b, j, i) && lo <= x <= p <= y <= hi && x < y
    ensures InOrder(lt, b, x, y)
  {
    var x' := Before(a, b, j, i, x);
    var y' := Before(a, b, j, i, y);
    var p' := Before(a, b, j, i, p);
    assert p' == p;
    assert x < p ==> InOrder(lt, a, x', p);
    assert p < y ==> InOrder(lt, a, p, y');
  }

  class Sorter<T(!new)> {
    const lt: (T, T) -> bool
    var a: seq<T>
    /** The calls of `auxsort` under way, and the most there have been. */
    ghost var depth: nat
    ghost var deepest: nat

    constructor (a: seq<T>, lt: (T, T) -> bool)
      ensures this.a == a && this.lt == lt
    {
      this.a := a;
      this.lt := lt;
    }

    /** `set2`, after reading both elements. */
    method Swap(i: int, j: int)
      requires 1 <= i <= |a| && 1 <= j <= |a|
      modifies this`a
      ensures a == Swapped(old(a), i, j)
    {
      a := a[i - 1 := E(a, j)][j - 1 := E(a, i)];
    }

    /** The start of a round of `auxsort`: the first, middle and last elements are put in order. */
    method MedianOfThree(l: int, u: int) returns (i: int)
      requires StrictWeak(lt) && 1 <= l < u <= |a|
      modifies this`a
      ensures Rearranged(old(a), a, l, u) && l <= i < u && InOrder(lt, a, l, u)
      ensures u - l >= 2 ==> l < i && InOrder(lt, a, l, i) && InOrder(lt, a, i, u)
    {
      hide Rearranged, StrictWeak, Swapped;
      ghost var a0 := a;
      RearrangedSelf(a, l, u);
      if lt(E(a, u), E(a, l)) {
        SwapRearranges(a, l, u, l, u);
        EndsSwapped(lt, a, l, u);
        Swap(l, u);
      }
      i := l;
      if u - l == 1 {
        return;
      }
      i := (l + u) / 2;
      ghost var a1 := a;
      if lt(E(a, i), E(a, l)) {
        SwapRearranges(a, i, l, l, u);
        MiddleLowered(lt, a, l, i, u);
        Swap(i, l);
        RearrangedTwice(a0, a1, a, l, u);
      } else if lt(E(a, u), E(a, i)) {
        SwapRearranges(a, i, u, l, u);
        MiddleRaised(lt, a, l, i, u);
        Swap(i, u);
        RearrangedTwice(a0, a1, a, l, u);
      }
    }

    /** The inner loop of `auxsort` that raises `i`. With a strict weak order it stops within the
        bounds, at `stop` at the latest, and "invalid order function" is never raised. */
    method ScanUp(start: int, pivot: T, u: int, ghost stop: int) returns (i: int)
      requires StrictWeak(lt) && 1 <= start <= stop <= u <= |a| && Le(lt, pivot, E(a, stop))
      ensures start <= i <= stop && Le(lt, pivot, E(a, i)) && AllLe(lt, a, start, i - 1, pivot)
    {
      i := start;
      while lt(E(a, i), pivot)
        invariant start <= i <= stop && forall x :: start <= x < i ==> Le(lt, E(a, x), pivot)
        decreases u - i
      {
        if i > u { assert false; }
        i := i + 1;
      }
    }

    /** The inner loop that lowers `j`. */
    method ScanDown(start: int, pivot: T, l: int, ghost stop: int) returns (j: int)
      requires StrictWeak(lt) && 1 <= l <= stop <= start <= |a| && Le(lt, E(a, stop), pivot)
      ensures stop <= j <= start && Le(lt, E(a, j), pivot) && AllGe(lt, a, j + 1, start, pivot)
    {
      j := start;
      while lt(pivot, E(a, j))
        invariant stop <= j <= start && forall x :: j < x <= start ==> Le(lt, pivot, E(a, x))
        decreases j
      {
        if j < l { assert false; }
        j := j - 1;
      }
    }

    /** The partition of `auxsort` around the middle element `m`. */
    method Partition(l: int, u: int, m: int) returns (i: int)
      requires StrictWeak(lt) && 1 <= l < m < u <= |a| && u - l >= 3
      requires InOrder(lt, a, l, m) && InOrder(lt, a, m, u)
      modifies this`a
      ensures Rearranged(old(a), a, l, u) && l < i < u && Split(lt, a, l, u, i)
    {
      hide Rearranged, StrictWeak, AllLe, AllGe, Split, Swapped;
      ghost var a0 := a;
      var pivot := E(a, m);
      SwapRearranges(a, m, u - 1, l, u);
      PartitionStarts(lt, a, l, u, m);
      Swap(m, u - 1);
      i := l;
      var j := u - 1;
      while true
        invariant l <= i <= j < u && i < u - 1 && l < j && |a| == |a0| && Rearranged(a0, a, l, u) && E(a, u - 1) == pivot
        invariant AllLe(lt, a, l, i, pivot) && AllGe(lt, a, j, u, pivot)
        decreases u - i
      {
        ghost var i0, j0 := i, j;
        Ends(lt, a, l, i, j, u, pivot);
        i := ScanUp(i + 1, pivot, u, if i < j then j else i + 1);
        j := ScanDown(j - 1, pivot, l, if i0 < j then i0 else j - 1);
        Extended(lt, a, l, i0, i, j, j0, u, pivot);
        if j < i {
          break;
        }
        ghost var a1 := a;
        SwapRearranges(a, i, j, l, u);
        SwapBounds(lt, a, l, i, j, u, pivot);
        Swap(i, j);
        RearrangedTwice(a0, a1, a, l, u);
      }
      ghost var a2 := a;
      SwapRearranges(a, u - 1, i, l, u);
      SplitDone(lt, a, l, i, j, u, pivot);
      Swap(u - 1, i);
      RearrangedTwice(a0, a2, a, l, u);
    }

    /** A round of `auxsort` up to the recursive call: up to three elements are sorted, more are
        split by a pivot `i`. The rest of l0..u0 is done. */
    method Divide(l: int, u: int, ghost a0: seq<T>, ghost l0: int, ghost u0: int) returns (done: bool, i: int)
      requires StrictWeak(lt) && 1 <= l0 <= l < u <= u0 <= |a| == |a0|
      requires Rearranged(a0, a, l0, u0) && SortedOutside(lt, a, l0, u0, l, u)
      modifies this`a
      ensures |a| == |a0| && Rearranged(a0, a, l0, u0) && if done then Sorted(lt, a, l0, u0) else
              l < i < u && u - l >= 3 && Split(lt, a, l, u, i) && SortedOutside(lt, a, l0, u0, l, u)
    {
      hide Rearranged, StrictWeak, Split, InOrder, Sorted, SortedOutside;
      ghost var a1 := a;
      i := MedianOfThree(l, u);
      ghost var a2 := a;
      Inside(lt, a0, a1, a2, l, u, l0, u0);
      if u - l <= 2 {
        ThreeSorted(lt, a, l, u, i, l0, u0);
        return true, i;
      }
      i := Partition(l, u, i);
      Inside(lt, a0, a2, a, l, u, l0, u0);
      return false, i;
    }

    /** `auxsort`. The recursive call is on the smaller part, so that no more than `d` calls nest. */
    method AuxSort(l0: int, u0: int, ghost d: nat)
      requires StrictWeak(lt) && 1 <= l0 <= u0 + 1 <= |a| + 1 && u0 - l0 + 1 < Pow2(d) && d > 0
      modifies this
      decreases d
      ensures Rearranged(old(a), a, l0, u0) && Sorted(lt, a, l0, u0)
      ensures depth == old(depth) && old(deepest) <= deepest <= Max(old(deepest), old(depth) + d) && old(depth) < deepest
    {
      depth := depth + 1;
      deepest := Max(deepest, depth);
      hide Rearranged, StrictWeak, Split, InOrder, Sorted, SortedOutside;
      var l, u := l0, u0;
      ghost var a0 := a;
      RearrangedSelf(a, l0, u0);
      OutsideDone(lt, a, l0, u0, l, u);
      while l < u
        invariant l0 <= l <= u + 1 <= u0 + 1 && |a| == |a0| && Rearranged(a0, a, l0, u0)
        invariant SortedOutside(lt, a, l0, u0, l, u)
        invariant depth == old(depth) + 1 && old(deepest) <= deepest <= Max(old(deepest), old(depth) + d) && old(depth) < deepest
        decreases u - l
      {
        var done, i := Divide(l, u, a0, l0, u0);
        if done {
          depth := depth - 1;
          return;
        }
        ghost var a3 := a;
        ghost var p, lo, hi := i, l, u;
        var j;
        if i - l < u - i {
          j := l;
          i := i - 1;
          l := i + 2;
        } else {
          j := i + 1;
          i := u;
          u := j - 2;
        }
        HalfDepth(hi - lo + 1, i - j + 1, d);
        AuxSort(j, i, d - 1);
        PartSorted(lt, a0, a3, a, lo, hi, p, j, i, l, u, l0, u0);
      }
      OutsideDone(lt, a, l0, u0, l, u);
      depth := depth - 1;
    }

    /** `sort`: the calls of `auxsort` that nest are at most one more than the binary logarithm of
        the number of elements. */
    method Sort()
      requires StrictWeak(lt)
      modifies this
      ensures multiset(a) == multiset(old(a)) && Sorted(lt, a, 1, |a|)
      ensures deepest > 0 && Pow2(deepest - 1) <= Max(|a|, 1)
    {
      hide Pow2, Rearranged, Depth;
      depth, deepest := 0, 0;
      ghost var d := Max(Depth(|a|), 1);
      DepthFits(|a|, d);
      AuxSort(1, |a|, d);
      RearrangedWhole(old(a), a);
      DepthKept(|a|, d, deepest);
    }
  }
}
