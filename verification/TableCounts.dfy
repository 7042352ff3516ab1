/** Counting the keys of a table, and the size of its array part (computesizes, ltable.c:189-207;
    luaO_log2, lobject.c:54-69). */
module TableCounts {
  import opened Wrappers
  import opened LuaTable

  // ----- powers of two -----

  lemma Pow2MaxBits()
    ensures Pow2(MAXBITS) == MAXASIZE
  {
    assert Pow2(8) == 256;
    assert Pow2(16) == 65536;
    assert Pow2(24) == 16777216;
  }

  /** The entries of `log_2`, the number of bits of a byte. */
  function Log2Byte(x: nat): nat
    requires x < 256
  {
    if x < 1 then 0 else if x < 2 then 1 else if x < 4 then 2 else if x < 8 then 3 else if x < 16 then 4
    else if x < 32 then 5 else if x < 64 then 6 else if x < 128 then 7 else 8
  }

  /** `luaO_log2`: the position of the highest bit. */
  method Log2(x: nat) returns (l: int)
    ensures x == 0 ==> l == -1
    ensures x > 0 ==> l >= 0 && Pow2(l) <= x < Pow2(l + 1)
  {
    l := -1;
    var y := x;
    ghost var s := 0;
    while y >= 256
      invariant l == s - 1 && s >= 0 && Scaled(x, y, s)
      invariant x == 0 ==> y == 0 && s == 0
      invariant x > 0 ==> y > 0
    {
      Shift8(x, y, s);
      l, y, s := l + 8, y / 256, s + 8;
    }
    if y > 0 { LogEnd(x, y, s); }
    l := l + Log2Byte(y);
  }

  /** `x` shifted right by `s` bits is `y`. */
  predicate Scaled(x: nat, y: nat, s: nat) {
    y * Pow2(s) <= x < (y + 1) * Pow2(s)
  }

  lemma Times(a: nat, b: nat, p: nat)
    requires a <= b
    ensures a * p <= b * p
  {
  }

  lemma Regroup(a: nat, p: nat)
    ensures a * (256 * p) == (a * 256) * p
  {
  }

  lemma Shift8(x: nat, y: nat, s: nat)
    requires Scaled(x, y, s)
    ensures Scaled(x, y / 256, s + 8)
  {
    PowSum(8, s);
    assert Pow2(8) == 256;
    var p, q := Pow2(s), y / 256;
    Regroup(q, p);
    Regroup(q + 1, p);
    Times(q * 256, y, p);
    Times(y + 1, (q + 1) * 256, p);
    assert 8 + s == s + 8;
  }

  lemma LogEnd(x: nat, y: nat, s: nat)
    requires Scaled(x, y, s) && 0 < y < 256
    ensures Log2Byte(y) > 0 && Pow2(s + Log2Byte(y) - 1) <= x < Pow2(s + Log2Byte(y))
  {
    ByteBits(y);
    var b := Log2Byte(y);
    PowSum(b - 1, s);
    PowSum(b, s);
    Times(Pow2(b - 1), y, Pow2(s));
    Times(y + 1, Pow2(b), Pow2(s));
    assert b - 1 + s == s + b - 1 && b + s == s + b;
  }

  lemma ByteBits(y: nat)
    requires 0 < y < 256
    ensures Log2Byte(y) > 0 && Pow2(Log2Byte(y) - 1) <= y < Pow2(Log2Byte(y))
  {
    assert Pow2(7) == 128;
  }

  lemma {:induction false} PowSum(a: nat, b: nat)
    ensures Pow2(a + b) == Pow2(a) * Pow2(b)
  {
    if a > 0 { PowSum(a - 1, b); }
  }

  /** Slice `j` of the integers: from above `Low(j)` up to 2^j. */
  function Low(j: nat): nat { if j == 0 then 0 else Pow2(j - 1) }

  predicate InSlice(k: int, j: nat) { Low(j) < k <= Pow2(j) }

  /** `ceillog2`: the slice of a positive integer. */
  method CeilLog2(k: nat) returns (j: nat)
    requires k > 0
    ensures InSlice(k, j)
  {
    var l := Log2(k - 1);
    j := l + 1;
  }

  lemma OneSlice(k: int, i: nat, j: nat)
    requires InSlice(k, i) && InSlice(k, j)
    ensures i == j
  {
    if i < j { Pow2Grows(i, j - 1); } else if j < i { Pow2Grows(j, i - 1); }
  }

  lemma SliceBound(k: int, j: nat)
    requires InSlice(k, j) && k <= MAXASIZE
    ensures j <= MAXBITS
  {
    Pow2MaxBits();
    if j > MAXBITS { Pow2Grows(MAXBITS, j - 1); }
  }

  // ----- counts -----

  function Bit(b: bool): nat { if b then 1 else 0 }

  /** How many of `arr[lo..hi]` are not nil. */
  function UseArray(arr: seq<Value>, lo: nat, hi: nat): nat
    requires hi <= |arr|
    decreases hi
  {
    if hi <= lo then 0 else UseArray(arr, lo, hi - 1) + Bit(arr[hi - 1] != Nil)
  }

  /** An entry with an integer key above `lo` and up to `hi`. */
  predicate IntEntry(n: Node, lo: int, hi: int) {
    n.val != Nil && 0 < ArrayIndex(n.key) && lo < ArrayIndex(n.key) <= hi
  }

  function IntUse(node: seq<Node>, lo: int, hi: int): nat {
    if node == [] then 0 else Bit(IntEntry(node[0], lo, hi)) + IntUse(node[1..], lo, hi)
  }

  function TotalUse(node: seq<Node>): nat {
    if node == [] then 0 else Bit(node[0].val != Nil) + TotalUse(node[1..])
  }

  /** Entries whose keys are not integers in 1..n. */
  function OutUse(node: seq<Node>, n: int): nat {
    if node == [] then 0 else Bit(node[0].val != Nil && !IntEntry(node[0], 0, n)) + OutUse(node[1..], n)
  }

  /** Free nodes. */
  function FreeUse(node: seq<Node>): nat {
    if node == [] then 0 else Bit(node[0].key == Nil) + FreeUse(node[1..])
  }

  lemma {:induction false} UseSplit(arr: seq<Value>, lo: nat, mid: nat, hi: nat)
    requires lo <= mid <= hi <= |arr|
    ensures UseArray(arr, lo, hi) == UseArray(arr, lo, mid) + UseArray(arr, mid, hi)
    decreases hi
  {
    if mid < hi { UseSplit(arr, lo, mid, hi - 1); }
  }

  lemma {:induction false} UseBound(arr: seq<Value>, lo: nat, hi: nat)
    requires lo <= hi <= |arr|
    ensures UseArray(arr, lo, hi) <= hi - lo
    decreases hi
  {
    if lo < hi { UseBound(arr, lo, hi - 1); }
  }

  lemma {:induction false} IntSplit(node: seq<Node>, lo: int, mid: int, hi: int)
    requires lo <= mid <= hi
    ensures IntUse(node, lo, hi) == IntUse(node, lo, mid) + IntUse(node, mid, hi)
  {
    if node != [] { IntSplit(node[1..], lo, mid, hi); }
  }

  lemma {:induction false} OutSplit(node: seq<Node>, n: int)
    ensures TotalUse(node) == OutUse(node, n) + IntUse(node, 0, n)
  {
    if node != [] { OutSplit(node[1..], n); }
  }

  lemma {:induction false} UseAtMost(node: seq<Node>, lo: int, hi: int)
    ensures IntUse(node, lo, hi) <= TotalUse(node) <= |node|
  {
    if node != [] { UseAtMost(node[1..], lo, hi); }
  }

  lemma {:induction false} FreeSet(node: seq<Node>, i: int, x: Node)
    requires 0 <= i < |node|
    ensures FreeUse(node[i := x]) == FreeUse(node) - Bit(node[i].key == Nil) + Bit(x.key == Nil)
  {
    if i > 0 {
      FreeSet(node[1..], i - 1, x);
      assert node[i := x][1..] == node[1..][i - 1 := x];
    } else {
      assert node[i := x][1..] == node[1..];
    }
  }

  lemma {:induction false} FreeExists(node: seq<Node>)
    ensures FreeUse(node) > 0 <==> exists i :: 0 <= i < |node| && node[i].key == Nil
  {
    if node != [] {
      FreeExists(node[1..]);
      if i :| 0 <= i < |node| && node[i].key == Nil {
        if i > 0 { assert node[1..][i - 1].key == Nil; }
      }
      if FreeUse(node[1..]) > 0 {
        var j :| 0 <= j < |node[1..]| && node[1..][j].key == Nil;
        assert node[j + 1].key == Nil;
      }
    }
  }

  lemma {:induction false} AllFree(n: nat)
    ensures FreeUse(seq(n, _ => Node(Nil, false, Nil, NONE))) == n
  {
    if n > 0 {
      AllFree(n - 1);
      assert seq(n, _ => Node(Nil, false, Nil, NONE))[1..] == seq(n - 1, _ => Node(Nil, false, Nil, NONE));
    }
  }

  // ----- how many of 1..m are in use -----

  function Min(a: int, b: int): int { if a < b then a else b }

  /** Keys in 1..m that are in the table, or will be: `ek` is about to be added. */
  function Demand(t: Tab, ek: Value, m: nat): nat {
    UseArray(t.arr, 0, Min(m, |t.arr|)) + IntUse(t.node, 0, m) + Bit(0 < ArrayIndex(ek) <= m)
  }

  /** The part of the demand in slice `j`. */
  function SliceDemand(t: Tab, ek: Value, j: nat): nat {
    UseArray(t.arr, Min(Low(j), |t.arr|), Min(Pow2(j), |t.arr|)) + IntUse(t.node, Low(j), Pow2(j)) + Bit(InSlice(ArrayIndex(ek), j))
  }

  function Sum(nums: seq<int>, n: nat): int
    requires n <= |nums|
  {
    if n == 0 then 0 else Sum(nums, n - 1) + nums[n - 1]
  }

  /** `nums` counts the demand slice by slice. */
  ghost predicate Counts(t: Tab, ek: Value, nums: seq<int>) {
    |nums| == MAXBITS + 1 && forall j :: 0 <= j <= MAXBITS ==> nums[j] == SliceDemand(t, ek, j)
  }

  lemma {:induction false} SumIsDemand(t: Tab, ek: Value, nums: seq<int>, j: nat)
    requires Counts(t, ek, nums) && j <= MAXBITS
    ensures Sum(nums, j + 1) == Demand(t, ek, Pow2(j))
  {
    var lo, hi := Min(Low(j), |t.arr|), Min(Pow2(j), |t.arr|);
    UseSplit(t.arr, 0, lo, hi);
    IntSplit(t.node, 0, Low(j), Pow2(j));
    assert nums[j] == SliceDemand(t, ek, j);
    if j > 0 {
      SumIsDemand(t, ek, nums, j - 1);
    } else {
      assert Sum(nums, 0) == 0;
      IntNone(t.node, 0);
    }
  }

  lemma {:induction false} IntNone(node: seq<Node>, n: int)
    ensures IntUse(node, n, n) == 0
  {
    if node != [] { IntNone(node[1..], n); }
  }

  // ----- the optimal size -----

  /** More than half of 1..n are demanded. */
  predicate Worth(d: nat -> nat, n: nat) {
    d(n) > n / 2
  }

  /** `n` is the largest power of two, up to the maximum, of which more than half are demanded, or
      0 if there is none. */
  ghost predicate Optimal(d: nat -> nat, n: nat) {
    && (n == 0 || exists i :: 0 <= i <= MAXBITS && n == Pow2(i) && Worth(d, Pow2(i)))
    && UpTo(d, MAXBITS + 1, n)
  }

  /** `computesizes`, where the slice counts add up to the demand `d`. */
  method ComputeSizes(nums: seq<int>, narray: nat, ghost d: nat -> nat) returns (na: nat, n: nat)
    requires AddsUp(nums, d)
    requires narray == d(Pow2(MAXBITS)) && d(0) == 0
    ensures Optimal(d, n) && na == d(n) && n <= MAXASIZE
  {
    Pow2MaxBits();
    var i, twotoi := 0, 1;
    var a := 0;
    na, n := 0, 0;
    while twotoi / 2 < narray
      invariant 0 <= i <= MAXBITS + 1 && twotoi == Pow2(i) && a == Sum(nums, i)
      invariant na == d(n) && n <= MAXASIZE && (n == 0 || exists b :: 0 <= b < i && n == Pow2(b) && Worth(d, Pow2(b)))
      invariant UpTo(d, i, n)
      decreases MAXBITS + 1 - i
    {
      SliceIndex(i, narray);
      Pow2Grows(i, MAXBITS);
      assert Sum(nums, i + 1) == d(Pow2(i));
      ghost var n0 := n;
      if nums[i] > 0 {
        a := a + nums[i];
        if a > twotoi / 2 {
          n := twotoi;
          na := a;
          assert Worth(d, Pow2(i));
        }
      }
      SizesStep(nums, d, i, n0, n);
      if a == narray {
        NoMore(nums, narray, d, i, n);
        break;
      }
      i, twotoi := i + 1, twotoi * 2;
      TooLarge(nums, narray, d, i, n);
    }
    TooLarge(nums, narray, d, i, n);
  }

  /** `n` is at least every size below 2^i that is worth it. */
  ghost predicate UpTo(d: nat -> nat, i: int, n: nat) {
    forall b :: 0 <= b < i && Worth(d, Pow2(b)) ==> Pow2(b) <= n
  }

  lemma SliceIndex(i: nat, narray: nat)
    requires i <= MAXBITS + 1 && Pow2(i) / 2 < narray <= Pow2(MAXBITS)
    ensures i <= MAXBITS
  {
  }

  /** The slice counts, added up, are the demand. */
  ghost predicate AddsUp(nums: seq<int>, d: nat -> nat) {
    && |nums| == MAXBITS + 1 && (forall j :: 0 <= j <= MAXBITS ==> nums[j] >= 0)
    && (forall j :: 0 <= j <= MAXBITS ==> Sum(nums, j + 1) == d(Pow2(j)) <= Pow2(j))
  }

  lemma SizesStep(nums: seq<int>, d: nat -> nat, i: nat, n0: nat, n: nat)
    requires AddsUp(nums, d) && i <= MAXBITS && UpTo(d, i, n0)
    requires n == if nums[i] > 0 && Worth(d, Pow2(i)) then Pow2(i) else n0
    ensures UpTo(d, i + 1, n)
  {
    hide AddsUp;
    forall b | 0 <= b < i + 1 && Worth(d, Pow2(b)) ensures Pow2(b) <= n {
      Pow2Grows(b, i);
      if b == i { WorthCounted(nums, d, i); }
    }
  }

  /** An empty slice makes no size worth it. */
  lemma WorthCounted(nums: seq<int>, d: nat -> nat, i: nat)
    requires AddsUp(nums, d) && i <= MAXBITS && Worth(d, Pow2(i))
    ensures |nums| == MAXBITS + 1 && nums[i] > 0
  {
    assert Sum(nums, i + 1) == d(Pow2(i)) && nums[i] >= 0;
    assert Sum(nums, i + 1) == Sum(nums, i) + nums[i];
    if i > 0 {
      var h := i - 1;
      assert Sum(nums, h + 1) == d(Pow2(h)) <= Pow2(h);
      assert Sum(nums, h + 1) == Sum(nums, i);
      assert Pow2(i) == 2 * Pow2(h);
    }
  }

  lemma {:induction false} SumGrows(nums: seq<int>, i: nat, j: nat)
    requires i <= j <= |nums| && forall k :: 0 <= k < |nums| ==> nums[k] >= 0
    ensures Sum(nums, i) <= Sum(nums, j)
    decreases j
  {
    if i < j { SumGrows(nums, i, j - 1); }
  }

  lemma DemandBound(nums: seq<int>, narray: nat, d: nat -> nat, b: nat)
    requires AddsUp(nums, d) && narray == d(Pow2(MAXBITS)) && b <= MAXBITS
    ensures d(Pow2(b)) <= narray
  {
    SumGrows(nums, b + 1, MAXBITS + 1);
    assert Sum(nums, b + 1) == d(Pow2(b)) && Sum(nums, MAXBITS + 1) == d(Pow2(MAXBITS));
  }

  /** When all keys lie in the first slices no larger size is worth it. */
  lemma NoMore(nums: seq<int>, narray: nat, d: nat -> nat, i: nat, n: nat)
    requires AddsUp(nums, d) && narray == d(Pow2(MAXBITS)) && i <= MAXBITS && narray == d(Pow2(i)) && UpTo(d, i + 1, n)
    ensures UpTo(d, MAXBITS + 1, n)
  {
    assert Sum(nums, i + 1) == d(Pow2(i)) <= Pow2(i);
    forall b | 0 <= b < MAXBITS + 1 && Worth(d, Pow2(b)) ensures Pow2(b) <= n {
      if b > i {
        DemandBound(nums, narray, d, b);
        Pow2Grows(i, b);
      }
    }
  }

  lemma TooLarge(nums: seq<int>, narray: nat, d: nat -> nat, i: nat, n: nat)
    requires AddsUp(nums, d) && narray == d(Pow2(MAXBITS)) && i <= MAXBITS + 1 && UpTo(d, i, n)
    ensures Pow2(i) / 2 >= narray ==> UpTo(d, MAXBITS + 1, n)
  {
    if Pow2(i) / 2 >= narray {
      forall b | 0 <= b < MAXBITS + 1 && Worth(d, Pow2(b)) ensures Pow2(b) <= n {
        if b >= i {
          DemandBound(nums, narray, d, b);
          Pow2Grows(i, b);
        }
      }
    }
  }

  // ----- the demand fits -----

  lemma {:induction false} IntAtMostOne(node: seq<Node>, lo: int, hi: int)
    requires forall i, j :: 0 <= i < j < |node| ==> !(IntEntry(node[i], lo, hi) && IntEntry(node[j], lo, hi))
    ensures IntUse(node, lo, hi) <= 1
    ensures IntUse(node, lo, hi) == 1 ==> exists i :: 0 <= i < |node| && IntEntry(node[i], lo, hi)
  {
    if node != [] {
      IntAtMostOne(node[1..], lo, hi);
      if IntUse(node[1..], lo, hi) == 1 {
        var i :| 0 <= i < |node[1..]| && IntEntry(node[1..][i], lo, hi);
        assert IntEntry(node[i + 1], lo, hi);
      }
    }
  }

  /** At most one key is the integer `m`. */
  lemma OneKey(hash: Value -> nat, t: Tab, path: seq<seq<int>>, ek: Value, m: nat)
    requires TableOk(hash, t, path) && Absent(t, ek) && m > 0
    ensures IntUse(t.node, m - 1, m) + Bit(ArrayIndex(ek) == m) + Bit(m <= |t.arr| && t.arr[m - 1] != Nil) <= 1
  {
    forall i, j | 0 <= i < j < |t.node| ensures !(IntEntry(t.node[i], m - 1, m) && IntEntry(t.node[j], m - 1, m)) {
      if IntEntry(t.node[i], m - 1, m) && IntEntry(t.node[j], m - 1, m) { SameIntKey(hash, t, path, i, j, m); }
    }
    IntAtMostOne(t.node, m - 1, m);
    if IntUse(t.node, m - 1, m) == 1 {
      var i :| 0 <= i < |t.node| && IntEntry(t.node[i], m - 1, m);
      var k := t.node[i].key;
      assert FreeOk(t, i) && Used(t, i) && !InArray(t, k);
      AbsentAt(t, ek, i);
      if ArrayIndex(ek) == m { KeyOfInt(ek, k); }
    }
  }

  lemma KeyOfInt(k: Value, k': Value)
    requires ArrayIndex(k) > 0 && ArrayIndex(k') == ArrayIndex(k)
    ensures k == k'
  {
  }

  lemma SameIntKey(hash: Value -> nat, t: Tab, path: seq<seq<int>>, i: int, j: int, m: nat)
    requires TableOk(hash, t, path) && 0 <= i < |t.node| && 0 <= j < |t.node| && m > 0
    requires IntEntry(t.node[i], m - 1, m) && IntEntry(t.node[j], m - 1, m)
    ensures i == j
  {
    assert FreeOk(t, i) && FreeOk(t, j);
    KeyOfInt(t.node[i].key, t.node[j].key);
    assert Used(t, i) && Entry(t, i, t.node[i].key) && Entry(t, j, t.node[i].key);
  }

  /** No more than `m` keys are demanded of 1..m. */
  lemma {:induction false} DemandFits(hash: Value -> nat, t: Tab, path: seq<seq<int>>, ek: Value, m: nat)
    requires TableOk(hash, t, path) && Absent(t, ek)
    ensures Demand(t, ek, m) <= m
    decreases m
  {
    hide TableOk, Absent;
    if m > 0 {
      DemandFits(hash, t, path, ek, m - 1);
      OneKey(hash, t, path, ek, m);
      IntSplit(t.node, 0, m - 1, m);
    } else {
      IntNone(t.node, 0);
    }
  }

  lemma CountsAddUp(hash: Value -> nat, t: Tab, path: seq<seq<int>>, ek: Value, nums: seq<int>, d: nat -> nat)
    requires TableOk(hash, t, path) && Absent(t, ek) && Counts(t, ek, nums) && forall m :: d(m) == Demand(t, ek, m)
    ensures AddsUp(nums, d)
  {
    hide TableOk, Absent;
    forall j | 0 <= j <= MAXBITS ensures nums[j] >= 0 && Sum(nums, j + 1) == d(Pow2(j)) <= Pow2(j) {
      assert nums[j] == SliceDemand(t, ek, j);
      SumIsDemand(t, ek, nums, j);
      DemandFits(hash, t, path, ek, Pow2(j));
    }
  }
}
