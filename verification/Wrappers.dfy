/** Optional values, results, lists of numbers, and limits and functions that several parts share. */
module Wrappers {
  datatype Option<+T> = None | Some(value: T)

  /** A value, or the message of an error that the program raises. */
  datatype Result<+T> = Ok(value: T) | Failed(message: string) {
    predicate IsFailure() { Failed? }
    function PropagateFailure<U>(): Result<U>
      requires Failed?
    {
      Failed(message)
    }
    function Extract(): T
      requires Ok?
    {
      value
    }
  }

  // ----- membership in lists -----

  predicate On(l: seq<int>, i: int) { i in l }

  lemma AtOn(l: seq<int>, a: int)
    requires 0 <= a < |l|
    ensures On(l, l[a])
  {
    var x := l[a];
    assert x in l;
  }

  lemma OnAt(l: seq<int>, i: int)
    requires On(l, i)
    ensures exists a :: 0 <= a < |l| && l[a] == i
  {
    var a :| 0 <= a < |l| && l[a] == i;
  }

  lemma OnConcat(a: seq<int>, b: seq<int>, i: int)
    ensures On(a + b, i) <==> On(a, i) || On(b, i)
  {
    var j := i;
    assert j in a + b <==> j in a || j in b;
  }

  lemma OnCons(x: int, l: seq<int>, i: int)
    ensures On([x] + l, i) <==> i == x || On(l, i)
  {
    var j := i;
    assert j in [x] + l <==> j in [x] || j in l;
    assert j in [x] <==> j == x;
  }

  ghost predicate NoDup(l: seq<int>) {
    forall i, j :: 0 <= i < j < |l| ==> l[i] != l[j]
  }

  // ----- numbers -----

  /** llimits.h: nothing has a larger size. */
  const MAX_INT := 2147483645
  const LUAI_MAXCCALLS := 200

  function Max(a: nat, b: nat): nat { if a < b then b else a }

  function Pow2(i: nat): (p: nat)
    ensures p > 0
  {
    if i == 0 then 1 else 2 * Pow2(i - 1)
  }

  lemma {:induction false} Pow2Grows(i: nat, j: nat)
    requires i <= j
    ensures Pow2(i) <= Pow2(j) && (i < j ==> 2 * Pow2(i) <= Pow2(j))
    decreases j
  {
    if i < j { Pow2Grows(i, j - 1); }
  }

  // ----- bytes -----

  /** What a stream gives at its end (lzio.h). */
  const EOZ := -1

  type Bytes = seq<int>

  predicate IsByte(b: int) { 0 <= b < 256 }

  predicate AllBytes(s: Bytes) { forall i :: 0 <= i < |s| ==> IsByte(s[i]) }
}
