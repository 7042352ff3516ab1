/** The registers that code refers to lie below a bound, and what the code generator does keeps
    them there. */
module RegisterBounds {
  import opened Wrappers
  import opened LuaVM
  import opened CodeState
  import opened ExpMeaning
  import opened ExpExits
  import opened Patching

  predicate In(r: int, n: int) { 0 <= r < n }

  predicate RKIn(x: int, n: int) { ISK(x) || In(x, n) }

  /** Every register operand of `i` lies below `n`. */
  predicate InFrame(i: Instr, n: int) {
    match i
    case MOVE(a, b) => In(a, n) && In(b, n)
    case LOADK(a, _) => In(a, n)
    case LOADBOOL(a, _, _) => In(a, n)
    case LOADNIL(a, b) => In(a, n) && In(b, n)
    case ARITH(_, a, rb, rc) => In(a, n) && RKIn(rb, n) && RKIn(rc, n)
    case UNM(a, b) => In(a, n) && In(b, n)
    case NOT(a, b) => In(a, n) && In(b, n)
    case LEN(a, b) => In(a, n) && In(b, n)
    case CONCAT(a, b, c) => In(a, n) && In(b, n) && In(c, n)
    case JMP(_) => true
    case COMPARE(_, _, rb, rc) => RKIn(rb, n) && RKIn(rc, n)
    case TEST(a, _) => In(a, n)
    case TESTSET(a, b, _) => In(a, n) && In(b, n)
    case RETURN(a, b) => 0 <= a && a + b - 1 <= n
  }

  /** A TESTSET whose target is not known yet: its jump is pending. */
  predicate Waits(i: Instr, n: int) { i.TESTSET? && i.a == NO_REG && In(i.b, n) }

  ghost predicate BoundedAt(c: Code, pend: set<int>, n: int, q: int)
    requires 0 <= q < |c|
  {
    InFrame(c[q], n) || (Waits(c[q], n) && Pending(pend, q + 1))
  }

  /** The code so far, with the jumps `pend` pending, refers to registers below `n`. */
  ghost predicate Bounded(c: Code, pend: set<int>, n: int) {
    forall q :: 0 <= q < |c| ==> BoundedAt(c, pend, n, q)
  }

  lemma BoundedEmpty(pend: set<int>, n: int)
    ensures Bounded([], pend, n)
  {
  }

  lemma BoundedMore(c: Code, pend: set<int>, n: int, m: int)
    requires Bounded(c, pend, n) && n <= m
    ensures Bounded(c, pend, m)
  {
    forall q | 0 <= q < |c| ensures BoundedAt(c, pend, m, q) { assert BoundedAt(c, pend, n, q); }
  }

  lemma BoundedPend(c: Code, pend: set<int>, pend': set<int>, n: int)
    requires Bounded(c, pend, n) && forall q :: Pending(pend, q) ==> Pending(pend', q)
    ensures Bounded(c, pend', n)
  {
    forall q | 0 <= q < |c| ensures BoundedAt(c, pend', n, q) { assert BoundedAt(c, pend, n, q); }
  }

  /** One more pending jump. */
  lemma BoundedJoin(c: Code, pend: set<int>, j: int, n: int)
    requires Bounded(c, pend, n)
    ensures Bounded(c, pend + {j}, n)
  {
    forall q | Pending(pend, q) ensures Pending(pend + {j}, q) { var r := q; assert r in pend; }
    BoundedPend(c, pend, pend + {j}, n);
  }

  lemma BoundedRelinked(c: Code, c': Code, l: seq<int>, pend: set<int>, n: int)
    requires Bounded(c, pend, n) && Relinked(c, c', l)
    ensures Bounded(c', pend, n)
  {
    forall q | 0 <= q < |c'| ensures BoundedAt(c', pend, n, q) { assert BoundedAt(c, pend, n, q); }
  }

  lemma BoundedRemoved(c: Code, c': Code, l: Lists, pend: set<int>, n: int)
    requires Bounded(c, pend, n) && Removed(c, c', l)
    ensures Bounded(c', pend, n)
  {
    forall q | 0 <= q < |c'| ensures BoundedAt(c', pend, n, q) { assert BoundedAt(c, pend, n, q); }
  }

  /** Patching gives every waiting test of the list its target, or none. */
  lemma BoundedPatched(c: Code, c': Code, l: seq<int>, vtarget: int, reg: int, dtarget: int, pend: set<int>, pend': set<int>, n: int)
    requires Bounded(c, pend, n) && Patched(c, c', l, vtarget, reg, dtarget) && (reg == NO_REG || In(reg, n))
    requires forall q :: Pending(pend, q) && !On(l, q) ==> Pending(pend', q)
    ensures Bounded(c', pend', n)
  {
    forall q | 0 <= q < |c'| ensures BoundedAt(c', pend', n, q) {
      assert BoundedAt(c, pend, n, q) && PatchedAt(c, c', l, vtarget, reg, dtarget, q);
    }
  }

  lemma BoundedCollected(c: Code, c': Code, l: Lists, reg: int, pf: int, pend: set<int>, pend': set<int>, n: int)
    requires Bounded(c, pend, n) && Collected(c, c', l, reg, pf) && In(reg, n) && reg != NO_REG
    requires forall q :: Pending(pend, q) && !InLists(l, q) ==> Pending(pend', q)
    ensures Bounded(c', pend', n)
  {
    forall q | 0 <= q < |c'| ensures BoundedAt(c', pend', n, q) {
      assert BoundedAt(c, pend, n, q) && CollectedAt(c, c', l, reg, pf, q);
    }
  }

  /** The LOADBOOLs of an expression with jumps. */
  lemma BoundedLabelled(a: FS, b: FS, reg: int, jumped: bool, n: int)
    requires Bounded(a.code, a.pend, n) && Labelled(a, b, reg, jumped) && In(reg, n)
    ensures Bounded(b.code, b.pend, n)
  {
    BoundedPend(a.code, a.pend, b.pend, n);
    forall q | 0 <= q < |b.code| ensures BoundedAt(b.code, b.pend, n, q) {
      if q < |a.code| {
        assert BoundedAt(a.code, b.pend, n, q) && b.code[q] == b.code[..|a.code|][q];
      }
    }
  }

  lemma SetAIn(i: Instr, reg: int, n: int)
    requires IsValue(i) && InFrame(i, n) && In(reg, n)
    ensures InFrame(SetA(i, reg), n)
  {
  }

  lemma BoundedDischarged(fs: FS, d: FS, n: int)
    requires Bounded(fs.code, fs.pend, n) && Discharged(fs, d)
    ensures Bounded(d.code, d.pend, n)
  {
    BoundedPatched(fs.code, d.code, fs.here, |fs.code|, NO_REG, |fs.code|, fs.pend, d.pend, n);
  }

  lemma BoundedAppend(c: Code, i: Instr, pend: set<int>, n: int)
    requires Bounded(c, pend, n) && InFrame(i, n)
    ensures Bounded(c + [i], pend, n)
  {
    var c' := c + [i];
    forall q | 0 <= q < |c'| ensures BoundedAt(c', pend, n, q) {
      if q < |c| { assert BoundedAt(c, pend, n, q); }
    }
  }

  /** One more instruction after the waiting jumps were sent to it. */
  lemma BoundedCoded(fs: FS, fs': FS, n: int)
    requires Bounded(fs.code, fs.pend, n) && fs'.code != [] && Discharged(fs, Prefix(fs', |fs'.code| - 1))
    requires InFrame(fs'.code[|fs'.code| - 1], n)
    ensures Bounded(fs'.code, fs'.pend, n)
  {
    var d := Prefix(fs', |fs'.code| - 1);
    BoundedDischarged(fs, d, n);
    BoundedAppend(d.code, fs'.code[|d.code|], fs'.pend, n);
    assert fs'.code == d.code + [fs'.code[|d.code|]];
  }

  /** A test and its jump. */
  lemma BoundedTest(fs: FS, d: FS, i: Instr, n: int)
    requires Bounded(fs.code, fs.pend, n) && Discharged(fs, d) && (InFrame(i, n) || Waits(i, n))
    ensures Bounded(PlusTest(d, i).code, PlusTest(d, i).pend, n)
    ensures InFrame(i, n) ==> Bounded(PlusTest(d, i).code, d.pend, n)
  {
    BoundedDischarged(fs, d, n);
    var t := PlusTest(d, i);
    forall q ensures Pending(t.pend, q) <==> Pending(d.pend, q) || q == |d.code| + 1 { PlusTestPending(d, i, q); }
    forall q | 0 <= q < |t.code| ensures BoundedAt(t.code, t.pend, n, q) {
      if q < |d.code| { assert BoundedAt(d.code, d.pend, n, q); }
    }
    if InFrame(i, n) {
      BoundedAppend(d.code, i, d.pend, n);
      BoundedAppend(d.code + [i], JMP(NO_JUMP), d.pend, n);
      assert t.code == d.code + [i] + [JMP(NO_JUMP)];
    }
  }

  lemma BoundedSet(c: Code, q: int, i: Instr, pend: set<int>, n: int)
    requires Bounded(c, pend, n) && 0 <= q < |c| && InFrame(i, n)
    ensures Bounded(c[q := i], pend, n)
  {
    var c' := c[q := i];
    forall p | 0 <= p < |c'| ensures BoundedAt(c', pend, n, p) { assert BoundedAt(c, pend, n, p); }
  }

  lemma BoundedPrefix(c: Code, m: int, pend: set<int>, n: int)
    requires Bounded(c, pend, n) && 0 <= m <= |c|
    ensures Bounded(c[..m], pend, n)
  {
    var c' := c[..m];
    forall p | 0 <= p < |c'| ensures BoundedAt(c', pend, n, p) { assert BoundedAt(c, pend, n, p); }
  }

  /** An instruction other than a waiting test. */
  lemma BoundedInstr(c: Code, pend: set<int>, n: int, q: int)
    requires Bounded(c, pend, n) && 0 <= q < |c| && !c[q].TESTSET?
    ensures InFrame(c[q], n)
  {
    assert BoundedAt(c, pend, n, q);
  }

  /** Code with no jump pending. */
  lemma BoundedDone(c: Code, pend: set<int>, n: int)
    requires Bounded(c, pend, n) && pend == {}
    ensures forall q :: 0 <= q < |c| ==> InFrame(c[q], n)
  {
    forall q | 0 <= q < |c| ensures InFrame(c[q], n) {
      assert BoundedAt(c, pend, n, q);
    }
  }
}
