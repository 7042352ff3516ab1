/** Putting the value of an expression into a register (discharge2reg and luaK_nil, lcode.c). */
module ExpValues {
  import opened Wrappers
  import opened LuaVM
  import Expressions
  import opened CodeState
  import opened ExpMeaning

  ghost predicate Put(regs: Regs, regs': Regs, reg: int, v: Value) {
    forall r :: Get(regs', r) == if r == reg then v else Get(regs, r)
  }

  /** From the body of a descriptor to code that leaves its value in `reg`. */
  ghost predicate PutsAt(env: Env, o: Outcome, c: Code, ks: seq<Value>, k: ExpKind, o': Outcome, reg: int) {
    if !o.Fall? then o' == o
    else
      match KindValue(env, c, ks, k, o.regs)
      case None => o' == Error
      case Some(v) => o'.Fall? && Put(o.regs, o'.regs, reg, v)
  }

  ghost predicate Puts(env: Env, fs: FS, k: ExpKind, fs': FS, reg: int) {
    forall regs :: Clean(env, regs) ==>
      PutsAt(env, Out(env, Body(fs, k), regs), fs.code, fs.k, k, Out(env, fs', regs), reg)
  }

  /** Code that sets `n` registers from `lo` on to nil. */
  ghost predicate NilsAt(o: Outcome, o': Outcome, lo: int, n: int) {
    if !o.Fall? then o' == o
    else o'.Fall? && forall r :: Get(o'.regs, r) == if lo <= r < lo + n then Nil else Get(o.regs, r)
  }

  ghost predicate Nils(env: Env, fs: FS, fs': FS, lo: int, n: int) {
    forall regs :: Clean(env, regs) ==> NilsAt(Out(env, fs, regs), Out(env, fs', regs), lo, n)
  }

  lemma BodySame(fs: FS, k: ExpKind)
    requires TailLength(k) == 0
    ensures Body(fs, k) == fs
  {
    assert fs.code[..|fs.code|] == fs.code;
  }

  /** A new instruction for the value. */
  lemma CodedValue(env: Env, fs: FS, k: ExpKind, d: FS, fs': FS, i: Instr)
    requires FsOk(fs) && TailLength(k) == 0 && Discharged(fs, d) && fs' == Plus(d, i)
    requires IsValue(i) && OperandsOk(i, |fs.k|)
    requires forall regs :: KindValue(env, fs.code, fs.k, k, regs) == InstrValue(env.sem, fs.k, i, regs)
    ensures FsOk(fs') && fs'.here == [] && Frame(fs, fs', NoLists) && Puts(env, fs, k, fs', i.a)
  {
    hide FsOk, Frame, CodeOk, KindValue, InstrValue;
    BodySame(fs, k);
    DischargeOk(env, fs, d);
    CodePlus(d, i);
    NoListsEmpty();
    FrameStep(fs, d, fs');
    forall regs | Clean(env, regs)
      ensures PutsAt(env, Out(env, fs, regs), fs.code, fs.k, k, Out(env, fs', regs), i.a)
    {
      OutPlus(env, d, i, regs);
    }
  }

  lemma FrameStep(a: FS, b: FS, c: FS)
    requires Frame(a, b, NoLists) && Frame(b, c, NoLists)
    ensures Frame(a, c, NoLists)
  {
    NoListsEmpty();
    FrameTransitive(a, b, c, NoLists, NoLists, NoLists);
  }

  lemma FrameSelf(fs: FS)
    requires FsOk(fs)
    ensures Frame(fs, fs, NoLists)
  {
    NoListsEmpty();
  }

  /** A relocatable instruction gets its target. */
  lemma Relocated(env: Env, fs: FS, i: int, fs': FS, reg: int)
    requires Ready(fs, VRELOCABLE(i)) && fs' == fs.(code := fs.code[i := SetA(fs.code[i], reg)])
    ensures FsOk(fs') && fs'.here == [] && Frame(Body(fs, VRELOCABLE(i)), fs', NoLists)
    ensures Puts(env, fs, VRELOCABLE(i), fs', reg)
  {
    hide FsOk, Frame, CodeOk;
    var b := Body(fs, VRELOCABLE(i));
    var instr := SetA(fs.code[i], reg);
    assert fs' == Plus(b, instr);
    CodePlus(b, instr);
    forall regs | Clean(env, regs)
      ensures PutsAt(env, Out(env, b, regs), fs.code, fs.k, VRELOCABLE(i), Out(env, fs', regs), reg)
    {
      OutPlus(env, b, instr, regs);
      var o := Out(env, b, regs);
      if o.Fall? { SetASame(env.sem, fs.k, fs.code[i], reg, o.regs); }
    }
  }

  lemma SetASame(sem: Semantics, k: seq<Value>, i: Instr, reg: int, regs: Regs)
    requires IsValue(i)
    ensures var i' := SetA(i, reg);
            IsValue(i') && i'.a == reg && InstrValue(sem, k, i', regs) == InstrValue(sem, k, i, regs)
  {
  }

  /** The value is there already. */
  lemma AlreadyPut(env: Env, fs: FS, reg: int)
    requires FsOk(fs)
    ensures Puts(env, fs, VNONRELOC(reg), fs, reg) && Frame(fs, fs, NoLists)
  {
    BodySame(fs, VNONRELOC(reg));
    FrameSelf(fs);
  }

  // ----- nil -----

  /** A function starts with its registers nil. */
  lemma NilAtStart(env: Env, fs: FS, lo: int, n: int)
    requires fs.code == [] && env.params <= lo && fs.here == []
    ensures Nils(env, fs, fs, lo, n)
  {
  }

  lemma NilCoded(env: Env, fs: FS, d: FS, fs': FS, lo: int, n: int)
    requires FsOk(fs) && Discharged(fs, d) && fs' == Plus(d, LOADNIL(lo, lo + n - 1))
    ensures FsOk(fs') && fs'.here == [] && Frame(fs, fs', NoLists) && Nils(env, fs, fs', lo, n)
  {
    hide FsOk, Frame, CodeOk;
    DischargeOk(env, fs, d);
    var hi := lo + n - 1;
    CodePlus(d, LOADNIL(lo, hi));
    FrameStep(fs, d, fs');
    forall regs | Clean(env, regs) ensures NilsAt(Out(env, fs, regs), Out(env, fs', regs), lo, n) {
      OutPlus(env, d, LOADNIL(lo, hi), regs);
      var o := Out(env, d, regs);
      if o.Fall? {
        forall r ensures Get(SetNil(o.regs, lo, hi), r) == if lo <= r < lo + n then Nil else Get(o.regs, r) {
          SetNilGet(o.regs, lo, hi, r);
        }
      }
    }
  }

  lemma DropLast(fs: FS)
    requires FsOk(fs) && fs.here == [] && fs.code != [] && fs.code[|fs.code| - 1].LOADNIL? && fs.lasttarget < |fs.code|
    ensures var b := Prefix(fs, |fs.code| - 1);
            FsOk(b) && forall q :: Outer(b, q) <==> Outer(fs, q)
  {
    var b := Prefix(fs, |fs.code| - 1);
    forall q | 0 <= q < |b.code| ensures InstrOk(|fs.k|, b.code, b.pend, b.lasttarget, q) {
      assert InstrOk(|fs.k|, fs.code, fs.pend, fs.lasttarget, q);
    }
    if |b.code| > 0 { assert InstrOk(|fs.k|, fs.code, fs.pend, fs.lasttarget, |b.code| - 1); }
    forall q | Pending(b.pend, q) ensures 0 <= q < |b.code| && b.code[q].JMP? { assert fs.code[q].JMP?; }
  }

  /** The LOADNIL before, which no jump passes by, is made longer. */
  lemma NilMerged(env: Env, fs: FS, fs': FS, pfrom: int, pto: int, lo: int, n: int)
    requires FsOk(fs) && fs.code != [] && fs.code[|fs.code| - 1] == LOADNIL(pfrom, pto) && fs.lasttarget < |fs.code|
    requires pfrom <= lo <= pto + 1 && n > 0
    requires fs' == fs.(code := fs.code[|fs.code| - 1 := LOADNIL(pfrom, if lo + n - 1 > pto then lo + n - 1 else pto)])
    ensures FsOk(fs') && Frame(fs, fs', NoLists) && Nils(env, fs, fs', lo, n)
  {
    hide FsOk, Frame, CodeOk;
    var last := fs'.code[|fs.code| - 1];
    assert fs.here == [] by { NothingHere(fs); }
    DropLast(fs);
    var b := Prefix(fs, |fs.code| - 1);
    assert fs == Plus(b, LOADNIL(pfrom, pto)) && fs' == Plus(b, last);
    CodePlus(b, last);
    MergedFrame(fs, fs', last);
    forall regs | Clean(env, regs) ensures NilsAt(Out(env, fs, regs), Out(env, fs', regs), lo, n) {
      OutPlus(env, b, LOADNIL(pfrom, pto), regs);
      OutPlus(env, b, last, regs);
      var o := Out(env, b, regs);
      if o.Fall? {
        forall r ensures Get(SetNil(o.regs, pfrom, last.b), r) ==
                         if lo <= r < lo + n then Nil else Get(SetNil(o.regs, pfrom, pto), r)
        {
          SetNilGet(o.regs, pfrom, last.b, r);
          SetNilGet(o.regs, pfrom, pto, r);
        }
      }
    }
  }

  lemma NothingHere(fs: FS)
    requires FsOk(fs) && fs.lasttarget < |fs.code|
    ensures fs.here == []
  {
  }

  lemma MergedFrame(fs: FS, fs': FS, i: Instr)
    requires FsOk(fs) && fs.code != [] && fs.code[|fs.code| - 1].LOADNIL? && i.LOADNIL?
    requires fs' == fs.(code := fs.code[|fs.code| - 1 := i])
    ensures Frame(fs, fs', NoLists)
  {
    NoListsEmpty();
    forall q | Outer(fs, q) ensures SameJump(fs.code, fs'.code, q) { assert fs.code[q].JMP?; }
  }

  lemma NilsPut(env: Env, fs: FS, fs': FS, reg: int)
    requires Nils(env, fs, fs', reg, 1)
    ensures Puts(env, fs, VNIL, fs', reg)
  {
    BodySame(fs, VNIL);
    forall regs | Clean(env, regs)
      ensures PutsAt(env, Out(env, fs, regs), fs.code, fs.k, VNIL, Out(env, fs', regs), reg)
    {
      assert NilsAt(Out(env, fs, regs), Out(env, fs', regs), reg, 1);
    }
  }

  // ----- constants -----

  lemma MoreConstants(env: Env, fs: FS, fs': FS)
    requires FsOk(fs) && fs' == fs.(k := fs'.k, h := fs'.h) && fs.k <= fs'.k && ConstantsOk(fs')
    ensures FsOk(fs') && Frame(fs, fs', NoLists)
    ensures forall regs :: Out(env, fs', regs) == Out(env, fs, regs)
  {
    forall q | 0 <= q < |fs.code| ensures InstrOk(|fs'.k|, fs.code, fs.pend, fs.lasttarget, q) {
      assert InstrOk(|fs.k|, fs.code, fs.pend, fs.lasttarget, q);
    }
    FrameSelf(fs);
    forall regs ensures Out(env, fs', regs) == Out(env, fs, regs) {
      RunConstants(env.sem, fs.k, fs'.k, fs.code, fs.pend, fs.lasttarget, 0, regs);
    }
  }

  /** Code whose outcome is that of `fs` puts what goes on from `fs` puts. */
  lemma PutsAfter(env: Env, fs: FS, fs1: FS, k: ExpKind, k1: ExpKind, fs': FS, reg: int)
    requires TailLength(k) == 0 && TailLength(k1) == 0
    requires forall regs :: Out(env, fs1, regs) == Out(env, fs, regs)
    requires forall regs :: KindValue(env, fs1.code, fs1.k, k1, regs) == KindValue(env, fs.code, fs.k, k, regs)
    requires Puts(env, fs1, k1, fs', reg)
    ensures Puts(env, fs, k, fs', reg)
  {
    hide PutsAt;
    BodySame(fs, k);
    BodySame(fs1, k1);
    forall regs | Clean(env, regs)
      ensures PutsAt(env, Out(env, fs, regs), fs.code, fs.k, k, Out(env, fs', regs), reg)
    {
      assert PutsAt(env, Out(env, fs1, regs), fs1.code, fs1.k, k1, Out(env, fs', regs), reg);
      PutsAtSame(env, Out(env, fs, regs), fs.code, fs.k, k, fs1.code, fs1.k, k1, Out(env, fs', regs), reg);
    }
  }

  lemma PutsAtSame(env: Env, o: Outcome, c: Code, ks: seq<Value>, k: ExpKind, c1: Code, ks1: seq<Value>, k1: ExpKind, o': Outcome, reg: int)
    requires PutsAt(env, o, c1, ks1, k1, o', reg)
    requires o.Fall? ==> KindValue(env, c1, ks1, k1, o.regs) == KindValue(env, c, ks, k, o.regs)
    ensures PutsAt(env, o, c, ks, k, o', reg)
  {
  }

  // ----- the promise carried on -----

  lemma PutMeans(g: Goal, fs: FS, k: ExpKind, l: Lists, fs': FS, reg: int)
    requires Means(g, fs, k, l) && FsOk(fs') && Frame(Body(fs, k), fs', NoLists) && Puts(g.env, fs, k, fs', reg)
    requires reg >= g.base || reg == g.dest
    ensures Means(g, fs', VNONRELOC(reg), l)
  {
    hide FsOk;
    var b := Body(fs, k);
    BodySame(fs', VNONRELOC(reg));
    OwnFramed(b, fs', l);
    NoListsEmpty();
    FrameTransitive(g.start, b, fs', l, NoLists, l);
    forall regs | Clean(g.env, regs)
      ensures Delivers(g, Out(g.env, g.start, regs), Out(g.env, fs', regs), fs'.code, fs'.k, VNONRELOC(reg), l)
    {
      assert Delivers(g, Out(g.env, g.start, regs), Out(g.env, b, regs), fs.code, fs.k, k, l);
      assert PutsAt(g.env, Out(g.env, b, regs), fs.code, fs.k, k, Out(g.env, fs', regs), reg);
      PutDelivers(g, Out(g.env, g.start, regs), Out(g.env, b, regs), fs, k, l, Out(g.env, fs', regs), fs', reg);
    }
  }

  lemma PutDelivers(g: Goal, o: Outcome, o1: Outcome, fs: FS, k: ExpKind, l: Lists, o2: Outcome, fs': FS, reg: int)
    requires Delivers(g, o, o1, fs.code, fs.k, k, l) && PutsAt(g.env, o1, fs.code, fs.k, k, o2, reg)
    requires reg >= g.base || reg == g.dest
    requires forall q :: InLists(l, q) ==> SameJump(Body(fs, k).code, fs'.code, q)
    ensures Delivers(g, o, o2, fs'.code, fs'.k, VNONRELOC(reg), l)
  {
    if o.Fall? && o1.Exit? {
      CarriesBody(fs, k, l, o1.j, o1.regs, Expressions.Eval(g.env.sem, g.expr, o.regs).value);
      CarriesFramed(Body(fs, k).code, fs'.code, l, o1.j, o1.regs, Expressions.Eval(g.env.sem, g.expr, o.regs).value);
    }
  }

  lemma CarriesBody(fs: FS, k: ExpKind, l: Lists, j: int, regs: Regs, v: Value)
    requires Carries(fs.code, l, j, regs, v) && j < |Body(fs, k).code|
    ensures Carries(Body(fs, k).code, l, j, regs, v)
  {
  }
}
