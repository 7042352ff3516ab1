/** Negation, and collecting every exit of an expression in one register (codenot and exp2reg,
    lcode.c). */
module ExpExits {
  import opened Wrappers
  import opened LuaVM
  import opened Expressions
  import opened CodeState
  import opened ExpMeaning
  import opened ExpValues
  import ExpJumps

  // ----- not -----

  function Negated(e: Expr): Expr { Unary(OPR_NOT, e) }

  function Flip(l: Lists): Lists { Lists(l.f, l.t) }

  ghost function Not(v: Option<Value>): Option<Value> {
    if v.Some? then Some(Bool(!Truthy(v.value))) else None
  }

  /** `not` of the value is in `k`, while the jumps still carry the value itself. */
  ghost predicate Halfway(g: Goal, fs: FS, k: ExpKind, l: Lists) {
    && Ready(fs, k) && OwnLists(Body(fs, k), l) && Frame(g.start, Body(fs, k), l)
    && (forall regs :: Clean(g.env, regs) ==>
          HalfDelivers(g, Out(g.env, g.start, regs), Out(g.env, Body(fs, k), regs), fs.code, fs.k, k, l))
  }

  ghost predicate HalfDelivers(g: Goal, o: Outcome, o': Outcome, c: Code, ks: seq<Value>, k: ExpKind, l: Lists) {
    if !o.Fall? then o' == o
    else
      var v := Eval(g.env.sem, g.expr, o.regs);
      match o'
      case Fall(regs) => Agree(g, o.regs, regs) && KindValue(g.env, c, ks, k, regs) == Not(v)
      case Exit(j, regs) => Agree(g, o.regs, regs) && v.Some? && Carries(c, l, j, regs, v.value)
      case Error => v == None
      case _ => false
  }

  lemma Halved(g: Goal, fs: FS, k: ExpKind, l: Lists, fs': FS, k': ExpKind)
    requires Means(g, fs, k, l) && Ready(fs', k') && ExpJumps.Settled(g.env, Body(fs, k), Body(fs', k'))
    requires forall regs :: KindValue(g.env, fs'.code, fs'.k, k', regs) == Not(KindValue(g.env, fs.code, fs.k, k, regs))
    ensures Halfway(g, fs', k', l)
  {
    hide FsOk, KindValue, Not;
    var b, b' := Body(fs, k), Body(fs', k');
    OwnFramed(b, b', l);
    NoListsEmpty();
    FrameTransitive(g.start, b, b', l, NoLists, l);
    forall regs | Clean(g.env, regs)
      ensures HalfDelivers(g, Out(g.env, g.start, regs), Out(g.env, b', regs), fs'.code, fs'.k, k', l)
    {
      var o, o1 := Out(g.env, g.start, regs), Out(g.env, b, regs);
      assert Delivers(g, o, o1, fs.code, fs.k, k, l);
      if o.Fall? && o1.Exit? {
        ExpJumps.CarriesAcross(fs, k, fs', k', l, o1.j, o1.regs, Eval(g.env.sem, g.expr, o.regs).value);
      }
    }
  }

  /** Removing the values the jumps carry and exchanging the lists completes the negation. */
  lemma NegationMeans(g: Goal, fs: FS, k: ExpKind, l: Lists, fs': FS)
    requires Halfway(g, fs, k, l) && fs' == fs.(code := fs'.code) && HereOk(Body(fs', k)) && TailLength(k) <= |fs'.code|
    requires Removed(fs.code, fs'.code, l)
    ensures Means(g.(expr := Negated(g.expr)), fs', k, Flip(l))
  {
    hide FsOk, HereOk;
    var g' := g.(expr := Negated(g.expr));
    var b, b' := Body(fs, k), Body(fs', k);
    RemovedBody(fs, k, l, fs');
    RemovedRun(g.env, b, b', l);
    forall q ensures InLists(Flip(l), q) == InLists(l, q) { }
    RemovedFrame(g.start, b, b', l);
    forall regs | Clean(g.env, regs)
      ensures Delivers(g', Out(g.env, g.start, regs), Out(g.env, b', regs), fs'.code, fs'.k, k, Flip(l))
    {
      var o, o1 := Out(g.env, g.start, regs), Out(g.env, b, regs);
      assert HalfDelivers(g, o, o1, fs.code, fs.k, k, l);
      ExpJumps.TailSame(g.env, fs, k, fs');
      EvalNot(g.env.sem, g.expr, o);
      if o.Fall? && o1.Exit? {
        CarriesNot(fs.code, fs'.code, l, o1.j, o1.regs, Eval(g.env.sem, g.expr, o.regs).value);
      }
    }
  }

  lemma EvalNot(sem: Semantics, e: Expr, o: Outcome)
    ensures o.Fall? ==> Eval(sem, Negated(e), o.regs) == Not(Eval(sem, e, o.regs))
  {
  }

  ghost predicate Removed(c: Code, c': Code, l: Lists) {
    |c'| == |c| && forall q :: 0 <= q < |c| ==> c'[q] == if InLists(l, q + 1) then PatchTest(c[q], NO_REG) else c[q]
  }

  lemma CarriesNot(c: Code, c': Code, l: Lists, j: int, regs: Regs, v: Value)
    requires Carries(c, l, j, regs, v) && Removed(c, c', l) && Apart(l.t, l.f)
    ensures Carries(c', Flip(l), j, regs, Bool(!Truthy(v)))
  {
  }

  lemma RemovedBody(fs: FS, k: ExpKind, l: Lists, fs': FS)
    requires Ready(fs, k) && OwnLists(Body(fs, k), l) && fs' == fs.(code := fs'.code)
    requires Removed(fs.code, fs'.code, l)
    ensures Removed(Body(fs, k).code, Body(fs', k).code, l) && TailOk(fs', k)
    ensures |Body(fs', k).code| == |Body(fs, k).code| == |fs.code| - TailLength(k)
    ensures forall q :: |Body(fs, k).code| <= q < |fs.code| ==> fs'.code[q] == fs.code[q]
    ensures forall q :: InLists(l, q) ==> Pending(fs.pend, q)
  {
    var b := Body(fs, k);
    forall q | |b.code| <= q < |fs.code| ensures fs'.code[q] == fs.code[q] {
      if InLists(l, q + 1) { OwnJump(b, l, q + 1); }
    }
  }

  lemma RemovedRun(env: Env, fs: FS, fs': FS, l: Lists)
    requires FsOk(fs) && fs' == fs.(code := fs'.code) && Removed(fs.code, fs'.code, l) && HereOk(fs')
    requires forall q :: InLists(l, q) ==> Pending(fs.pend, q)
    ensures FsOk(fs') && forall regs :: Out(env, fs', regs) == Out(env, fs, regs)
  {
    forall q | 0 <= q < |fs.code| ensures PatchesAt(fs.code, fs.pend, fs'.code, fs.pend, q) {
      assert InstrOk(|fs.k|, fs.code, fs.pend, fs.lasttarget, q);
    }
    CodePatched(|fs.k|, fs.code, fs.pend, fs.lasttarget, fs'.code, fs.pend, fs.lasttarget);
    EntryPatched(fs.code, fs.pend, fs'.code, fs.pend, |fs.code|);
    forall regs ensures Out(env, fs', regs) == Out(env, fs, regs) { OutRelinked(env, fs, fs', regs); }
  }

  lemma RemovedFrame(a: FS, fs: FS, fs': FS, l: Lists)
    requires FsOk(fs) && Frame(a, fs, l) && OwnLists(fs, l) && fs' == fs.(code := fs'.code) && Removed(fs.code, fs'.code, l)
    ensures Frame(a, fs', Flip(l)) && OwnLists(fs', Flip(l))
  {
    forall q | Outer(a, q) ensures Outer(fs', q) && !InLists(Flip(l), q) && SameJump(a.code, fs'.code, q) {
      assert Outer(fs, q) && !InLists(l, q) && SameJump(a.code, fs.code, q);
      assert fs.code[q].JMP?;
    }
    forall q | Outer(fs', q) ensures Outer(a, q) || InLists(Flip(l), q) { assert Outer(fs, q); }
    forall q | InLists(Flip(l), q) ensures Outer(fs', q) { assert InLists(l, q) && Outer(fs, q); }
  }

  lemma OwnJump(fs: FS, l: Lists, q: int)
    requires OwnLists(fs, l) && InLists(l, q)
    ensures Pending(fs.pend, q) && !On(fs.here, q)
  {
    assert Outer(fs, q);
  }

  // ----- loading the booleans -----

  /** `b` is `a` with the two LOADBOOLs that jumps without a value are sent to, behind a jump
      around them if a value may fall through. */
  ghost predicate Labelled(a: FS, b: FS, reg: int, jumped: bool) {
    && |b.code| == |a.code| + (if jumped then 3 else 2)
    && b.code[..|a.code|] == a.code
    && (jumped ==> b.code[|a.code|].JMP?)
    && b.code[|b.code| - 2] == LOADBOOL(reg, false, true)
    && b.code[|b.code| - 1] == LOADBOOL(reg, true, false)
    && b == a.(code := b.code, lasttarget := |b.code|, jpc := b.jpc, here := b.here, pend := b.pend)
    && (forall q :: Pending(b.pend, q) <==> Pending(a.pend, q) || (jumped && q == |a.code|))
    && (forall q :: On(b.here, q) <==> jumped && (On(a.here, q) || q == |a.code|))
    && (!jumped ==> a.here == [])
  }

  lemma LabelledOk(a: FS, b: FS, reg: int, jumped: bool)
    requires FsOk(a) && Labelled(a, b, reg, jumped) && HereOk(b)
    ensures FsOk(b) && Frame(a, b, NoLists)
  {
    NoListsEmpty();
    assert forall q :: 0 <= q < |a.code| ==> b.code[q] == a.code[q] by {
      assert forall q :: 0 <= q < |a.code| ==> b.code[..|a.code|][q] == b.code[q];
    }
    forall q | 0 <= q < |b.code| ensures InstrOk(|b.k|, b.code, b.pend, b.lasttarget, q) {
      if q < |a.code| {
        assert InstrOk(|a.k|, a.code, a.pend, a.lasttarget, q);
      }
    }
    forall q | Outer(a, q) ensures Outer(b, q) && SameJump(a.code, b.code, q) { assert a.code[q].JMP?; }
    forall q | Outer(b, q) ensures Outer(a, q) { }
  }

  lemma LabelledOut(env: Env, a: FS, b: FS, reg: int, jumped: bool, regs: Regs)
    requires FsOk(a) && Labelled(a, b, reg, jumped)
    ensures var o := Out(env, a, regs);
            Out(env, b, regs) == if jumped || !o.Fall? then o else Fall(o.regs[reg := Bool(false)])
  {
    var d := b.code[|a.code|..];
    assert b.code == a.code + d;
    RunAppend(env.sem, a.k, a.code, a.pend, a.lasttarget, d, b.pend, 0, regs);
    assert b.code[|a.code|] == d[0] && b.code[|a.code| + 1] == d[1];
    ExpJumps.RunExit(env.sem, a.k, a.code, a.pend, 0, regs);
    var o := Run(env.sem, a.k, a.code, a.pend, 0, regs);
    if o.Exit? { assert a.code[o.j].JMP?; }
  }

  /** Either way the value is in `reg` where the code falls through. */
  lemma LabelledMeans(g: Goal, a: FS, k: ExpKind, l: Lists, b: FS, reg: int, jumped: bool)
    requires Means(g, a, k, l) && Labelled(a, b, reg, jumped) && HereOk(b)
    requires k == if jumped then VNONRELOC(reg) else VFALSE
    requires reg >= g.base || reg == g.dest
    ensures Means(g, b, VNONRELOC(reg), l)
  {
    hide FsOk, HereOk, Labelled, Frame, Out;
    BodySame(a, k);
    LabelledOk(a, b, reg, jumped);
    forall regs | Clean(g.env, regs)
      ensures PutsAt(g.env, Out(g.env, a, regs), a.code, a.k, k, Out(g.env, b, regs), reg)
    {
      LabelledOut(g.env, a, b, reg, jumped, regs);
    }
    PutMeans(g, a, k, l, b, reg);
  }

  // ----- patching the exits -----

  /** Where the jumps without a value go. */
  ghost predicate Labels(c: Code, l: Lists, reg: int, pf: int) {
    && 0 <= pf == |c| - 2 && Entry(c, pf)
    && c[pf] == LOADBOOL(reg, false, true) && c[pf + 1] == LOADBOOL(reg, true, false)
    && (forall q :: InLists(l, q) ==> q < pf)
  }

  /** Both lists are patched: with a value to the end, without one to its LOADBOOL. */
  ghost predicate Collected(c: Code, c': Code, l: Lists, reg: int, pf: int) {
    |c'| == |c| && forall q :: 0 <= q < |c| ==> CollectedAt(c, c', l, reg, pf, q)
  }

  ghost predicate CollectedAt(c: Code, c': Code, l: Lists, reg: int, pf: int, q: int)
    requires |c'| == |c| && 0 <= q < |c|
  {
    if InLists(l, q) then
      c'[q] == JMP((if Sets(c, q) then |c| else if On(l.f, q) then pf else pf + 1) - (q + 1))
    else if InLists(l, q + 1) then c'[q] == PatchTest(c[q], reg)
    else c'[q] == c[q]
  }

  lemma CollectTwice(c: Code, c1: Code, c': Code, l: Lists, reg: int, pf: int, pt: int)
    requires Patched(c, c1, l.f, |c|, reg, pf) && Patched(c1, c', l.t, |c|, reg, pt) && Apart(l.t, l.f)
    requires forall q :: InLists(l, q) ==> 0 <= q < |c| && c[q].JMP?
    requires pt == pf + 1 || forall q :: InLists(l, q) ==> Sets(c, q)
    ensures Collected(c, c', l, reg, pf)
  {
    forall q | 0 <= q < |c| ensures CollectedAt(c, c', l, reg, pf, q) {
      assert PatchedAt(c, c1, l.f, |c|, reg, pf, q) && PatchedAt(c1, c', l.t, |c|, reg, pt, q);
      if On(l.t, q) { PatchedSets(c, c1, l, reg, pf, q); }
    }
  }

  lemma PatchedSets(c: Code, c1: Code, l: Lists, reg: int, pf: int, q: int)
    requires Patched(c, c1, l.f, |c|, reg, pf) && On(l.t, q) && Apart(l.t, l.f) && 0 <= q < |c|
    requires forall q :: InLists(l, q) ==> 0 <= q < |c| && c[q].JMP?
    ensures Sets(c1, q) == Sets(c, q)
  {
    if q > 0 { assert PatchedAt(c, c1, l.f, |c|, reg, pf, q - 1); }
  }

  lemma CollectPatches(fs: FS, fs': FS, l: Lists, reg: int, pf: int)
    requires FsOk(fs) && OwnLists(fs, l) && Collected(fs.code, fs'.code, l, reg, pf)
    requires (forall q :: InLists(l, q) ==> Sets(fs.code, q)) || Labels(fs.code, l, reg, pf)
    requires forall q :: Pending(fs'.pend, q) <==> Pending(fs.pend, q) && !InLists(l, q)
    requires fs.lasttarget == |fs.code|
    ensures Patches(fs.code, fs.pend, fs'.code, fs'.pend) && CodeOk(|fs.k|, fs'.code, fs'.pend, fs.lasttarget)
    ensures Entry(fs'.code, |fs'.code|)
  {
    var c, c' := fs.code, fs'.code;
    forall q | InLists(l, q) ensures 0 <= q < |c| && c[q].JMP? { assert Outer(fs, q); }
    forall pc ensures Entry(c', pc) == Entry(c, pc) {
      if 0 < pc <= |c| { assert CollectedAt(c, c', l, reg, pf, pc - 1); }
    }
    forall q | 0 <= q < |c| ensures PatchesAt(c, fs.pend, c', fs'.pend, q) {
      assert CollectedAt(c, c', l, reg, pf, q) && InstrOk(|fs.k|, c, fs.pend, fs.lasttarget, q);
    }
    forall q | 0 <= q < |c| && Pending(fs.pend, q) && !Pending(fs'.pend, q) && c'[q].JMP? ensures Target(c', q) <= |c| {
      assert CollectedAt(c, c', l, reg, pf, q);
    }
    CodePatched(|fs.k|, c, fs.pend, fs.lasttarget, c', fs'.pend, fs.lasttarget);
  }

  /** Taking a patched exit leaves the carried value in `reg`. */
  lemma ExitPuts(env: Env, fs: FS, fs': FS, l: Lists, reg: int, pf: int, j: int, regs: Regs, v: Value)
    requires FsOk(fs) && OwnLists(fs, l) && Collected(fs.code, fs'.code, l, reg, pf) && reg != NO_REG
    requires (forall q :: InLists(l, q) ==> Sets(fs.code, q)) || Labels(fs.code, l, reg, pf)
    requires Carries(fs.code, l, j, regs, v)
    ensures 0 <= j < |fs'.code| && fs'.code[j].JMP? && Target(fs'.code, j) >= 0
    ensures var o := Run(env.sem, fs.k, fs'.code, fs'.pend, Target(fs'.code, j), Carry(fs'.code, j, regs));
            o.Fall? && Put(regs, o.regs, reg, v)
  {
    var c, c' := fs.code, fs'.code;
    assert Outer(fs, j);
    assert CollectedAt(c, c', l, reg, pf, j);
    if j > 0 {
      assert CollectedAt(c, c', l, reg, pf, j - 1);
      if InLists(l, j - 1) { assert Outer(fs, j - 1); }
    }
    if !Sets(c, j) {
      assert Labels(c, l, reg, pf);
      assert CollectedAt(c, c', l, reg, pf, pf) && CollectedAt(c, c', l, reg, pf, pf + 1);
      assert !InLists(l, pf) && !InLists(l, pf + 1) && !InLists(l, pf + 2);
    }
  }

  lemma CollectFrame(g: Goal, fs: FS, l: Lists, fs': FS, reg: int, pf: int)
    requires FsOk(fs) && Frame(g.start, fs, l) && OwnLists(fs, l) && Collected(fs.code, fs'.code, l, reg, pf)
    requires forall q :: Pending(fs'.pend, q) <==> Pending(fs.pend, q) && !InLists(l, q)
    requires fs' == fs.(code := fs'.code, pend := fs'.pend)
    ensures Frame(g.start, fs', NoLists) && ListOk(fs'.code, fs.jpc, fs.here)
  {
    NoListsEmpty();
    forall q | Outer(g.start, q) ensures Outer(fs', q) && SameJump(g.start.code, fs'.code, q) {
      assert Outer(fs, q) && !InLists(l, q) && SameJump(g.start.code, fs.code, q);
      assert CollectedAt(fs.code, fs'.code, l, reg, pf, q) && fs.code[q].JMP?;
      if q > 0 {
        assert CollectedAt(fs.code, fs'.code, l, reg, pf, q - 1);
        if InLists(l, q - 1) { assert fs.code[q - 1].JMP?; }
      }
    }
    forall q | Outer(fs', q) ensures Outer(g.start, q) { assert Outer(fs, q); }
    forall q | On(fs.here, q) && 0 <= q < |fs.code| ensures q < |fs'.code| && fs'.code[q] == fs.code[q] {
      assert CollectedAt(fs.code, fs'.code, l, reg, pf, q) && fs.code[q].JMP?;
      if InLists(l, q) { OwnJump(fs, l, q); }
    }
    ListFrame(fs.code, fs'.code, fs.jpc, fs.here);
  }

  lemma CollectMeans(g: Goal, fs: FS, l: Lists, fs': FS, reg: int, pf: int)
    requires Means(g, fs, VNONRELOC(reg), l) && Collected(fs.code, fs'.code, l, reg, pf)
    requires reg != NO_REG && (reg >= g.base || reg == g.dest)
    requires (forall q :: InLists(l, q) ==> Sets(fs.code, q)) || Labels(fs.code, l, reg, pf)
    requires forall q :: Pending(fs'.pend, q) <==> Pending(fs.pend, q) && !InLists(l, q)
    requires fs.lasttarget == |fs.code| && fs' == fs.(code := fs'.code, pend := fs'.pend)
    ensures Means(g, fs', VNONRELOC(reg), NoLists)
  {
    BodySame(fs, VNONRELOC(reg));
    BodySame(fs', VNONRELOC(reg));
    CollectPatches(fs, fs', l, reg, pf);
    CollectFrame(g, fs, l, fs', reg, pf);
    hide Labels, Collected, Patches, CodeOk, Frame, ListOk;
    assert FsOk(fs');
    NoListsEmpty();
    forall regs | Clean(g.env, regs)
      ensures Delivers(g, Out(g.env, g.start, regs), Out(g.env, fs', regs), fs'.code, fs'.k, VNONRELOC(reg), NoLists)
    {
      CollectDelivers(g, fs, l, fs', reg, pf, regs);
    }
  }

  lemma CollectDelivers(g: Goal, fs: FS, l: Lists, fs': FS, reg: int, pf: int, regs: Regs)
    requires Means(g, fs, VNONRELOC(reg), l) && Collected(fs.code, fs'.code, l, reg, pf) && Clean(g.env, regs)
    requires reg != NO_REG && (reg >= g.base || reg == g.dest)
    requires (forall q :: InLists(l, q) ==> Sets(fs.code, q)) || Labels(fs.code, l, reg, pf)
    requires forall q :: Pending(fs'.pend, q) <==> Pending(fs.pend, q) && !InLists(l, q)
    requires fs' == fs.(code := fs'.code, pend := fs'.pend) && Patches(fs.code, fs.pend, fs'.code, fs'.pend)
    ensures Delivers(g, Out(g.env, g.start, regs), Out(g.env, fs', regs), fs'.code, fs'.k, VNONRELOC(reg), NoLists)
  {
    hide Labels, Collected, Patches, CodeOk, ListOk, Frame;
    BodySame(fs, VNONRELOC(reg));
    RunPatched(g.env.sem, fs.k, fs.code, fs.pend, fs.lasttarget, fs'.code, fs'.pend, 0, regs);
    var o, o1 := Out(g.env, g.start, regs), Out(g.env, fs, regs);
    assert Delivers(g, o, o1, fs.code, fs.k, VNONRELOC(reg), l);
    if o.Fall? && o1.Exit? {
      var v := Eval(g.env.sem, g.expr, o.regs).value;
      ExitPuts(g.env, fs, fs', l, reg, pf, o1.j, o1.regs, v);
      assert Outer(fs, o1.j);
    } else if o.Exit? {
      ExpJumps.OutExit(g.env, g.start, regs);
      StartKept(g.start, fs, l, o.j);
    }
    HereKept(fs, l);
  }

  lemma StartKept(a: FS, fs: FS, l: Lists, q: int)
    requires Frame(a, fs, l) && Outer(a, q)
    ensures Outer(fs, q) && !InLists(l, q)
  {
  }

  lemma HereKept(fs: FS, l: Lists)
    requires OwnLists(fs, l)
    ensures forall q :: On(fs.here, q) ==> !InLists(l, q)
  {
    forall q | On(fs.here, q) ensures !InLists(l, q) { if InLists(l, q) { OwnJump(fs, l, q); } }
  }
}
