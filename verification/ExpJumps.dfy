/** Tests and their jump lists: making a condition of a value, sending jumps to the next
    instruction, negating, and collecting all exits in one register (luaK_goiftrue, luaK_goiffalse,
    codenot and exp2reg, lcode.c). */
module ExpJumps {
  import opened Wrappers
  import opened LuaVM
  import Expressions
  import opened CodeState
  import opened ExpMeaning
  import ExpValues
  import Patching

  /** `d` is `b` with its jumps to here patched, or the like. */
  ghost predicate Settled(env: Env, b: FS, d: FS) {
    && FsOk(d) && Frame(b, d, NoLists)
    && (forall regs :: Out(env, d, regs) == Out(env, b, regs))
  }

  lemma SettledSelf(env: Env, fs: FS)
    requires FsOk(fs)
    ensures Settled(env, fs, fs)
  {
    ExpValues.FrameSelf(fs);
  }

  lemma DischargedSettled(env: Env, fs: FS, d: FS)
    requires FsOk(fs) && Discharged(fs, d)
    ensures Settled(env, fs, d) && d.here == [] && d.k == fs.k && |d.code| == |fs.code|
  {
    DischargeOk(env, fs, d);
  }

  /** The same value found elsewhere after the same code. */
  lemma Revalued(g: Goal, fs: FS, k: ExpKind, l: Lists, fs': FS, k': ExpKind)
    requires Means(g, fs, k, l) && Ready(fs', k') && Settled(g.env, Body(fs, k), Body(fs', k'))
    requires forall regs :: KindValue(g.env, fs'.code, fs'.k, k', regs) == KindValue(g.env, fs.code, fs.k, k, regs)
    ensures Means(g, fs', k', l)
  {
    hide FsOk, KindValue;
    var b, b' := Body(fs, k), Body(fs', k');
    OwnFramed(b, b', l);
    NoListsEmpty();
    FrameTransitive(g.start, b, b', l, NoLists, l);
    forall regs | Clean(g.env, regs)
      ensures Delivers(g, Out(g.env, g.start, regs), Out(g.env, b', regs), fs'.code, fs'.k, k', l)
    {
      var o, o1 := Out(g.env, g.start, regs), Out(g.env, b, regs);
      assert Delivers(g, o, o1, fs.code, fs.k, k, l);
      if o.Fall? && o1.Exit? {
        CarriesAcross(fs, k, fs', k', l, o1.j, o1.regs, Expressions.Eval(g.env.sem, g.expr, o.regs).value);
      }
    }
  }

  lemma CarriesAcross(fs: FS, k: ExpKind, fs': FS, k': ExpKind, l: Lists, j: int, regs: Regs, v: Value)
    requires Carries(fs.code, l, j, regs, v) && SameJump(Body(fs, k).code, Body(fs', k').code, j)
    ensures Carries(fs'.code, l, j, regs, v)
  {
  }

  // ----- committing a test -----

  /** `l'` is `l` with jump `j` on the list for `sense`. */
  ghost predicate Joins(l: Lists, j: int, sense: bool, l': Lists) {
    && (forall q :: On(l'.t, q) <==> On(l.t, q) || (sense && q == j))
    && (forall q :: On(l'.f, q) <==> On(l.f, q) || (!sense && q == j))
  }

  /** Test `i` jumps exactly when the value is `sense`, and the jump carries the value. */
  ghost predicate TestFits(env: Env, ks: seq<Value>, i: Instr, regs: Regs, v: Option<Value>, sense: bool)
    requires IsTest(i)
  {
    match v
    case None => Taken(env.sem, ks, i, regs) == None
    case Some(v) =>
      Taken(env.sem, ks, i, regs) == Some(Truthy(v) == sense) &&
      (Truthy(v) == sense ==> if i.TESTSET? then Get(regs, i.b) == v else v == Bool(sense))
  }

  ghost predicate Tests(g: Goal, fs: FS, k: ExpKind, d: FS, i: Instr, sense: bool)
    requires IsTest(i)
  {
    forall regs :: TestFits(g.env, d.k, i, regs, KindValue(g.env, fs.code, fs.k, k, regs), sense)
  }

  lemma CommitFrame(g: Goal, b: FS, l: Lists, d: FS, i: Instr, sense: bool, l': Lists)
    requires FsOk(d) && d.here == [] && Frame(b, d, NoLists) && OwnLists(b, l) && Frame(g.start, b, l)
    requires IsTest(i) && OperandsOk(i, |d.k|) && Joins(l, |d.code| + 1, sense, l')
    ensures var fs' := PlusTest(d, i);
            FsOk(fs') && OwnLists(fs', l') && Frame(g.start, fs', l') &&
            forall q :: InLists(l, q) ==> SameJump(b.code, fs'.code, q)
  {
    hide FsOk;
    var fs' := PlusTest(d, i);
    var only := Lists([|d.code| + 1], []);
    forall q ensures InLists(only, q) <==> q == |d.code| + 1 {
      var r := q;
      assert r in only.t <==> r == |d.code| + 1;
    }
    CodePlusTest(d, i, only);
    OwnFramed(b, d, l);
    NoListsEmpty();
    FrameTransitive(g.start, b, d, l, NoLists, l);
    FrameTransitive(g.start, d, fs', l, only, l');
    CommitOwn(d, i, l, l', only);
  }

  lemma CommitOwn(d: FS, i: Instr, l: Lists, l': Lists, only: Lists)
    requires OwnLists(d, l) && Frame(d, PlusTest(d, i), only) && d.here == []
    requires forall q :: InLists(only, q) <==> q == |d.code| + 1
    requires forall q :: On(l'.t, q) || On(l'.f, q) <==> InLists(l, q) || q == |d.code| + 1
    requires forall q :: On(l'.t, q) && On(l'.f, q) ==> InLists(l, q)
    requires forall q :: q != |d.code| + 1 ==> (On(l'.t, q) <==> On(l.t, q)) && (On(l'.f, q) <==> On(l.f, q))
    ensures OwnLists(PlusTest(d, i), l')
  {
    var fs' := PlusTest(d, i);
    forall q | InLists(l', q) ensures Outer(fs', q) {
      PlusTestPending(d, i, q);
      if q != |d.code| + 1 { assert Outer(d, q); }
    }
    var j := |d.code| + 1;
    assert InLists(only, j) && !InLists(l, j);
  }

  lemma CommitDelivers(g: Goal, o: Outcome, o1: Outcome, fs: FS, k: ExpKind, l: Lists, d: FS, i: Instr, sense: bool, l': Lists, o2: Outcome)
    requires IsTest(i) && Delivers(g, o, o1, fs.code, fs.k, k, l)
    requires Joins(l, |d.code| + 1, sense, l')
    requires o1.Fall? ==> TestFits(g.env, d.k, i, o1.regs, KindValue(g.env, fs.code, fs.k, k, o1.regs), sense)
    requires forall q :: InLists(l, q) ==> SameJump(Body(fs, k).code, PlusTest(d, i).code, q) && q <= |d.code|
    requires o2 == if !o1.Fall? then o1
                   else if Taken(g.env.sem, d.k, i, o1.regs).None? then Error
                   else if Taken(g.env.sem, d.k, i, o1.regs).value then Exit(|d.code| + 1, o1.regs)
                   else Fall(o1.regs)
    requires o.Fall? ==> !o1.Returned? && !o1.Stuck?
    ensures Decides(g, o, o2, PlusTest(d, i).code, l', !sense)
    ensures i.COMPARE? && (forall regs, v :: KindValue(g.env, fs.code, fs.k, k, regs) == Some(v) ==> v.Bool?) ==>
              Delivers(g, o, o2, PlusTest(d, i).code, d.k, if sense then VFALSE else VTRUE, l')
  {
    hide KindValue;
    BoolKinds(g.env, PlusTest(d, i).code, d.k);
    var c' := PlusTest(d, i).code;
    if o.Fall? {
      var v := Expressions.Eval(g.env.sem, g.expr, o.regs);
      if o1.Exit? {
        ExpValues.CarriesBody(fs, k, l, o1.j, o1.regs, v.value);
        CarriesFramed(Body(fs, k).code, c', l, o1.j, o1.regs, v.value);
        assert Carries(c', l', o1.j, o1.regs, v.value);
      } else if o1.Fall? {
        assert TestFits(g.env, d.k, i, o1.regs, v, sense);
        assert !InLists(l, |d.code| + 1);
        assert c'[|d.code|] == i;
      }
    }
  }

  lemma BoolKinds(env: Env, c: Code, ks: seq<Value>)
    ensures forall regs :: KindValue(env, c, ks, VTRUE, regs) == Some(Bool(true))
    ensures forall regs :: KindValue(env, c, ks, VFALSE, regs) == Some(Bool(false))
  {
  }

  /** The value becomes a condition: fall through when it is not `sense`. */
  lemma CommitTest(g: Goal, fs: FS, k: ExpKind, l: Lists, d: FS, i: Instr, sense: bool, l': Lists)
    requires Means(g, fs, k, l) && Settled(g.env, Body(fs, k), d) && d.here == []
    requires IsTest(i) && OperandsOk(i, |d.k|) && Joins(l, |d.code| + 1, sense, l') && Tests(g, fs, k, d, i, sense)
    ensures Branches(g, PlusTest(d, i), l', !sense)
    ensures i.COMPARE? && (forall regs, v :: KindValue(g.env, fs.code, fs.k, k, regs) == Some(v) ==> v.Bool?) ==>
              Means(g, PlusTest(d, i), if sense then VFALSE else VTRUE, l')
  {
    hide FsOk, KindValue, Delivers, Decides, Joins;
    var b := Body(fs, k);
    var fs' := PlusTest(d, i);
    CommitFrame(g, b, l, d, i, sense, l');
    var boolean := i.COMPARE? && (forall regs, v :: KindValue(g.env, fs.code, fs.k, k, regs) == Some(v) ==> v.Bool?);
    var k' := if sense then VFALSE else VTRUE;
    ExpValues.BodySame(fs', k');
    forall regs | Clean(g.env, regs)
      ensures Decides(g, Out(g.env, g.start, regs), Out(g.env, fs', regs), fs'.code, l', !sense)
      ensures boolean ==> Delivers(g, Out(g.env, g.start, regs), Out(g.env, fs', regs), fs'.code, fs'.k, k', l')
    {
      var o, o1 := Out(g.env, g.start, regs), Out(g.env, b, regs);
      assert Delivers(g, o, o1, fs.code, fs.k, k, l);
      OutPlusTest(g.env, d, i, regs);
      if o1.Fall? {
        assert TestFits(g.env, d.k, i, o1.regs, KindValue(g.env, fs.code, fs.k, k, o1.regs), sense);
      }
      NoStop(g, o, o1, fs.code, fs.k, k, l);
      forall q | InLists(l, q) ensures q <= |d.code| { assert SameJump(b.code, d.code, q); }
      CommitDelivers(g, o, o1, fs, k, l, d, i, sense, l', Out(g.env, fs', regs));
    }
  }

  lemma NoStop(g: Goal, o: Outcome, o1: Outcome, c: Code, ks: seq<Value>, k: ExpKind, l: Lists)
    requires Delivers(g, o, o1, c, ks, k, l)
    ensures o.Fall? ==> !o1.Returned? && !o1.Stuck?
    ensures !o.Fall? ==> o1 == o
  {
  }

  /** A constant condition needs no test. */
  lemma ConstantBranches(g: Goal, fs: FS, k: ExpKind, l: Lists, sense: bool)
    requires Means(g, fs, k, l) && TailLength(k) == 0
    requires forall regs :: KindValue(g.env, fs.code, fs.k, k, regs).Some?
    requires forall regs :: Truthy(KindValue(g.env, fs.code, fs.k, k, regs).value) == sense
    ensures Branches(g, fs, l, sense)
  {
    hide FsOk, KindValue;
    ExpValues.BodySame(fs, k);
    forall regs | Clean(g.env, regs)
      ensures Decides(g, Out(g.env, g.start, regs), Out(g.env, fs, regs), fs.code, l, sense)
    {
      assert Delivers(g, Out(g.env, g.start, regs), Out(g.env, fs, regs), fs.code, fs.k, k, l);
    }
  }

  // ----- relinking -----

  lemma RelinkedPatches(fs: FS, c': Code, l: seq<int>)
    requires FsOk(fs) && Patching.Relinked(fs.code, c', l) && forall q :: On(l, q) ==> Pending(fs.pend, q)
    ensures Patches(fs.code, fs.pend, c', fs.pend)
  {
    forall q | 0 <= q < |fs.code| ensures PatchesAt(fs.code, fs.pend, c', fs.pend, q) {
      assert InstrOk(|fs.k|, fs.code, fs.pend, fs.lasttarget, q);
    }
  }

  /** A state that differs in the links of pending jumps, or in `lasttarget`. */
  ghost predicate Relinks(fs: FS, fs': FS, l: seq<int>) {
    && fs' == fs.(code := fs'.code, lasttarget := fs'.lasttarget, jpc := fs'.jpc, here := fs'.here)
    && Patching.Relinked(fs.code, fs'.code, l)
    && fs.lasttarget <= fs'.lasttarget <= |fs.code|
    && (forall q :: On(l, q) ==> Pending(fs.pend, q))
  }

  lemma RelinkRun(env: Env, fs: FS, fs': FS, l: seq<int>)
    requires FsOk(fs) && Relinks(fs, fs', l) && HereOk(fs')
    ensures FsOk(fs')
    ensures forall regs :: Run(env.sem, fs'.k, fs'.code, fs'.pend, 0, regs) == Run(env.sem, fs.k, fs.code, fs.pend, 0, regs)
  {
    RelinkedPatches(fs, fs'.code, l);
    CodePatched(|fs.k|, fs.code, fs.pend, fs.lasttarget, fs'.code, fs.pend, fs'.lasttarget);
    EntryPatched(fs.code, fs.pend, fs'.code, fs.pend, |fs.code|);
    forall regs ensures Run(env.sem, fs'.k, fs'.code, fs'.pend, 0, regs) == Run(env.sem, fs.k, fs.code, fs.pend, 0, regs) {
      RunPatched(env.sem, fs.k, fs.code, fs.pend, fs.lasttarget, fs'.code, fs.pend, 0, regs);
    }
  }

  lemma RelinkOut(env: Env, fs: FS, fs': FS, l: seq<int>)
    requires FsOk(fs) && Relinks(fs, fs', l) && HereOk(fs') && fs'.here == fs.here
    ensures FsOk(fs') && forall regs :: Out(env, fs', regs) == Out(env, fs, regs)
  {
    RelinkRun(env, fs, fs', l);
  }

  /** Jumps whose links changed still have their tests. */
  lemma RelinkedJump(c: Code, c': Code, l: seq<int>, q: int)
    requires Patching.Relinked(c, c', l) && 0 <= q < |c| && !On(l, q)
    ensures SameJump(c, c', q)
  {
  }

  lemma CarriesRelinked(c: Code, c': Code, r: seq<int>, l: Lists, l': Lists, j: int, regs: Regs, v: Value)
    requires Carries(c, l, j, regs, v) && Patching.Relinked(c, c', r)
    requires On(l'.t, j) == On(l.t, j) && On(l'.f, j) == On(l.f, j)
    ensures Carries(c', l', j, regs, v)
  {
  }

  ghost predicate SameLists(l: Lists, l': Lists) {
    (forall q :: On(l'.t, q) == On(l.t, q)) && (forall q :: On(l'.f, q) == On(l.f, q))
  }

  lemma RelinkFrame(a: FS, fs: FS, fs': FS, r: seq<int>, l: Lists, l': Lists)
    requires Frame(a, fs, l) && Relinks(fs, fs', r) && SameLists(l, l') && fs'.here == fs.here
    requires forall q :: On(r, q) ==> InLists(l, q) || On(fs.here, q)
    ensures Frame(a, fs', l')
  {
    forall q | Outer(a, q) ensures Outer(fs', q) && !InLists(l', q) && SameJump(a.code, fs'.code, q) {
      assert Outer(fs, q) && !InLists(l, q) && SameJump(a.code, fs.code, q);
      RelinkedJump(fs.code, fs'.code, r, q);
    }
    forall q | Outer(fs', q) ensures Outer(a, q) || InLists(l', q) { assert Outer(fs, q); }
  }

  lemma RelinkOwn(fs: FS, fs': FS, r: seq<int>, l: Lists, l': Lists)
    requires OwnLists(fs, l) && Relinks(fs, fs', r) && SameLists(l, l') && fs'.here == fs.here
    ensures OwnLists(fs', l')
  {
    forall q | InLists(l', q) ensures Outer(fs', q) { assert InLists(l, q) && Outer(fs, q); }
  }

  lemma RelinkBranches(g: Goal, fs: FS, l: Lists, sense: bool, fs': FS, r: seq<int>, l': Lists)
    requires Branches(g, fs, l, sense) && Relinks(fs, fs', r) && fs'.here == fs.here && HereOk(fs') && SameLists(l, l')
    requires forall q :: On(r, q) ==> InLists(l, q) || On(fs.here, q)
    ensures Branches(g, fs', l', sense)
  {
    hide FsOk, Relinks, HereOk, OwnLists, Frame;
    RelinkOut(g.env, fs, fs', r);
    RelinkFrame(g.start, fs, fs', r, l, l');
    RelinkOwn(fs, fs', r, l, l');
    RelinksCode(fs, fs', r);
    forall regs | Clean(g.env, regs)
      ensures Decides(g, Out(g.env, g.start, regs), Out(g.env, fs', regs), fs'.code, l', sense)
    {
      var o, o1 := Out(g.env, g.start, regs), Out(g.env, fs, regs);
      assert Decides(g, o, o1, fs.code, l, sense);
      if o.Fall? && o1.Exit? {
        CarriesRelinked(fs.code, fs'.code, r, l, l', o1.j, o1.regs, Expressions.Eval(g.env.sem, g.expr, o.regs).value);
      }
    }
  }

  lemma RelinksCode(fs: FS, fs': FS, r: seq<int>)
    requires Relinks(fs, fs', r)
    ensures Patching.Relinked(fs.code, fs'.code, r)
  {
  }

  lemma RelinkMeans(g: Goal, fs: FS, k: ExpKind, l: Lists, fs': FS, r: seq<int>, l': Lists)
    requires Means(g, fs, k, l) && Relinks(fs, fs', r) && SameLists(l, l')
    requires fs'.here == fs.here && fs'.lasttarget == fs.lasttarget && HereOk(Body(fs', k))
    requires forall q :: On(r, q) ==> InLists(l, q) || On(fs.here, q)
    ensures Means(g, fs', k, l')
  {
    hide FsOk, HereOk, OwnLists, Frame;
    var b, b' := Body(fs, k), Body(fs', k);
    RelinkBody(fs, k, l, fs', r);
    RelinkOut(g.env, b, b', r);
    RelinkFrame(g.start, b, b', r, l, l');
    RelinkOwn(b, b', r, l, l');
    forall regs | Clean(g.env, regs)
      ensures Delivers(g, Out(g.env, g.start, regs), Out(g.env, b', regs), fs'.code, fs'.k, k, l')
    {
      var o, o1 := Out(g.env, g.start, regs), Out(g.env, b, regs);
      assert Delivers(g, o, o1, fs.code, fs.k, k, l);
      TailSame(g.env, fs, k, fs');
      if o.Fall? && o1.Exit? {
        CarriesRelinked(fs.code, fs'.code, r, l, l', o1.j, o1.regs, Expressions.Eval(g.env.sem, g.expr, o.regs).value);
      }
    }
  }

  lemma RelinkBody(fs: FS, k: ExpKind, l: Lists, fs': FS, r: seq<int>)
    requires Ready(fs, k) && OwnLists(Body(fs, k), l) && Relinks(fs, fs', r) && fs'.here == fs.here && fs'.lasttarget == fs.lasttarget
    requires forall q :: On(r, q) ==> InLists(l, q) || On(fs.here, q)
    ensures Relinks(Body(fs, k), Body(fs', k), r) && TailOk(fs', k) && |Body(fs', k).code| == |Body(fs, k).code|
    ensures forall q :: |Body(fs, k).code| <= q < |fs.code| ==> fs'.code[q] == fs.code[q]
    ensures forall q :: On(r, q) ==> InLists(l, q) || On(Body(fs, k).here, q)
  {
    var b := Body(fs, k);
    forall q | On(r, q) ensures 0 <= q < |b.code| {
      assert Pending(b.pend, q);
    }
  }

  lemma TailSame(env: Env, fs: FS, k: ExpKind, fs': FS)
    requires TailLength(k) <= |fs.code| == |fs'.code| && fs'.k == fs.k && TailOk(fs, k)
    requires forall q :: |fs.code| - TailLength(k) <= q < |fs.code| ==> fs'.code[q] == fs.code[q]
    ensures forall regs :: KindValue(env, fs'.code, fs'.k, k, regs) == KindValue(env, fs.code, fs.k, k, regs)
  {
  }

  // ----- sending a list to the next instruction -----

  /** Exits of the list for `sense` fall through too. */
  lemma BranchHere(g: Goal, fs: FS, l: Lists, sense: bool, fs': FS, l': Lists)
    requires Branches(g, fs, l, sense) && Relinks(fs, fs', fs.here) && HereOk(fs')
    requires forall q :: On(fs'.here, q) <==> On(fs.here, q) || (if sense then On(l.t, q) else On(l.f, q))
    requires forall q :: On(l'.t, q) <==> !sense && On(l.t, q)
    requires forall q :: On(l'.f, q) <==> sense && On(l.f, q)
    ensures Branches(g, fs', l', sense)
  {
    hide FsOk, HereOk, Relinks;
    RelinkRun(g.env, fs, fs', fs.here);
    RelinksCode(fs, fs', fs.here);
    HereFrame(g, fs, l, sense, fs', l');
    forall regs | Clean(g.env, regs)
      ensures Decides(g, Out(g.env, g.start, regs), Out(g.env, fs', regs), fs'.code, l', sense)
    {
      var o, o1 := Out(g.env, g.start, regs), Out(g.env, fs, regs);
      assert Decides(g, o, o1, fs.code, l, sense);
      if !o.Fall? && o.Exit? {
        OutExit(g.env, g.start, regs);
        HereOuter(g, fs, l, sense, fs', o.j);
      }
      if o.Fall? && o1.Exit? {
        if On(l'.t, o1.j) || On(l'.f, o1.j) {
          CarriesRelinked(fs.code, fs'.code, fs.here, l, l', o1.j, o1.regs, Expressions.Eval(g.env.sem, g.expr, o.regs).value);
        }
      }
    }
  }

  lemma OutExit(env: Env, fs: FS, regs: Regs)
    requires Out(env, fs, regs).Exit?
    ensures Outer(fs, Out(env, fs, regs).j)
  {
    RunExit(env.sem, fs.k, fs.code, fs.pend, 0, regs);
  }

  lemma {:induction false} RunExit(sem: Semantics, k: seq<Value>, c: Code, pend: set<int>, pc: nat, regs: Regs)
    ensures var o := Run(sem, k, c, pend, pc, regs); o.Exit? ==> Pending(pend, o.j)
    decreases |c| - pc
  {
    if pc < |c| {
      var s := Step(sem, k, c, pend, pc, regs);
      if s.Go? && pc < s.pc { RunExit(sem, k, c, pend, s.pc, s.regs); }
    }
  }

  lemma HereOuter(g: Goal, fs: FS, l: Lists, sense: bool, fs': FS, q: int)
    requires Frame(g.start, fs, l) && Outer(g.start, q)
    requires forall q :: On(fs'.here, q) <==> On(fs.here, q) || (if sense then On(l.t, q) else On(l.f, q))
    ensures !On(fs'.here, q)
  {
    assert Outer(fs, q) && !InLists(l, q);
  }

  lemma HereFrame(g: Goal, fs: FS, l: Lists, sense: bool, fs': FS, l': Lists)
    requires Branches(g, fs, l, sense) && Relinks(fs, fs', fs.here)
    requires forall q :: On(fs'.here, q) <==> On(fs.here, q) || (if sense then On(l.t, q) else On(l.f, q))
    requires forall q :: On(l'.t, q) <==> !sense && On(l.t, q)
    requires forall q :: On(l'.f, q) <==> sense && On(l.f, q)
    ensures OwnLists(fs', l') && Frame(g.start, fs', l')
  {
    hide FsOk, AllDecide;
    forall q | InLists(l', q) ensures Outer(fs', q) { assert InLists(l, q) && Outer(fs, q); }
    forall q | Outer(g.start, q) ensures Outer(fs', q) && !InLists(l', q) && SameJump(g.start.code, fs'.code, q) {
      assert Outer(fs, q) && !InLists(l, q) && SameJump(g.start.code, fs.code, q);
      RelinkedJump(fs.code, fs'.code, fs.here, q);
    }
    forall q | Outer(fs', q) ensures Outer(g.start, q) || InLists(l', q) { assert Outer(fs, q); }
  }
}
