/** The code generator (lcode.c), one method for each of its functions. The ghost parameters name
    what an expression means: its goal and the jumps on its lists. */
module CodeGenerator {
  import opened Wrappers
  import opened LuaVM
  import opened Expressions
  import opened CodeState
  import opened ExpMeaning
  import opened ExpValues
  import opened Patching
  import opened RegisterBounds
  import opened ExpJumps
  import opened ExpExits
  import opened ExpOperators
  import ChunkMeaning

  class FuncState {
    const env: Env
    var fs: FS
    var freereg: int
    var maxstacksize: int
    var nactvar: int

    constructor (env: Env)
      requires env.params < MAXSTACK
      ensures this.env == env && fs == FS([], [], map[], NO_JUMP, -1, [], {})
      ensures freereg == nactvar == env.params && maxstacksize == Max(env.params, 2)
    {
      this.env := env;
      fs := FS([], [], map[], NO_JUMP, -1, [], {});
      freereg, maxstacksize, nactvar := env.params, Max(env.params, 2), env.params;  // registers 0 and 1 are always valid
    }

    // ----- jump lists -----

    method FixJump(pc: int, dest: int) returns (r: Result<()>)
      requires 0 <= pc < |fs.code| && fs.code[pc].JMP? && 0 <= dest <= |fs.code|
      modifies this`fs
      ensures r.Ok? ==> fs == old(fs).(code := old(fs).code[pc := JMP(dest - (pc + 1))])
      ensures r.Failed? ==> fs == old(fs) && |fs.code| > MAXARG_sBx
    {
      var offset := dest - (pc + 1);
      if offset > MAXARG_sBx || -offset > MAXARG_sBx {
        return Failed("control structure too long");
      }
      fs := fs.(code := fs.code[pc := JMP(offset)]);
      return Ok(());
    }

    /** `luaK_getlabel`. */
    method GetLabel() returns (pc: int)
      modifies this`fs
      ensures pc == |fs.code| && fs == old(fs).(lasttarget := pc)
    {
      pc := |fs.code|;
      fs := fs.(lasttarget := pc);
    }

    /** `luaK_concat`. */
    method Concat(l1: int, l2: int, ghost a: seq<int>, ghost b: seq<int>) returns (r: Result<int>)
      requires ListOk(fs.code, l1, a) && ListOk(fs.code, l2, b) && Apart(a, b)
      modifies this`fs
      ensures r.Failed? ==> Near(old(fs), 0)
      ensures r.Ok? ==> Within(old(fs), fs, 0)
      ensures r.Ok? ==> fs == old(fs).(code := fs.code) && Relinked(old(fs).code, fs.code, a)
      ensures r.Ok? ==> ListOk(fs.code, r.value, a + b) && (b == [] ==> fs == old(fs))
    {
      if l2 == NO_JUMP {
        ListEnd(fs.code, l2, b, 0);
        assert a + b == a;
        RelinkedSelf(fs.code, l1, a);
        return Ok(l1);
      } else if l1 == NO_JUMP {
        ListEnd(fs.code, l1, a, 0);
        assert a + b == b;
        return Ok(l2);
      } else {
        var list := l1;
        ghost var i := 0;
        assert LinkOk(fs.code, a, 0);
        assert LinkOk(fs.code, b, 0);
        var next := GetJump(fs.code, list);
        while next != NO_JUMP
          invariant 0 <= i < |a| && list == a[i] && next == At(a, i + 1)
          invariant LinkOk(fs.code, a, i) && fs == old(fs)
          decreases |a| - i
        {
          list := next;
          i := i + 1;
          assert LinkOk(fs.code, a, i);
          next := GetJump(fs.code, list);
        }
        ListEnd(fs.code, l1, a, i + 1);
        var _ :- FixJump(list, l2);
        Linked(old(fs).code, fs.code, l1, l2, a, b);
        return Ok(l1);
      }
    }

    /** `need_value`: whether some jump of the list carries no value. */
    method NeedValue(head: int, ghost l: seq<int>) returns (b: bool)
      requires ListOk(fs.code, head, l)
      ensures b <==> exists q :: On(l, q) && !Sets(fs.code, q)
    {
      var list := head;
      ghost var i := 0;
      while list != NO_JUMP
        invariant 0 <= i <= |l| && list == At(l, i)
        invariant forall j :: 0 <= j < i ==> Sets(fs.code, l[j])
        decreases |l| - i
      {
        assert i < |l|;
        assert LinkOk(fs.code, l, i);
        AtOn(l, i);
        if !(list >= 1 && fs.code[list - 1].TESTSET?) {
          return true;
        }
        list := GetJump(fs.code, list);
        i := i + 1;
      }
      ListEnd(fs.code, head, l, i);
      forall q | On(l, q) ensures Sets(fs.code, q) { OnAt(l, q); }
      return false;
    }

    /** `patchtestreg`. */
    method PatchTestReg(node: int, reg: int) returns (patched: bool)
      requires 0 <= node < |fs.code| && fs.code[node].JMP?
      modifies this`fs
      ensures patched == Sets(old(fs).code, node)
      ensures fs == if patched then old(fs).(code := old(fs).code[node - 1 := PatchTest(old(fs).code[node - 1], reg)]) else old(fs)
    {
      var i := if node >= 1 && IsTest(fs.code[node - 1]) then node - 1 else node;
      if !fs.code[i].TESTSET? {
        return false;
      }
      if reg != NO_REG && reg != fs.code[i].b {
        fs := fs.(code := fs.code[i := TESTSET(reg, fs.code[i].b, fs.code[i].cond)]);
      } else {
        fs := fs.(code := fs.code[i := TEST(fs.code[i].b, fs.code[i].cond)]);
      }
      return true;
    }

    /** `removevalues`. */
    method RemoveValues(head: int, ghost l: seq<int>)
      requires ListOk(fs.code, head, l)
      modifies this`fs
      ensures fs == old(fs).(code := fs.code) && ValuesRemoved(old(fs).code, fs.code, l)
    {
      var list := head;
      ghost var i := 0;
      ghost var c0 := fs.code;
      while list != NO_JUMP
        invariant 0 <= i <= |l| && list == At(l, i)
        invariant fs == old(fs).(code := fs.code) && ValuesRemoved(c0, fs.code, l[..i])
        decreases |l| - i
      {
        assert i < |l| && LinkOk(c0, l, i);
        ghost var c1 := fs.code;
        assert fs.code[list] == c0[list] by {
          if On(l[..i], list + 1) { }
        }
        var _ := PatchTestReg(list, NO_REG);
        RemovedOne(c0, c1, fs.code, head, l, i);
        list := GetJump(fs.code, list);
        i := i + 1;
      }
      ListEnd(c0, head, l, i);
      assert l[..i] == l;
    }

    /** `patchlistaux`. */
    method PatchListAux(head: int, vtarget: int, reg: int, dtarget: int, ghost l: seq<int>) returns (r: Result<()>)
      requires ListOk(fs.code, head, l)
      requires forall q :: On(l, q) ==> 0 <= (if Sets(fs.code, q) then vtarget else dtarget) <= |fs.code|
      modifies this`fs
      ensures r.Failed? ==> Near(old(fs), 0)
      ensures r.Ok? ==> Within(old(fs), fs, 0)
      ensures r.Ok? ==> fs == old(fs).(code := fs.code) && Patched(old(fs).code, fs.code, l, vtarget, reg, dtarget)
    {
      var list := head;
      ghost var i := 0;
      ghost var c0 := fs.code;
      PatchedNone(c0, l, vtarget, reg, dtarget);
      while list != NO_JUMP
        invariant 0 <= i <= |l| && list == At(l, i)
        invariant fs == old(fs).(code := fs.code) && Patched(c0, fs.code, l[..i], vtarget, reg, dtarget)
        decreases |l| - i
      {
        ghost var c1 := fs.code;
        Unpatched(c0, c1, head, l, i, vtarget, reg, dtarget);
        var next := GetJump(fs.code, list);
        var patched := PatchTestReg(list, reg);
        ghost var c2 := fs.code;
        if patched {
          var _ :- FixJump(list, vtarget);
        } else {
          var _ :- FixJump(list, dtarget);
        }
        PatchedOne(c0, c1, c2, fs.code, head, l, i, vtarget, reg, dtarget);
        list := next;
        i := i + 1;
      }
      ListEnd(c0, head, l, i);
      assert l[..i] == l;
      return Ok(());
    }

    /** `dischargejpc`. */
    method DischargeJpc() returns (r: Result<()>)
      requires HereOk(fs)
      modifies this`fs
      ensures r.Failed? ==> Near(old(fs), 0)
      ensures r.Ok? ==> Within(old(fs), fs, 0)
      ensures r.Ok? ==> Discharged(old(fs), fs)
    {
      var _ :- PatchListAux(fs.jpc, |fs.code|, NO_REG, |fs.code|, fs.here);
      ghost var here := fs.here;
      fs := fs.(jpc := NO_JUMP, here := [], pend := set q | q in fs.pend && !On(here, q));
      forall q ensures Pending(fs.pend, q) <==> Outer(old(fs), q) {
        var r := q;
        assert r in fs.pend <==> r in old(fs).pend && !On(here, r);
      }
      return Ok(());
    }

    // ----- emitting -----

    /** `luaK_code`. */
    method Code(i: Instr) returns (r: Result<int>)
      requires HereOk(fs)
      modifies this`fs
      ensures r.Failed? ==> Near(old(fs), 0)
      ensures r.Ok? ==> Within(old(fs), fs, 1)
      ensures r.Ok? ==> r.value == |old(fs).code| == |fs.code| - 1 && fs.code[r.value] == i
      ensures r.Ok? ==> Discharged(old(fs), Prefix(fs, r.value))
    {
      var _ :- DischargeJpc();
      if |fs.code| + 1 > MAX_INT {
        return Failed("code size overflow");
      }
      ghost var d := fs;
      fs := fs.(code := fs.code + [i]);
      assert Prefix(fs, |d.code|) == d;
      return Ok(|fs.code| - 1);
    }

    /** `luaK_jump`: the jumps of `jpc` are kept on hold with the new one. */
    method Jump() returns (r: Result<int>)
      requires HereOk(fs)
      modifies this`fs
      ensures r.Failed? ==> Near(old(fs), 1)
      ensures r.Ok? ==> Within(old(fs), fs, 1)
      ensures r.Ok? ==> r.value == |old(fs).code| == |fs.code| - 1
      ensures r.Ok? ==> ListOk(fs.code, r.value, [r.value] + old(fs).here)
      ensures r.Ok? ==> fs.code[r.value].JMP? && (old(fs).here == [] ==> fs.code[r.value] == JMP(NO_JUMP))
      ensures r.Ok? ==> fs == old(fs).(code := old(fs).code + [fs.code[r.value]], jpc := NO_JUMP, here := [],
                                       pend := old(fs).pend + {r.value})
    {
      var jpc := fs.jpc;
      ghost var here := fs.here;
      fs := fs.(jpc := NO_JUMP, here := []);
      var j :- Code(JMP(NO_JUMP));
      ghost var c := old(fs).code;
      SameCode(c, fs.code[..j]);
      forall q | On(here, q) ensures 0 <= q < |c| && fs.code[q] == c[q] { ListMember(c, jpc, here, q); }
      ListFrame(c, fs.code, jpc, here);
      JumpAlone(fs.code, j);
      forall q | On([j], q) ensures !On(here, q) { var r := q; assert r in [j]; }
      var head :- Concat(j, jpc, [j], here);
      assert head == j && fs.code[..j] == c && LinkOk(fs.code, [j] + here, 0);
      fs := fs.(pend := old(fs).pend + {j});
      return Ok(j);
    }

    /** `luaK_patchtohere`. */
    method PatchToHere(head: int, ghost l: seq<int>) returns (r: Result<()>)
      requires ListOk(fs.code, fs.jpc, fs.here) && ListOk(fs.code, head, l) && Apart(fs.here, l)
      modifies this`fs
      ensures r.Failed? ==> Near(old(fs), 0)
      ensures r.Ok? ==> Within(old(fs), fs, 0)
      ensures r.Ok? ==> Relinked(old(fs).code, fs.code, old(fs).here) && ListOk(fs.code, fs.jpc, fs.here)
      ensures r.Ok? ==> fs == old(fs).(code := fs.code, lasttarget := |fs.code|, jpc := fs.jpc, here := old(fs).here + l)
    {
      var _ := GetLabel();
      var jpc :- Concat(fs.jpc, head, fs.here, l);
      fs := fs.(jpc := jpc, here := fs.here + l);
      return Ok(());
    }

    // ----- registers and constants -----

    /** The code refers to registers of the frame only. */
    ghost predicate Framed()
      reads this
    {
      Bounded(fs.code, fs.pend, maxstacksize)
    }

    ghost predicate StackOk()
      reads this
    {
      env.params <= nactvar <= freereg <= maxstacksize < MAXSTACK && 2 <= maxstacksize && Framed()
    }

    /** `luaK_checkstack` and `luaK_reserveregs`. */
    method ReserveRegs(n: nat) returns (r: Result<()>)
      requires StackOk()
      modifies this`freereg, this`maxstacksize
      ensures r.Ok? ==> StackOk() && freereg == old(freereg) + n
      ensures r.Failed? ==> freereg == old(freereg) && freereg + n >= MAXSTACK
    {
      hide Bounded;
      var newstack := freereg + n;
      if newstack > maxstacksize {
        if newstack >= MAXSTACK {
          return Failed("function or expression too complex");
        }
        BoundedMore(fs.code, fs.pend, maxstacksize, newstack);
        maxstacksize := newstack;
      }
      freereg := newstack;
      return Ok(());
    }

    /** `freereg`: only the last register in use is ever freed. */
    method FreeReg(reg: int)
      requires !ISK(reg) && reg >= nactvar ==> reg == freereg - 1
      modifies this`freereg
      ensures freereg == if !ISK(reg) && reg >= nactvar then old(freereg) - 1 else old(freereg)
    {
      if !ISK(reg) && reg >= nactvar {
        freereg := freereg - 1;
        assert reg == freereg;
      }
    }

    method FreeExp(k: ExpKind)
      requires k.VNONRELOC? && !ISK(k.info) && k.info >= nactvar ==> k.info == freereg - 1
      modifies this`freereg
      ensures freereg == if k.VNONRELOC? && !ISK(k.info) && k.info >= nactvar then old(freereg) - 1 else old(freereg)
    {
      if k.VNONRELOC? {
        FreeReg(k.info);
      }
    }

    /** `addk`: a constant is stored once. */
    method AddK(v: Value) returns (r: Result<int>)
      requires ConstantsOk(fs)
      modifies this`fs
      ensures r.Failed? ==> Near(old(fs), 0)
      ensures r.Ok? ==> Within(old(fs), fs, 1)
      ensures r.Ok? ==> fs == old(fs).(k := fs.k, h := fs.h) && old(fs).k <= fs.k && ConstantsOk(fs)
      ensures r.Ok? ==> 0 <= r.value < |fs.k| <= |old(fs).k| + 1 && fs.k[r.value] == v
    {
      if v in fs.h {
        return Ok(fs.h[v]);
      }
      if |fs.k| >= MAXARG_Bx {
        return Failed("constant table overflow");
      }
      var i := |fs.k|;
      fs := fs.(h := fs.h[v := i], k := fs.k + [v]);
      return Ok(i);
    }

    // ----- values into registers -----

    /** `luaK_nil`. */
    method LoadNil(lo: int, n: int) returns (r: Result<()>)
      requires FsOk(fs) && env.params <= nactvar && n > 0
      requires Framed() && 0 <= lo && lo + n <= maxstacksize
      modifies this`fs
      ensures r.Failed? ==> Near(old(fs), 0)
      ensures r.Ok? ==> Within(old(fs), fs, 1)
      ensures r.Ok? ==> FsOk(fs) && Frame(old(fs), fs, NoLists) && Nils(env, old(fs), fs, lo, n)
      ensures r.Ok? ==> Framed()
    {
      hide FsOk, Frame, Nils, Bounded;
      FsParts(fs);
      if |fs.code| > fs.lasttarget {
        NothingHere(fs);
        if |fs.code| == 0 {
          if lo >= nactvar {
            NilAtStart(env, fs, lo, n);
            FrameSelf(fs);
            return Ok(());
          }
        } else {
          var last := |fs.code| - 1;
          var previous := fs.code[last];
          if previous.LOADNIL? {
            var pfrom, pto := previous.a, previous.b;
            if pfrom <= lo <= pto + 1 {
              ghost var f0 := fs;
              if lo + n - 1 > pto {
                fs := fs.(code := fs.code[last := LOADNIL(pfrom, lo + n - 1)]);
              }
              assert fs.code == f0.code[last := fs.code[last]];
              BoundedInstr(f0.code, f0.pend, maxstacksize, last);
              BoundedSet(f0.code, last, fs.code[last], f0.pend, maxstacksize);
              NilMerged(env, f0, fs, pfrom, pto, lo, n);
              return Ok(());
            }
          }
        }
      }
      ghost var f1 := fs;
      var pc :- Code(LOADNIL(lo, lo + n - 1));
      PlusLast(fs, pc);
      BoundedCoded(f1, fs, maxstacksize);
      NilCoded(env, f1, Prefix(fs, pc), fs, lo, n);
      return Ok(());
    }

    /** One instruction for a value. */
    method CodeValue(i: Instr, ghost k: ExpKind) returns (r: Result<int>)
      requires FsOk(fs) && TailLength(k) == 0 && IsValue(i) && OperandsOk(i, |fs.k|)
      requires forall regs :: KindValue(env, fs.code, fs.k, k, regs) == InstrValue(env.sem, fs.k, i, regs)
      requires Framed() && InFrame(i, maxstacksize)
      modifies this`fs
      ensures r.Failed? ==> Near(old(fs), 0)
      ensures r.Ok? ==> Within(old(fs), fs, 1) && fs.k == old(fs).k
      ensures r.Ok? ==> FsOk(fs) && Frame(old(fs), fs, NoLists) && Puts(env, old(fs), k, fs, i.a)
      ensures r.Ok? ==> Framed()
    {
      hide FsOk, Frame, Puts, KindValue, InstrValue, Bounded, InFrame;
      FsParts(fs);
      ghost var f0 := fs;
      var pc :- Code(i);
      PlusLast(fs, pc);
      BoundedCoded(f0, fs, maxstacksize);
      CodedValue(env, f0, k, Prefix(fs, pc), fs, i);
      return Ok(pc);
    }

    /** `discharge2reg`. */
    method Discharge2Reg(k: ExpKind, reg: int) returns (r: Result<ExpKind>)
      requires Ready(fs, k) && !k.VLOCAL? && env.params <= nactvar
      requires Framed() && In(reg, maxstacksize) && (k.VNONRELOC? ==> In(k.info, maxstacksize))
      modifies this`fs
      ensures r.Failed? ==> Near(old(fs), 1)
      ensures r.Ok? ==> Within(old(fs), fs, 1)
      ensures r.Ok? && k.VJMP? ==> r.value == k && fs == old(fs)
      ensures r.Ok? && !k.VJMP? ==>
                r.value == VNONRELOC(reg) && FsOk(fs) && Frame(Body(old(fs), k), fs, NoLists) && Puts(env, old(fs), k, fs, reg)
      ensures r.Ok? ==> Framed()
    {
      hide FsOk, Frame, Puts, Nils, Bounded;
      ghost var f0 := fs;
      if TailLength(k) == 0 { BodySame(fs, k); }
      match k {
        case VNIL =>
          var _ :- LoadNil(reg, 1);
          NilsPut(env, f0, fs, reg);
        case VFALSE =>
          var _ :- CodeValue(LOADBOOL(reg, false, false), k);
        case VTRUE =>
          var _ :- CodeValue(LOADBOOL(reg, true, false), k);
        case VK(info) =>
          var _ :- CodeValue(LOADK(reg, info), k);
        case VKNUM(nval) =>
          FsParts(fs);
          var i :- AddK(Number(nval));
          ghost var f1 := fs;
          MoreConstants(env, f0, f1);
          var _ :- CodeValue(LOADK(reg, i), VK(i));
          FrameStep(f0, f1, fs);
          PutsAfter(env, f0, f1, k, VK(i), fs, reg);
        case VRELOCABLE(pc) =>
          BoundedInstr(fs.code, fs.pend, maxstacksize, pc);
          SetAIn(fs.code[pc], reg, maxstacksize);
          BoundedSet(fs.code, pc, SetA(fs.code[pc], reg), fs.pend, maxstacksize);
          fs := fs.(code := fs.code[pc := SetA(fs.code[pc], reg)]);
          Relocated(env, f0, pc, fs, reg);
        case VNONRELOC(info) =>
          if reg != info {
            var _ :- CodeValue(MOVE(reg, info), k);
          } else {
            AlreadyPut(env, fs, reg);
          }
        case VJMP(_) =>
          return Ok(k);
      }
      return Ok(VNONRELOC(reg));
    }

    /** `code_label`: an instruction that may be a jump target. */
    method CodeLabel(reg: int, val: bool, skip: bool) returns (r: Result<int>)
      requires fs.here == [] && fs.jpc == NO_JUMP
      modifies this`fs
      ensures r.Failed? ==> Near(old(fs), 0)
      ensures r.Ok? ==> Within(old(fs), fs, 1)
      ensures r.Ok? ==> r.value == |old(fs).code|
      ensures r.Ok? ==> fs == old(fs).(code := old(fs).code + [LOADBOOL(reg, val, skip)], lasttarget := r.value, pend := fs.pend)
      ensures r.Ok? ==> forall q :: Pending(fs.pend, q) == Pending(old(fs).pend, q)
    {
      var _ := GetLabel();
      ghost var c := fs.code;
      r := Code(LOADBOOL(reg, val, skip));
      if r.Ok? {
        SameCode(c, fs.code[..r.value]);
        assert fs.code == fs.code[..r.value] + [fs.code[r.value]];
        assert forall q :: Pending(fs.pend, q) <==> Outer(old(fs), q);
      }
    }

    /** The part of `exp2reg` for jumps without a value: a jump around the two LOADBOOLs, for the
        case that a value falls through, and the LOADBOOLs. */
    method LoadBooleans(k: ExpKind, reg: int) returns (r: Result<int>)
      requires FsOk(fs) && (!k.VNONRELOC? ==> k.VJMP? && fs.here == [])
      requires Framed() && In(reg, maxstacksize)
      modifies this`fs
      ensures r.Failed? ==> Near(old(fs), 3)
      ensures r.Ok? ==> Within(old(fs), fs, 3)
      ensures r.Ok? ==> Labelled(old(fs), fs, reg, k.VNONRELOC?) && HereOk(fs) && r.value == |fs.code| - 2
      ensures r.Ok? ==> Framed()
    {
      hide FsOk, Labelled, Relinked, LinkOk, NoDup, Discharged, Bounded;
      FsParts(fs);
      ghost var a := fs;
      var fj := NO_JUMP;
      ghost var held := [];
      if !k.VJMP? {
        fj :- Jump();
        held := [fj] + a.here;
      }
      ghost var f1 := fs;
      var pf :- CodeLabel(reg, false, true);
      var pt :- CodeLabel(reg, true, false);
      ghost var f2 := fs;
      HeldFramed(f1.code, f2.code, fj, held);
      var _ :- PatchToHere(fj, held);
      NothingRelinked(f2.code, fs.code);
      BooleansLabelled(a, f1, f2, fs, reg, held, !k.VJMP?);
      BoundedLabelled(a, fs, reg, !k.VJMP?, maxstacksize);
      return Ok(pf);
    }

    /** The part of `exp2reg` for an expression with jumps: every exit is patched to bring its value
        to `reg` and to go on behind the expression. */
    method PatchExits(k: ExpKind, t: int, f: int, reg: int, ghost g: Goal, ghost kk: ExpKind, ghost l: Lists) returns (r: Result<()>)
      requires Means(g, fs, kk, l) && ListOk(fs.code, t, l.t) && ListOk(fs.code, f, l.f)
      requires if k.VJMP? then kk == VFALSE && fs.here == [] && On(l.t, k.info) && !Sets(fs.code, k.info)
               else k == kk == VNONRELOC(reg)
      requires reg != NO_REG && (reg >= g.base || reg == g.dest)
      requires Framed() && In(reg, maxstacksize)
      modifies this`fs
      ensures r.Failed? ==> Near(old(fs), 3)
      ensures r.Ok? ==> Within(old(fs), fs, 3)
      ensures r.Ok? ==> Means(g, fs, VNONRELOC(reg), NoLists)
      ensures r.Ok? ==> Framed()
    {
      hide Means, FsOk, HereOk, Labelled, OwnLists, Collected, ListOk, Bounded;
      ghost var a := fs;
      BodySame(a, kk);
      MeansParts(g, a, kk, l);
      var need := NeedValue(t, l.t);
      if !need {
        need := NeedValue(f, l.f);
      }
      var pf, pt := NO_JUMP, NO_JUMP;
      if need {
        pf :- LoadBooleans(k, reg);
        pt := pf + 1;
        LabelledLists(g, a, kk, l, fs, reg, t, f);
      }
      r := CollectExits(t, f, reg, pf, pt, g, l);
    }

    /** The end of `exp2reg`: both lists are patched. */
    method CollectExits(t: int, f: int, reg: int, pf: int, pt: int, ghost g: Goal, ghost l: Lists) returns (r: Result<()>)
      requires Means(g, fs, VNONRELOC(reg), l) && ListOk(fs.code, t, l.t) && ListOk(fs.code, f, l.f)
      requires (forall q :: InLists(l, q) ==> Sets(fs.code, q)) || (pt == pf + 1 && Labels(fs.code, l, reg, pf))
      requires reg != NO_REG && (reg >= g.base || reg == g.dest) && Framed() && In(reg, maxstacksize)
      modifies this`fs
      ensures r.Failed? ==> Near(old(fs), 0)
      ensures r.Ok? ==> Within(old(fs), fs, 0) && Framed() && Means(g, fs, VNONRELOC(reg), NoLists)
    {
      hide Means, FsOk, HereOk, OwnLists, Collected, ListOk, Bounded, Labels;
      ghost var f2 := fs;
      var final := GetLabel();
      LabelMeans(g, f2, VNONRELOC(reg), l, fs);
      ghost var f3 := fs;
      TargetsExist(f3, l, t, f, reg, pf);
      var _ :- PatchListAux(f, final, reg, pf, l.f);
      ghost var c1 := fs.code;
      OwnApart(g, f3, VNONRELOC(reg), l);
      StillListed(f3.code, c1, t, f, l, reg, pf);
      var _ :- PatchListAux(t, final, reg, pt, l.t);
      CollectTwice(f3.code, c1, fs.code, l, reg, pf, pt);
      fs := fs.(pend := set q | q in fs.pend && !InLists(l, q));
      PendingWithout(f3.pend, fs.pend, l);
      BoundedCollected(f3.code, fs.code, l, reg, pf, f3.pend, fs.pend, maxstacksize);
      CollectMeans(g, f3, l, fs, reg, pf);
      return Ok(());
    }

    /** `exp2reg`: the value ends up in `reg`, whatever way the code went. */
    method Exp2Reg(e: ExpDesc, reg: int, ghost g: Goal, ghost l: Lists) returns (r: Result<ExpDesc>)
      requires Compiled(g, fs, e, l) && !e.k.VLOCAL? && env.params <= nactvar && g.env == env
      requires reg != NO_REG && (reg >= g.base || reg == g.dest)
      requires Framed() && In(reg, maxstacksize) && (e.k.VNONRELOC? ==> In(e.k.info, maxstacksize))
      modifies this`fs
      ensures r.Failed? ==> Near(old(fs), 4)
      ensures r.Ok? ==> Within(old(fs), fs, 4)
      ensures r.Ok? ==> r.value == ExpDesc(VNONRELOC(reg), NO_JUMP, NO_JUMP) && Compiled(g, fs, r.value, NoLists)
      ensures r.Ok? ==> Framed()
    {
      hide Frame, Puts, FsOk, HereOk, OwnLists, AllDeliver, ListOk, Bounded;
      ghost var f0 := fs;
      ghost var l1 := l;
      var k :- Discharge2Reg(e.k, reg);
      var t := e.t;
      ghost var kk := k;
      if k.VJMP? {
        JumpCommitted(g, fs, e, l);
        BoundedJoin(fs.code, fs.pend, k.info, maxstacksize);
        fs := fs.(pend := fs.pend + {k.info});
        l1 := Lists(l.t + [k.info], l.f);
        kk := VFALSE;
        ghost var f1 := fs;
        t :- Concat(e.t, k.info, l.t, [k.info]);
        BoundedRelinked(f1.code, fs.code, l.t, fs.pend, maxstacksize);
        CommittedLinked(g, f1, fs, e.f, l, k.info);
      } else {
        PutMeans(g, f0, e.k, l, fs, reg);
        BodyListsFramed(f0, fs, e, l);
      }
      BodySame(fs, kk);
      OwnApart(g, fs, kk, l1);
      AnyJumps(fs, ExpDesc(k, t, e.f), l1);
      if t != e.f {
        var _ :- PatchExits(k, t, e.f, reg, g, kk, l1);
      }
      NoJumpLists(fs, VNONRELOC(reg));
      return Ok(ExpDesc(VNONRELOC(reg), NO_JUMP, NO_JUMP));
    }

    // ----- expressions in registers and operands -----

    /** The descriptor means its goal, and the registers in use are the goal's and perhaps one more
        for the value. */
    ghost predicate Holds(g: Goal, e: ExpDesc, l: Lists)
      reads this
    {
      && g.env == env && g.dest == -1 && nactvar <= g.base && StackOk()
      && Compiled(g, fs, e, l) && RegOk(e.k, nactvar, freereg, g.base)
    }

    /** `discharge2anyreg`. */
    method Discharge2AnyReg(e: ExpDesc, ghost g: Goal, ghost l: Lists) returns (r: Result<ExpDesc>)
      requires Holds(g, e, l) && !e.k.VLOCAL? && !e.k.VJMP?
      modifies this`fs, this`freereg, this`maxstacksize
      ensures r.Failed? ==> Full(old(fs), 1, g.base + 1)
      ensures r.Ok? ==> Within(old(fs), fs, 1)
      ensures r.Ok? ==> Holds(g, r.value, l) && r.value.k.VNONRELOC? && r.value.t == e.t && r.value.f == e.f
    {
      hide Means, Frame, Puts, FsOk, ListsOk, Bounded;
      if !e.k.VNONRELOC? {
        ghost var f0 := fs;
        var _ :- ReserveRegs(1);
        assert Means(g, fs, e.k, l) && ListsOk(Body(fs, e.k), e, l);
        MeansReady(g, fs, e.k, l);
        var k :- Discharge2Reg(e.k, freereg - 1);
        PutMeans(g, f0, e.k, l, fs, freereg - 1);
        ListsFramed(Body(f0, e.k), fs, e, l);
        BodySame(fs, k);
        RekindLists(fs, e, k, l);
        return Ok(e.(k := k));
      }
      return Ok(e);
    }

    /** `luaK_exp2nextreg`. */
    method Exp2NextReg(e: ExpDesc, ghost g: Goal, ghost l: Lists) returns (r: Result<ExpDesc>)
      requires Holds(g, e, l)
      modifies this`fs, this`freereg, this`maxstacksize
      ensures r.Failed? ==> Full(old(fs), 4, g.base + 1)
      ensures r.Ok? ==> Within(old(fs), fs, 4)
      ensures r.Ok? ==> Holds(g, r.value, NoLists) && r.value == ExpDesc(VNONRELOC(g.base), NO_JUMP, NO_JUMP)
    {
      hide Compiled, Bounded;
      var e1 := DischargeVars(e);
      DischargedVars(g, fs, e, l);
      FreeExp(e1.k);
      var _ :- ReserveRegs(1);
      r := Exp2Reg(e1, freereg - 1, g, l);
    }

    /** `luaK_exp2anyreg`. */
    method Exp2AnyReg(e: ExpDesc, ghost g: Goal, ghost l: Lists) returns (r: Result<ExpDesc>)
      requires Holds(g, e, l) || (Placed(e, l) && e.k.VNONRELOC?)
      modifies this`fs, this`freereg, this`maxstacksize
      ensures r.Failed? ==> Full(old(fs), 4, g.base + 1)
      ensures r.Ok? ==> Within(old(fs), fs, 4)
      ensures old(Holds(g, e, l)) && r.Ok? ==>
                Holds(g, r.value, NoLists) && r.value.k.VNONRELOC? && r.value.t == NO_JUMP == r.value.f
      ensures Placed(e, l) && e.k.VNONRELOC? ==> r == Ok(e) && unchanged(this)
    {
      hide Compiled, Bounded;
      var e1 := DischargeVars(e);
      if !Placed(e, l) || !e.k.VNONRELOC? { DischargedVars(g, fs, e, l); HasJumps(g, fs, e1, l); }
      if e1.k.VNONRELOC? {
        if e1.t == e1.f {
          return Ok(e1);
        }
        if e1.k.info >= nactvar {
          r := Exp2Reg(e1, e1.k.info, g, l);
          return;
        }
      }
      r := Exp2NextReg(e1, g, l);
    }

    /** `luaK_exp2val`. */
    method Exp2Val(e: ExpDesc, ghost g: Goal, ghost l: Lists) returns (r: Result<ExpDesc>)
      requires Holds(g, e, l) || Placed(e, l)
      modifies this`fs, this`freereg, this`maxstacksize
      ensures r.Failed? ==> Full(old(fs), 4, g.base + 1)
      ensures r.Ok? ==> Within(old(fs), fs, 4)
      ensures old(Holds(g, e, l)) && r.Ok? ==>
                Holds(g, r.value, NoLists) && r.value.t == NO_JUMP == r.value.f && !r.value.k.VLOCAL?
      ensures old(Holds(g, e, l)) && r.Ok? && l == NoLists ==> r.value == DischargeVars(e) && unchanged(this)
      ensures old(Holds(g, e, l)) && r.Ok? && l != NoLists ==> r.value.k.VNONRELOC?
      ensures Placed(e, l) ==> r == Ok(e) && unchanged(this)
    {
      hide Compiled, Bounded;
      if Holds(g, e, l) { HasJumps(g, fs, e, l); DischargedVars(g, fs, e, l); }
      if e.t != e.f {
        r := Exp2AnyReg(e, g, l);
      } else {
        r := Ok(DischargeVars(e));
      }
    }

    /** `luaK_exp2RK`: an operand that is a register or a constant of small index. */
    method Exp2RK(e: ExpDesc, ghost g: Goal, ghost l: Lists) returns (r: Result<ExpDesc>, rk: int)
      requires Holds(g, e, l) || Placed(e, l)
      modifies this`fs, this`freereg, this`maxstacksize
      ensures r.Failed? ==> Full(old(fs), 4, g.base + 1)
      ensures r.Ok? ==> Within(old(fs), fs, 4)
      ensures r.Ok? ==> IsOperand(r.value.k) && rk == RKOf(r.value.k) && r.value.t == NO_JUMP == r.value.f
      ensures old(Holds(g, e, l)) && r.Ok? ==> Holds(g, r.value, NoLists)
      ensures Placed(e, l) ==> r == Ok(e) && unchanged(this)
    {
      hide Compiled, Bounded;
      rk := 0;
      var e1 :- Exp2Val(e, g, l);
      if e1.k.VKNUM? || e1.k.VTRUE? || e1.k.VFALSE? || e1.k.VNIL? {
        if |fs.k| <= MAXINDEXRK {
          ghost var f0 := fs;
          CompiledParts(g, fs, e1, NoLists);
          var i :- AddK(match e1.k case VNIL => Nil case VKNUM(n) => Number(n) case k => Bool(k.VTRUE?));
          ConstantOperand(g, f0, e1, fs, i);
          rk := RKASK(i);
          return Ok(e1.(k := VK(i))), rk;
        }
      } else if e1.k.VK? {
        if e1.k.info <= MAXINDEXRK {
          rk := RKASK(e1.k.info);
          return Ok(e1), rk;
        }
      }
      r := Exp2AnyReg(e1, g, NoLists);
      if r.Ok? {
        rk := r.value.k.info;
      }
    }

    // ----- conditions -----

    /** The code falls through when the goal's expression is `sense`; one list, headed by `head`,
        leaves otherwise. */
    ghost predicate Decided(g: Goal, head: int, l: Lists, sense: bool)
      reads this
    {
      && g.env == env && g.dest == -1 && nactvar <= g.base && StackOk() && freereg == g.base
      && Branches(g, fs, l, sense) && (if sense then l.t else l.f) == []
      && ListOk(fs.code, head, if sense then l.f else l.t)
    }

    /** `condjump`. */
    method CondJump(i: Instr) returns (r: Result<int>, ghost d: FS)
      requires HereOk(fs) && IsTest(i)
      modifies this`fs
      ensures r.Failed? ==> Near(old(fs), 2)
      ensures r.Ok? ==> Within(old(fs), fs, 2)
      ensures r.Ok? ==> Discharged(old(fs), d) && fs == PlusTest(d, i) && r.value == |d.code| + 1
    {
      d := fs;
      var pc :- Code(i);
      d := Prefix(fs, pc);
      assert HereOk(fs) by { NoJumpLists(fs, VNIL); }
      var j :- Jump();
      assert fs.code == d.code + [i, JMP(NO_JUMP)] by { PlusLast(Prefix(fs, j), pc); PlusLast(fs, j); }
      return Ok(j), d;
    }

    /** `invertjump`, for the comparison whose jump is at `pc`. */
    method InvertJump(pc: int)
      requires 0 < pc < |fs.code| && fs.code[pc - 1].COMPARE?
      modifies this`fs
      ensures fs == Inverted(old(fs), pc)
    {
      var i := fs.code[pc - 1];
      fs := fs.(code := fs.code[pc - 1 := COMPARE(i.cmp, !i.cond, i.rb, i.rc)]);
    }

    /** `jumponcond`: jumps when the value is `cond`. */
    method JumpOnCond(e: ExpDesc, cond: bool, ghost g: Goal, ghost l: Lists) returns (r: Result<int>, ghost l': Lists)
      requires Holds(g, e, l) && !e.k.VLOCAL? && !e.k.VJMP?
      modifies this`fs, this`freereg, this`maxstacksize
      ensures r.Failed? ==> Full(old(fs), 3, g.base + 1)
      ensures r.Ok? ==> Within(old(fs), fs, 3)
      ensures r.Ok? ==> l' == Jumping(l, r.value, cond) && Branches(g, fs, l', !cond) && StackOk() && freereg == g.base
      ensures r.Ok? ==> ListOk(fs.code, e.t, l.t) && ListOk(fs.code, e.f, l.f) && ListOk(fs.code, r.value, [r.value])
      ensures r.Ok? ==> Apart(l.t, [r.value]) && Apart(l.f, [r.value])
    {
      hide FsOk, Frame, Means, ListsOk, Bounded;
      l' := l;
      if e.k.VRELOCABLE? {
        MeansParts(g, fs, e.k, l);
        var ie := fs.code[e.k.info];
        if ie.NOT? {
          ghost var f0 := fs;
          BoundedInstr(fs.code, fs.pend, maxstacksize, e.k.info);
          BoundedPrefix(fs.code, |fs.code| - 1, fs.pend, maxstacksize);
          fs := fs.(code := fs.code[..|fs.code| - 1]);
          ghost var p0 := fs;
          FsParts(fs);
          var pc, d :- CondJump(TEST(ie.b, !cond));
          BoundedTest(p0, d, TEST(ie.b, !cond), maxstacksize);
          l' := Jumping(l, pc, cond);
          TestNot(g, f0, e, l, d, cond, l');
          return Ok(pc), l';
        }
      }
      var e1 :- Discharge2AnyReg(e, g, l);
      FreeExp(e1.k);
      ghost var f1 := fs;
      BodySame(f1, e1.k);
      MeansParts(g, f1, e1.k, l);
      FsParts(fs);
      var pc, d :- CondJump(TESTSET(NO_REG, e1.k.info, cond));
      l' := Jumping(l, pc, cond);
      BoundedTest(f1, d, TESTSET(NO_REG, e1.k.info, cond), maxstacksize);
      TestValue(g, f1, e1, l, d, cond, l');
      return Ok(pc), l';
    }

    /** The common end of `luaK_goiftrue` and `luaK_goiffalse`: the jump joins the list that leaves,
        and the other list is sent to the next instruction. */
    method EndCondition(e: ExpDesc, pc: int, sense: bool, ghost g: Goal, ghost l: Lists, ghost pcs: seq<int>)
      returns (r: Result<ExpDesc>, ghost l': Lists)
      requires g.env == env && g.dest == -1 && nactvar <= g.base && StackOk() && freereg == g.base
      requires Branches(g, fs, WithExits(l, pcs, sense), sense)
      requires ListOk(fs.code, e.t, l.t) && ListOk(fs.code, e.f, l.f) && ListOk(fs.code, pc, pcs)
      requires Apart(l.t, pcs) && Apart(l.f, pcs)
      modifies this`fs
      ensures r.Failed? ==> Near(old(fs), 0)
      ensures r.Ok? ==> Within(old(fs), fs, 0)
      ensures r.Ok? && sense ==> Decided(g, r.value.f, l', true) && r.value.t == NO_JUMP
      ensures r.Ok? && !sense ==> Decided(g, r.value.t, l', false) && r.value.f == NO_JUMP
    {
      hide FsOk, Frame, OwnLists, AllDecide, ListOk, HereOk, Branches, Bounded;
      l' := l;
      ghost var all := WithExits(l, pcs, sense);
      ghost var rest := if sense then l.t else l.f;
      ghost var own := if sense then l.f else l.t;
      ghost var f0 := fs;
      BranchApart(g, fs, all, sense);
      JoinedOn(l, pcs, sense);
      var head :- Concat(if sense then e.f else e.t, pc, own, pcs);
      ghost var f1 := fs;
      BoundedRelinked(f0.code, f1.code, own, fs.pend, maxstacksize);
      HereRelinked(f0, f1, own);
      RelinkBranches(g, f0, all, sense, f1, own, all);
      BranchApart(g, fs, all, sense);
      ListRelinked(f0.code, f1.code, if sense then e.t else e.f, rest, own);
      HereList(fs);
      var _ :- PatchToHere(if sense then e.t else e.f, rest);
      l' := if sense then Lists([], own + pcs) else Lists(own + pcs, []);
      BoundedRelinked(f1.code, fs.code, f1.here, fs.pend, maxstacksize);
      HereGrown(f1, fs, rest);
      BranchHere(g, f1, all, sense, fs, l');
      ListRelinked(f1.code, fs.code, head, own + pcs, f1.here);
      if sense {
        return Ok(e.(t := NO_JUMP, f := head)), l';
      } else {
        return Ok(e.(t := head, f := NO_JUMP)), l';
      }
    }

    /** `luaK_goiftrue`. */
    method GoIfTrue(e: ExpDesc, ghost g: Goal, ghost l: Lists) returns (r: Result<ExpDesc>, ghost l': Lists)
      requires Holds(g, e, l) && Truthful(fs, e.k)
      modifies this`fs, this`freereg, this`maxstacksize
      ensures r.Failed? ==> Full(old(fs), 3, g.base + 1)
      ensures r.Ok? ==> Within(old(fs), fs, 3)
      ensures r.Ok? ==> Decided(g, r.value.f, l', true) && r.value.t == NO_JUMP
    {
      hide Means, ListsOk, Branches, ListOk, Bounded;
      l' := l;
      var e1 := DischargeVars(e);
      DischargedVars(g, fs, e, l);
      BodyLists(fs, e1, l);
      MeansParts(g, fs, e1.k, l);
      var pc: int;
      ghost var pcs := [];
      if e1.k.VK? || e1.k.VKNUM? || e1.k.VTRUE? {
        pc := NO_JUMP;
        ConstantCondition(g, fs, e1.k, l, true);
        assert l.f + [] == l.f && WithExits(l, [], true) == l;
        EmptyList(fs.code);
      } else if e1.k.VJMP? {
        ghost var f0 := fs;
        BoundedInverted(fs, e1.k.info, maxstacksize);
        InvertJump(e1.k.info);
        BoundedJoin(fs.code, fs.pend, e1.k.info, maxstacksize);
        fs := fs.(pend := fs.pend + {e1.k.info});
        pc := e1.k.info;
        pcs := [pc];
        CompareCommitted(g, f0, e1, l, false, fs);
      } else {
        pc, l' :- JumpOnCond(e1, false, g, l);
        pcs := [pc];
      }
      r, l' := EndCondition(e1, pc, true, g, l, pcs);
    }

    /** `luaK_goiffalse`. */
    method GoIfFalse(e: ExpDesc, ghost g: Goal, ghost l: Lists) returns (r: Result<ExpDesc>, ghost l': Lists)
      requires Holds(g, e, l) && Truthful(fs, e.k)
      modifies this`fs, this`freereg, this`maxstacksize
      ensures r.Failed? ==> Full(old(fs), 3, g.base + 1)
      ensures r.Ok? ==> Within(old(fs), fs, 3)
      ensures r.Ok? ==> Decided(g, r.value.t, l', false) && r.value.f == NO_JUMP
    {
      hide Means, ListsOk, Branches, ListOk, Bounded;
      l' := l;
      var e1 := DischargeVars(e);
      DischargedVars(g, fs, e, l);
      BodyLists(fs, e1, l);
      MeansParts(g, fs, e1.k, l);
      var pc: int;
      ghost var pcs := [];
      if e1.k.VNIL? || e1.k.VFALSE? {
        pc := NO_JUMP;
        ConstantCondition(g, fs, e1.k, l, false);
        assert l.t + [] == l.t && WithExits(l, [], false) == l;
        EmptyList(fs.code);
      } else if e1.k.VJMP? {
        ghost var f0 := fs;
        BoundedJoin(fs.code, fs.pend, e1.k.info, maxstacksize);
        fs := fs.(pend := fs.pend + {e1.k.info});
        pc := e1.k.info;
        pcs := [pc];
        CompareCommitted(g, f0, e1, l, true, fs);
      } else {
        pc, l' :- JumpOnCond(e1, true, g, l);
        pcs := [pc];
      }
      r, l' := EndCondition(e1, pc, false, g, l, pcs);
    }

    // ----- operators -----

    /** The end of `codenot`: no jump of either list carries a value. */
    method RemoveBoth(t: int, f: int, ghost l: Lists)
      requires ListOk(fs.code, t, l.t) && ListOk(fs.code, f, l.f)
      modifies this`fs
      ensures fs == old(fs).(code := fs.code) && |fs.code| == |old(fs).code| && Removed(old(fs).code, fs.code, l)
    {
      hide ListOk;
      RemoveValues(t, l.t);
      ghost var c1 := fs.code;
      ValuesKept(old(fs).code, c1, f, l.f, l.t);
      RemoveValues(f, l.f);
      RemovedTwice(old(fs).code, c1, fs.code, l);
    }

    /** The part of `codenot` for a value that is not known yet. */
    method CodeNotValue(e: ExpDesc, ghost g: Goal, ghost l: Lists) returns (r: Result<int>)
      requires Holds(g, e, l) && !e.k.VLOCAL? && !e.k.VJMP?
      modifies this`fs, this`freereg, this`maxstacksize
      ensures r.Failed? ==> Full(old(fs), 2, g.base + 1)
      ensures r.Ok? ==> Within(old(fs), fs, 2) && StackOk() && freereg == g.base
      ensures r.Ok? ==> Halfway(g, fs, VRELOCABLE(r.value), l) && r.value == |fs.code| - 1 >= 0 && fs.code[r.value].NOT?
      ensures r.Ok? ==> ListOk(fs.code, e.t, l.t) && ListOk(fs.code, e.f, l.f)
    {
      hide FsOk, Frame, OwnLists, Means, ListsOk, Halfway, HereOk, ListOk, Discharged, Bounded;
      var e1 :- Discharge2AnyReg(e, g, l);
      FreeExp(e1.k);
      ghost var f1 := fs;
      BodySame(f1, e1.k);
      MeansParts(g, f1, e1.k, l);
      FsParts(fs);
      r := Code(NOT(0, e1.k.info));
      if r.Ok? {
        BoundedCoded(f1, fs, maxstacksize);
        NotCoded(g, f1, e1, l, fs, r.value);
      }
    }

    /** `codenot`. */
    method CodeNot(e: ExpDesc, ghost g: Goal, ghost l: Lists) returns (r: Result<ExpDesc>)
      requires Holds(g, e, l) && Truthful(fs, e.k)
      modifies this`fs, this`freereg, this`maxstacksize
      ensures r.Failed? ==> Full(old(fs), 2, g.base + 1)
      ensures r.Ok? ==> Within(old(fs), fs, 2)
      ensures r.Ok? ==> Holds(g.(expr := Negated(g.expr)), r.value, Flip(l)) && Fit(fs, r.value.k, g.base)
    {
      hide FsOk, Frame, OwnLists, Means, ListsOk, Halfway, HereOk, ListOk, Removed, Discharged, Bounded;
      var e1 := DischargeVars(e);
      DischargedVars(g, fs, e, l);
      MeansParts(g, fs, e1.k, l);
      var k := e1.k;
      if k.VNIL? || k.VFALSE? || k.VK? || k.VKNUM? || k.VTRUE? {
        NotConstant(g, fs, e1, l);
        k := if k.VNIL? || k.VFALSE? then VTRUE else VFALSE;
      } else if k.VJMP? {
        ghost var f0 := fs;
        BoundedInverted(fs, k.info, maxstacksize);
        InvertJump(k.info);
        NotCompare(g, f0, e1, l, fs);
      } else {
        var pc :- CodeNotValue(e1, g, l);
        k := VRELOCABLE(pc);
      }
      ghost var f2 := fs;
      RemoveBoth(e1.t, e1.f, l);
      BoundedRemoved(f2.code, fs.code, l, fs.pend, maxstacksize);
      NegationListed(g, f2, k, e1, l, fs);
      return Ok(ExpDesc(k, e1.f, e1.t));
    }

    /** The operands of an operation are freed, the last one first. */
    method FreeOperands(k1: ExpKind, o1: int, k2: ExpKind, o2: int, ghost base: int)
      requires IsOperand(k1) && o1 == RKOf(k1) && IsOperand(k2) && o2 == RKOf(k2)
      requires StackOk() && nactvar <= base && Stacked(k1, k2, nactvar, freereg, base)
      modifies this`freereg
      ensures StackOk() && freereg == base
      ensures (k1.VNONRELOC? ==> In(k1.info, maxstacksize)) && (k2.VNONRELOC? ==> In(k2.info, maxstacksize))
    {
      hide Bounded;
      if o1 > o2 {
        FreeExp(k1);
        FreeExp(k2);
      } else {
        FreeExp(k2);
        FreeExp(k1);
      }
    }

    /** The end of `codearith`: the operands are freed and the instruction is emitted without a
        target. */
    method CodeOperation(op: BinOpr, e1: ExpDesc, o1: int, e2: ExpDesc, o2: int, ghost g: Goal, ghost x1: Expr, ghost x2: Expr)
      returns (r: Result<ExpDesc>)
      requires (IsArith(op) || op.OPR_CONCAT?) && IsOperand(e1.k) && o1 == RKOf(e1.k) && IsOperand(e2.k) && o2 == RKOf(e2.k)
      requires g.env == env && g.dest == -1 && nactvar <= g.base && StackOk() && Pair(g, x1, x2, fs, e1.k, e2.k)
      requires Stacked(e1.k, e2.k, nactvar, freereg, g.base)
      requires op.OPR_CONCAT? ==> o1 == g.base && o2 == g.base + 1
      modifies this`fs, this`freereg
      ensures r.Failed? ==> Near(old(fs), 0)
      ensures r.Ok? ==> Within(old(fs), fs, 1)
      ensures r.Ok? ==> Holds(g.(expr := Binary(op, x1, x2)), r.value, NoLists) && Fit(fs, r.value.k, g.base)
      ensures r.Ok? ==> r.value.k.VRELOCABLE? && 0 <= r.value.k.info < |fs.code| && Performs(op, fs.code[r.value.k.info])
    {
      hide FsOk, Pair, Means, ListsOk, HereOk, Discharged, Compiled, Fit, Stacked, Bounded;
      FreeOperands(e1.k, o1, e2.k, o2, g.base);
      ghost var f0 := fs;
      PairParts(g, x1, x2, fs, e1.k, e2.k);
      var pc :- Code(Operation(op, o1, o2));
      BoundedCoded(f0, fs, maxstacksize);
      OperationMeans(g, x1, x2, op, f0, e1.k, e2.k, fs, pc);
      return Ok(ExpDesc(VRELOCABLE(pc), NO_JUMP, NO_JUMP));
    }

    /** The left operand of `codearith`, when the right one is an operand: a number that has waited
        becomes one too. */
    method LateOperand(e1: ExpDesc, e2: ExpDesc, ghost g1: Goal, ghost g2: Goal) returns (r: Result<ExpDesc>, o1: int)
      requires Placed(e1, NoLists) || IsNumeral(e1)
      requires Holds(g2, e2, NoLists) && IsOperand(e2.k) && Pair(g1, g1.expr, g2.expr, fs, e1.k, e2.k)
      requires g1.env == env && g1.dest == -1 && nactvar <= g1.base <= g2.base && RegOk(e1.k, nactvar, g2.base, g1.base)
      modifies this`fs, this`freereg, this`maxstacksize
      ensures r.Failed? ==> Full(old(fs), 4, g2.base + 2)
      ensures r.Ok? ==> Within(old(fs), fs, 4) && StackOk() && IsOperand(r.value.k) && o1 == RKOf(r.value.k)
      ensures r.Ok? ==> Pair(g1, g1.expr, g2.expr, fs, r.value.k, e2.k) && Stacked(r.value.k, e2.k, nactvar, freereg, g1.base)
      ensures Placed(e1, NoLists) ==> r == Ok(e1) && unchanged(this)
    {
      hide FsOk, Pair, Means, ListsOk, Compiled, Stacked, Bounded;
      ghost var f2 := fs;
      ghost var g3 := Goal(env, freereg, -1, fs, if e1.k.VKNUM? then Constant(Number(e1.k.nval)) else g1.expr);
      if e1.k.VKNUM? {
        HeldLists(g2, fs, e2, NoLists);
        NumeralHeld(g3, e1, g2, e2);
      }
      r, o1 := Exp2RK(e1, g3, NoLists);
      if r.Ok? {
        if e1.k.VKNUM? {
          HeldMeans(g3, fs, r.value, NoLists);
          NumeralLate(g1, g2, f2, e1, e2.k, g3, fs, r.value.k, nactvar);
        }
        OperandsStacked(e1.k, r.value.k, e2.k, nactvar, g1.base, g2.base, g3.base, freereg);
      }
    }

    /** `codearith` for two operands; the left one may still be a number. */
    method CodeArith(op: BinOpr, e1: ExpDesc, e2: ExpDesc, ghost g1: Goal, ghost fs1: FS, ghost g2: Goal, ghost l2: Lists)
      returns (r: Result<ExpDesc>)
      requires IsArith(op) || op.OPR_CONCAT?
      requires LeftOk(op, g1, fs1, e1, NoLists, nactvar, g2.base) && Follows(g1, fs1, g2) && g1.env == env
      requires Holds(g2, e2, l2) && (op.OPR_CONCAT? ==> e2.k == VNONRELOC(g2.base) && l2 == NoLists)
      modifies this`fs, this`freereg, this`maxstacksize
      ensures r.Failed? ==> Full(old(fs), if op.OPR_CONCAT? then 1 else 9, g2.base + 2)
      ensures r.Ok? ==> Within(old(fs), fs, if op.OPR_CONCAT? then 1 else 9)
      ensures r.Ok? ==> Holds(g1.(expr := Binary(op, g1.expr, g2.expr)), r.value, NoLists) && Fit(fs, r.value.k, g1.base)
      ensures r.Ok? ==> (r.value.k.VKNUM? && ConstFolding(env.sem, op, e1, e2) == Some(r.value.k.nval)) ||
                        (r.value.k.VRELOCABLE? && 0 <= r.value.k.info < |fs.code| && Performs(op, fs.code[r.value.k.info]))
    {
      hide FsOk, Pair, Means, ListsOk, Follows, LeftOk, Compiled, Fit, Stacked, Bounded, Performs;
      var folded := ConstFolding(env.sem, op, e1, e2);
      HeldLists(g2, fs, e2, l2);
      FollowsBase(g1, fs1, g2);
      LeftArith(op, g1, fs1, e1, nactvar, g2.base);
      if folded.Some? {
        FoldedHeld(op, g1, fs1, e1, g2, fs, e2, l2, nactvar);
        return Ok(e1.(k := VKNUM(folded.value)));
      }
      var e2', o2 :- Exp2RK(e2, g2, l2);
      HeldMeans(g2, fs, e2', NoLists);
      PairOf(g1, fs1, e1.k, g2, fs, e2'.k);
      var e1', o1 :- LateOperand(e1, e2', g1, g2);
      r := CodeOperation(op, e1', o1, e2', o2, g1, g1.expr, g2.expr);
    }

    /** The operands of a comparison are freed, the right one first. */
    method FreeCompared(k1: ExpKind, k2: ExpKind, ghost base: int)
      requires IsOperand(k1) && IsOperand(k2) && StackOk() && nactvar <= base && Stacked(k1, k2, nactvar, freereg, base)
      requires k1.VNONRELOC? ==> k1.info <= base
      modifies this`freereg
      ensures StackOk() && freereg == base
      ensures (k1.VNONRELOC? ==> In(k1.info, maxstacksize)) && (k2.VNONRELOC? ==> In(k2.info, maxstacksize))
    {
      hide Bounded;
      FreeExp(k2);
      FreeExp(k1);
    }

    /** The end of `codecomp`: the operands are freed and compared, `>` and `>=` exchanging them. */
    method CodeComparison(op: BinOpr, e1: ExpDesc, rk1: int, e2: ExpDesc, rk2: int, ghost g: Goal, ghost x1: Expr, ghost x2: Expr)
      returns (r: Result<ExpDesc>)
      requires IsCompare(op) && IsOperand(e1.k) && rk1 == RKOf(e1.k) && IsOperand(e2.k) && rk2 == RKOf(e2.k)
      requires g.env == env && g.dest == -1 && nactvar <= g.base && StackOk() && Pair(g, x1, x2, fs, e1.k, e2.k)
      requires Stacked(e1.k, e2.k, nactvar, freereg, g.base) && (e1.k.VNONRELOC? ==> e1.k.info <= g.base)
      modifies this`fs, this`freereg
      ensures r.Failed? ==> Near(old(fs), 2)
      ensures r.Ok? ==> Within(old(fs), fs, 2)
      ensures r.Ok? ==> Holds(g.(expr := Binary(op, x1, x2)), r.value, NoLists) && Fit(fs, r.value.k, g.base)
    {
      hide FsOk, Pair, Means, ListsOk, HereOk, Discharged, Compiled, Fit, Stacked, Bounded;
      FreeCompared(e1.k, e2.k, g.base);
      var o1, o2 := rk1, rk2;
      var cmp := if op.OPR_EQ? || op.OPR_NE? then Eq else if op.OPR_LT? || op.OPR_GT? then Lt else Le;
      var cond := op.OPR_EQ? || op.OPR_LT? || op.OPR_LE?;
      if !cond && cmp != Eq {
        o1, o2 := o2, o1;
        cond := true;
      }
      ghost var f0 := fs;
      PairParts(g, x1, x2, fs, e1.k, e2.k);
      var pc, d :- CondJump(COMPARE(cmp, cond, o1, o2));
      BoundedTest(f0, d, COMPARE(cmp, cond, o1, o2), maxstacksize);
      fs := fs.(pend := d.pend);
      ComparisonMeans(g, x1, x2, op, f0, e1.k, e2.k, d, fs, COMPARE(cmp, cond, o1, o2), pc);
      return Ok(ExpDesc(VJMP(pc), NO_JUMP, NO_JUMP));
    }

    /** `codecomp`. */
    method CodeComp(op: BinOpr, e1: ExpDesc, e2: ExpDesc, ghost g1: Goal, ghost fs1: FS, ghost g2: Goal, ghost l2: Lists)
      returns (r: Result<ExpDesc>)
      requires IsCompare(op) && LeftOk(op, g1, fs1, e1, NoLists, nactvar, g2.base) && Follows(g1, fs1, g2) && g1.env == env
      requires Holds(g2, e2, l2)
      modifies this`fs, this`freereg, this`maxstacksize
      ensures r.Failed? ==> Full(old(fs), 6, g2.base + 1)
      ensures r.Ok? ==> Within(old(fs), fs, 6)
      ensures r.Ok? ==> Holds(g1.(expr := Binary(op, g1.expr, g2.expr)), r.value, NoLists) && Fit(fs, r.value.k, g1.base)
    {
      hide FsOk, Pair, Means, ListsOk, Follows, LeftOk, Fit, Bounded;
      FollowsBase(g1, fs1, g2);
      LeftOperand(op, g1, fs1, e1, nactvar, g2.base);
      var _, o1 := Exp2RK(e1, g2, NoLists);  // an operand already
      var e2', o2 :- Exp2RK(e2, g2, l2);
      HeldMeans(g2, fs, e2', NoLists);
      PairOf(g1, fs1, e1.k, g2, fs, e2'.k);
      r := CodeComparison(op, e1, o1, e2', o2, g1, g1.expr, g2.expr);
    }

    /** `codearith` for minus and length; the operand is in a register, or a number to be folded. */
    method CodeUnary(op: UnOpr, e: ExpDesc, ghost g: Goal) returns (r: Result<ExpDesc>)
      requires !op.OPR_NOT? && Holds(g, e, NoLists) && e.t == NO_JUMP == e.f
      requires e.k.VNONRELOC? || (op.OPR_MINUS? && IsNumeral(e))
      modifies this`fs, this`freereg, this`maxstacksize
      ensures r.Failed? ==> Full(old(fs), 5, g.base + 1)
      ensures r.Ok? ==> Within(old(fs), fs, 5)
      ensures r.Ok? ==> Holds(g.(expr := Unary(op, g.expr)), r.value, NoLists) && Fit(fs, r.value.k, g.base)
    {
      hide FsOk, Means, ListsOk, Bounded;
      if op.OPR_MINUS? && IsNumeral(e) {
        FoldedMinus(g, fs, e);
        NoTailLists(fs, VKNUM(env.sem.neg(e.k.nval)));
        return Ok(e.(k := VKNUM(env.sem.neg(e.k.nval))));
      }
      var e1, o1 :- Exp2RK(e, g, NoLists);
      FreeExp(e1.k);
      ghost var f0 := fs;
      HeldLists(g, fs, e1, NoLists);
      FsParts(fs);
      var pc :- Code(if op.OPR_MINUS? then UNM(0, o1) else LEN(0, o1));
      BoundedCoded(f0, fs, maxstacksize);
      UnaryCoded(g, op, f0, e1.k, fs, pc);
      return Ok(ExpDesc(VRELOCABLE(pc), NO_JUMP, NO_JUMP));
    }

    /** `luaK_prefix`. */
    method PrefixOp(op: UnOpr, e: ExpDesc, ghost g: Goal, ghost l: Lists) returns (r: Result<ExpDesc>, ghost l': Lists)
      requires Holds(g, e, l) && Truthful(fs, e.k)
      modifies this`fs, this`freereg, this`maxstacksize
      ensures r.Failed? ==> Full(old(fs), 9, g.base + 1)
      ensures r.Ok? ==> Within(old(fs), fs, 9)
      ensures r.Ok? ==> Holds(g.(expr := Unary(op, g.expr)), r.value, l') && Fit(fs, r.value.k, g.base)
    {
      hide Compiled, Fit, Bounded;
      l' := NoLists;
      HeldLists(g, fs, e, l);
      match op {
        case OPR_MINUS =>
          var e1 := e;
          if !IsNumeral(e) {
            e1 :- Exp2AnyReg(e, g, l);
          }
          r := CodeUnary(op, e1, g);
        case OPR_NOT =>
          r := CodeNot(e, g, l);
          l' := Flip(l);
        case OPR_LEN =>
          var e1 :- Exp2AnyReg(e, g, l);
          r := CodeUnary(op, e1, g);
      }
    }

    /** `luaK_infix`: what is done with the left operand before the right one is read. */
    method Infix(op: BinOpr, e: ExpDesc, ghost g: Goal, ghost l: Lists) returns (r: Result<ExpDesc>, ghost l': Lists)
      requires Holds(g, e, l) && Truthful(fs, e.k)
      modifies this`fs, this`freereg, this`maxstacksize
      ensures r.Failed? ==> Full(old(fs), 4, g.base + 1)
      ensures r.Ok? ==> Within(old(fs), fs, 4)
      ensures r.Ok? ==> StackOk() && freereg >= g.base && LeftOk(op, g, fs, r.value, l', nactvar, freereg)
    {
      hide Compiled, Branches, ListOk, Bounded;
      l' := NoLists;
      if op.OPR_AND? {
        r, l' := GoIfTrue(e, g, l);
      } else if op.OPR_OR? {
        r, l' := GoIfFalse(e, g, l);
      } else if op.OPR_CONCAT? {
        r := Exp2NextReg(e, g, l);
      } else if IsArith(op) && IsNumeral(e) {
        HeldLists(g, fs, e, l);
        r := Ok(e);
      } else {
        var rk;
        r, rk := Exp2RK(e, g, l);
      }
    }

    /** `luaK_posfix`, the logical operators: the jumps of the left operand join those of the right. */
    method PosfixLogical(sense: bool, e1: ExpDesc, e2: ExpDesc, ghost g1: Goal, ghost fs1: FS, ghost l1: Lists, ghost g2: Goal, ghost l2: Lists)
      returns (r: Result<ExpDesc>, ghost l': Lists)
      requires LeftOk(Logical(sense), g1, fs1, e1, l1, nactvar, g2.base) && Follows(g1, fs1, g2) && g1.env == env
      requires Holds(g2, e2, l2) && Fit(fs, e2.k, g2.base)
      modifies this`fs
      ensures r.Failed? ==> Near(old(fs), 0)
      ensures r.Ok? ==> Within(old(fs), fs, 0)
      ensures r.Ok? ==> Holds(g1.(expr := Binary(Logical(sense), g1.expr, g2.expr)), r.value, l') && Fit(fs, r.value.k, g1.base)
    {
      hide FsOk, Means, ListsOk, Branches, Frame, ListOk, OwnLists, HereOk, Follows, Bounded;
      var e := DischargeVars(e2);
      DischargedVars(g2, fs, e2, l2);
      FollowsBase(g1, fs1, g2);
      ghost var f0 := fs;
      ghost var own := if sense then l2.f else l2.t;
      ghost var left := if sense then l1.f else l1.t;
      l' := WithExits(l2, left, sense);
      LogicalLists(g1, fs1, if sense then e1.f else e1.t, l1, sense, g2, fs, e, l2, l');
      LogicalMeans(g1, fs1, l1, sense, g2, fs, e.k, l2, l');
      var head :- Concat(if sense then e.f else e.t, if sense then e1.f else e1.t, own, left);
      BoundedRelinked(f0.code, fs.code, own, fs.pend, maxstacksize);
      LogicalLinked(g1.(expr := Binary(Logical(sense), g1.expr, g2.expr)), f0, fs, e, head, sense, l2, left, l');
      if sense {
        return Ok(e.(f := head)), l';
      } else {
        return Ok(e.(t := head)), l';
      }
    }

    /** `luaK_posfix`, concatenation: a concatenation to the right is extended to the left. */
    method PosfixConcat(e1: ExpDesc, e2: ExpDesc, ghost g1: Goal, ghost fs1: FS, ghost g2: Goal, ghost l2: Lists) returns (r: Result<ExpDesc>)
      requires LeftOk(OPR_CONCAT, g1, fs1, e1, NoLists, nactvar, g2.base) && Follows(g1, fs1, g2) && g1.env == env
      requires Holds(g2, e2, l2) && Fit(fs, e2.k, g2.base)
      modifies this`fs, this`freereg, this`maxstacksize
      ensures r.Failed? ==> Full(old(fs), 9, g2.base + 2)
      ensures r.Ok? ==> Within(old(fs), fs, 9)
      ensures r.Ok? ==> Holds(g1.(expr := Binary(OPR_CONCAT, g1.expr, g2.expr)), r.value, NoLists) && Fit(fs, r.value.k, g1.base)
    {
      hide FsOk, Means, ListsOk, Frame, Follows, Pair, Bounded;
      FollowsBase(g1, fs1, g2);
      var e :- Exp2Val(e2, g2, l2);
      HeldMeans(g2, fs, e, NoLists);
      MeansParts(g2, fs, e.k, NoLists);
      if e.k.VRELOCABLE? && fs.code[e.k.info].CONCAT? {
        var i := fs.code[e.k.info];
        assert e1.k.info == i.b - 1;
        FreeExp(e1.k);
        ghost var f0 := fs;
        BoundedInstr(fs.code, fs.pend, maxstacksize, e.k.info);
        BoundedSet(fs.code, e.k.info, CONCAT(i.a, e1.k.info, i.c), fs.pend, maxstacksize);
        fs := fs.(code := fs.code[e.k.info := CONCAT(i.a, e1.k.info, i.c)]);
        ConcatExtended(g1, fs1, e1.k, g2, f0, e.k, fs);
        NoTailLists(fs, e.k);
        return Ok(e);
      } else {
        var e' :- Exp2NextReg(e, g2, NoLists);
        r := CodeArith(OPR_CONCAT, e1, e', g1, fs1, g2, NoLists);
      }
    }

    /** `luaK_posfix`. */
    method Posfix(op: BinOpr, e1: ExpDesc, e2: ExpDesc, ghost g1: Goal, ghost fs1: FS, ghost l1: Lists, ghost g2: Goal, ghost l2: Lists)
      returns (r: Result<ExpDesc>, ghost l': Lists)
      requires LeftOk(op, g1, fs1, e1, l1, nactvar, g2.base) && Follows(g1, fs1, g2) && g1.env == env
      requires Holds(g2, e2, l2) && Fit(fs, e2.k, g2.base)
      modifies this`fs, this`freereg, this`maxstacksize
      ensures r.Failed? ==> Full(old(fs), 9, g2.base + 2)
      ensures r.Ok? ==> Within(old(fs), fs, 9)
      ensures r.Ok? ==> Holds(g1.(expr := Binary(op, g1.expr, g2.expr)), r.value, l') && Fit(fs, r.value.k, g1.base)
    {
      hide Follows, Fit, Compiled, Branches, Bounded;
      l' := NoLists;
      if op.OPR_AND? {
        r, l' := PosfixLogical(true, e1, e2, g1, fs1, l1, g2, l2);
      } else if op.OPR_OR? {
        r, l' := PosfixLogical(false, e1, e2, g1, fs1, l1, g2, l2);
      } else if op.OPR_CONCAT? {
        r := PosfixConcat(e1, e2, g1, fs1, g2, l2);
      } else if IsArith(op) {
        r := CodeArith(op, e1, e2, g1, fs1, g2, l2);
      } else {
        r := CodeComp(op, e1, e2, g1, fs1, g2, l2);
      }
    }

    // ----- statements -----

    /** `luaK_storevar`, for a local. */
    method StoreLocal(r0: int, ex: ExpDesc, ghost g: Goal, ghost l: Lists) returns (r: Result<()>)
      requires Holds(g, ex, l) && 0 <= r0 < nactvar
      modifies this`fs, this`freereg
      ensures r.Failed? ==> Near(old(fs), 4)
      ensures r.Ok? ==> Within(old(fs), fs, 4)
      ensures r.Ok? ==> StackOk() && freereg == g.base && Means(g.(dest := r0), fs, VNONRELOC(r0), NoLists)
    {
      hide Compiled, Bounded;
      var e := DischargeVars(ex);
      DischargedVars(g, fs, ex, l);
      ChunkMeaning.MayOverwrite(g, fs, e, l, r0);
      FreeExp(e.k);
      var e' :- Exp2Reg(e, r0, g.(dest := r0), l);
      HeldMeans(g.(dest := r0), fs, e', NoLists);
      return Ok(());
    }

    /** `luaK_ret`. */
    method Ret(first: int, nret: int) returns (r: Result<()>)
      requires HereOk(fs)
      requires Framed() && InFrame(RETURN(first, nret + 1), maxstacksize)
      modifies this`fs
      ensures r.Failed? ==> Near(old(fs), 0)
      ensures r.Ok? ==> Within(old(fs), fs, 1)
      ensures r.Ok? ==> ChunkMeaning.ReturnsAfter(old(fs), fs, first, nret + 1)
      ensures r.Ok? ==> Framed()
    {
      hide Bounded;
      var pc :- Code(RETURN(first, nret + 1));
      PlusLast(fs, pc);
      BoundedCoded(old(fs), fs, maxstacksize);
      return Ok(());
    }

    /** `adjustlocalvars`, for one local. */
    method AdjustLocalVars()
      requires StackOk() && nactvar < freereg
      modifies this`nactvar
      ensures nactvar == old(nactvar) + 1 && StackOk()
    {
      hide Bounded;
      nactvar := nactvar + 1;
    }

    /** Registers above the locals are freed after each statement. */
    method FreeRegisters()
      requires StackOk()
      modifies this`freereg
      ensures freereg == nactvar && StackOk()
    {
      hide Bounded;
      freereg := nactvar;
    }
  }

  lemma FsParts(fs: FS)
    requires FsOk(fs)
    ensures HereOk(fs) && ConstantsOk(fs) && fs.lasttarget <= |fs.code|
  {
  }

  lemma PlusLast(fs: FS, pc: int)
    requires 0 <= pc == |fs.code| - 1
    ensures fs == Plus(Prefix(fs, pc), fs.code[pc])
  {
    assert fs.code == fs.code[..pc] + [fs.code[pc]];
  }

  // ----- what exp2reg needs -----

  lemma HeldFramed(c: Code, c': Code, fj: int, held: seq<int>)
    requires |c| <= |c'| && c'[..|c|] == c
    requires if fj == NO_JUMP then held == [] else ListOk(c, fj, held)
    ensures ListOk(c', fj, held)
  {
    if fj != NO_JUMP {
      forall q | On(held, q) ensures 0 <= q < |c| && c'[q] == c[q] {
        ListMember(c, fj, held, q);
        assert c'[q] == c'[..|c|][q];
      }
      ListFrame(c, c', fj, held);
    }
  }

  lemma NothingRelinked(c: Code, c': Code)
    requires Relinked(c, c', [])
    ensures c' == c
  {
    forall q | 0 <= q < |c| ensures c'[q] == c[q] { assert !On([], q); }
  }

  lemma LabelledPending(a: FS, f1: FS, f2: FS, b: FS, held: seq<int>, jumped: bool)
    requires if jumped then held == [|a.code|] + a.here && f1.pend == a.pend + {|a.code|} else held == [] && f1.pend == a.pend
    requires forall q :: Pending(f2.pend, q) == Pending(f1.pend, q)
    requires b.pend == f2.pend && b.here == held
    requires forall q :: On(a.here, q) ==> Pending(a.pend, q)
    ensures forall q :: Pending(b.pend, q) <==> Pending(a.pend, q) || (jumped && q == |a.code|)
    ensures forall q :: On(b.here, q) <==> jumped && (On(a.here, q) || q == |a.code|)
    ensures forall q :: On(b.here, q) ==> Pending(b.pend, q)
  {
    var n := |a.code|;
    forall q ensures Pending(b.pend, q) <==> Pending(a.pend, q) || (jumped && q == n) {
      var r := q;
      assert Pending(b.pend, q) == Pending(f1.pend, q);
      assert r in f1.pend <==> r in a.pend || (jumped && r == n);
    }
    forall q ensures On(b.here, q) <==> jumped && (On(a.here, q) || q == n) {
      if jumped { OnConcat([n], a.here, q); var r := q; assert r in [n] <==> r == n; }
    }
  }

  lemma BooleansLabelled(a: FS, f1: FS, f2: FS, b: FS, reg: int, held: seq<int>, jumped: bool)
    requires HereOk(a) && if jumped then held == [|a.code|] + a.here else held == [] == a.here && f1 == a
    requires jumped ==> |f1.code| == |a.code| + 1 && f1.code[..|a.code|] == a.code && f1.code[|a.code|].JMP?
    requires jumped ==> f1 == a.(code := f1.code, jpc := NO_JUMP, here := [], pend := a.pend + {|a.code|})
    requires f2 == f1.(code := f1.code + [LOADBOOL(reg, false, true), LOADBOOL(reg, true, false)], lasttarget := |f1.code| + 1, pend := f2.pend)
    requires forall q :: Pending(f2.pend, q) == Pending(f1.pend, q)
    requires b == f2.(lasttarget := |f2.code|, jpc := b.jpc, here := held) && ListOk(b.code, b.jpc, b.here)
    ensures Labelled(a, b, reg, jumped) && HereOk(b)
  {
    assert b.code[..|a.code|] == a.code;
    LabelledPending(a, f1, f2, b, held, jumped);
  }

  /** Putting the jump of a comparison on the true list. */
  lemma JumpCommitted(g: Goal, fs: FS, e: ExpDesc, l: Lists)
    requires Compiled(g, fs, e, l) && e.k.VJMP?
    ensures var fs' := fs.(pend := fs.pend + {e.k.info});
            Means(g, fs', VFALSE, Lists(l.t + [e.k.info], l.f)) &&
            ListOk(fs'.code, e.t, l.t) && ListOk(fs'.code, e.f, l.f) && ListOk(fs'.code, e.k.info, [e.k.info]) && Apart(l.t, [e.k.info]) &&
            HereOk(fs') && fs'.here == [] && 0 < e.k.info < |fs.code| && fs.code[e.k.info - 1].COMPARE?
  {
    hide FsOk, Means;
    var i := e.k.info;
    var d := Body(fs, e.k);
    MeansParts(g, fs, e.k, l);
    var test := fs.code[i - 1];
    assert fs.code == d.code + [test, JMP(NO_JUMP)];
    var l' := Lists(l.t + [i], l.f);
    forall q ensures On(l'.t, q) <==> On(l.t, q) || q == i {
      OnConcat(l.t, [i], q);
      var r := q;
      assert r in [i] <==> r == i;
    }
    SettledSelf(g.env, d);
    CompareFits(g, fs, i, d, true);
    CommitTest(g, fs, e.k, l, d, test, true, l');
    assert PlusTest(d, test) == fs.(pend := fs.pend + {i});
    BodyLists(fs, e, l);
    JumpAlone(fs.code, i);
    forall q | On([i], q) ensures !On(l.t, q) {
      var r := q;
      assert r in [i];
      if On(l.t, q) { ListMember(d.code, e.t, l.t, q); }
    }
    assert HereOk(PlusTest(d, test)) by { HereEmpty(PlusTest(d, test), d); }
  }

  lemma HereEmpty(fs: FS, d: FS)
    requires FsOk(d) && d.here == [] && fs.here == [] && fs.jpc == d.jpc
    ensures HereOk(fs)
  {
  }

  lemma MeansParts(g: Goal, fs: FS, k: ExpKind, l: Lists)
    requires Means(g, fs, k, l)
    ensures FsOk(Body(fs, k)) && TailOk(fs, k) && TailLength(k) <= |fs.code| && OwnLists(Body(fs, k), l)
  {
    hide FsOk;
  }

  lemma OwnApart(g: Goal, fs: FS, k: ExpKind, l: Lists)
    requires Means(g, fs, k, l) && TailLength(k) == 0
    ensures Apart(l.t, l.f) && forall q :: InLists(l, q) ==> 0 <= q < |fs.code| && fs.code[q].JMP?
  {
    BodySame(fs, k);
    forall q | InLists(l, q) ensures 0 <= q < |fs.code| && fs.code[q].JMP? { OwnJump(fs, l, q); }
  }

  /** A comparison's own test takes its jump exactly when the comparison is true. */
  lemma CompareFits(g: Goal, fs: FS, i: int, d: FS, sense: bool)
    requires TailOk(fs, VJMP(i)) && d.k == fs.k
    ensures var test := fs.code[i - 1];
            Tests(g, fs, VJMP(i), d, if sense then test else COMPARE(test.cmp, !test.cond, test.rb, test.rc), sense)
    ensures forall regs, v :: KindValue(g.env, fs.code, fs.k, VJMP(i), regs) == Some(v) ==> v.Bool?
  {
  }

  /** The lists of a descriptor lie in the body of its code. */
  lemma BodyLists(fs: FS, e: ExpDesc, l: Lists)
    requires ListsOk(Body(fs, e.k), e, l)
    ensures ListOk(fs.code, e.t, l.t) && ListOk(fs.code, e.f, l.f) && Apart(l.t, l.f)
    ensures OwnLists(Body(fs, e.k), l)
  {
    var b := Body(fs, e.k);
    forall q | InLists(l, q) ensures 0 <= q < |b.code| && q < |fs.code| && fs.code[q] == b.code[q] {
      if On(l.t, q) { ListMember(b.code, e.t, l.t, q); } else { ListMember(b.code, e.f, l.f, q); }
    }
    ListFrame(b.code, fs.code, e.t, l.t);
    ListFrame(b.code, fs.code, e.f, l.f);
  }

  lemma BodyListsFramed(f0: FS, fs: FS, e: ExpDesc, l: Lists)
    requires ListsOk(Body(f0, e.k), e, l) && Frame(Body(f0, e.k), fs, NoLists)
    ensures ListOk(fs.code, e.t, l.t) && ListOk(fs.code, e.f, l.f)
  {
    ListsFramed(Body(f0, e.k), fs, e, l);
  }

  lemma CommittedLinked(g: Goal, f1: FS, fs: FS, f: int, l: Lists, i: int)
    requires Means(g, f1, VFALSE, Lists(l.t + [i], l.f)) && fs == f1.(code := fs.code) && Relinked(f1.code, fs.code, l.t)
    requires ListOk(f1.code, f, l.f) && f1.here == [] && HereOk(f1)
    requires 0 < i < |f1.code| && f1.code[i - 1].COMPARE?
    ensures Means(g, fs, VFALSE, Lists(l.t + [i], l.f)) && ListOk(fs.code, f, l.f)
    ensures On(l.t + [i], i) && !Sets(fs.code, i) && HereOk(fs)
  {
    hide FsOk;
    AtOn(l.t + [i], |l.t|);
    var l' := Lists(l.t + [i], l.f);
    BodySame(f1, VFALSE);
    MeansParts(g, f1, VFALSE, l');
    FsParts(f1);
    assert HereOk(fs);
    BodySame(fs, VFALSE);
    forall q | On(l.t, q) ensures InLists(l', q) && Pending(f1.pend, q) {
      OnConcat(l.t, [i], q);
      OwnJump(f1, l', q);
    }
    forall q | On(l.f, q) ensures 0 <= q < |f1.code| && fs.code[q] == f1.code[q] {
      ListMember(f1.code, f, l.f, q);
      if On(l.t, q) { OnConcat(l.t, [i], q); }
    }
    ListFrame(f1.code, fs.code, f, l.f);
    RelinkMeans(g, f1, VFALSE, l', fs, l.t, l');
  }

  lemma AnyJumps(fs: FS, e: ExpDesc, l: Lists)
    requires ListOk(fs.code, e.t, l.t) && ListOk(fs.code, e.f, l.f)
    ensures e.t == e.f && Apart(l.t, l.f) ==> l == NoLists
  {
    if e.t == e.f {
      if l.t != [] { assert LinkOk(fs.code, l.t, 0); AtOn(l.t, 0); }
      if l.f != [] { assert LinkOk(fs.code, l.f, 0); AtOn(l.f, 0); }
    }
  }

  lemma LabelledLists(g: Goal, a: FS, k: ExpKind, l: Lists, b: FS, reg: int, t: int, f: int)
    requires Means(g, a, k, l) && Labelled(a, b, reg, k == VNONRELOC(reg)) && HereOk(b) && (k == VNONRELOC(reg) || k == VFALSE)
    requires (reg >= g.base || reg == g.dest) && ListOk(a.code, t, l.t) && ListOk(a.code, f, l.f)
    ensures Means(g, b, VNONRELOC(reg), l) && ListOk(b.code, t, l.t) && ListOk(b.code, f, l.f)
    ensures Labels(b.code, l, reg, |b.code| - 2)
  {
    hide FsOk, HereOk;
    BodySame(a, k);
    LabelledMeans(g, a, k, l, b, reg, k == VNONRELOC(reg));
    HeldList(a.code, b.code, t, l.t);
    HeldList(a.code, b.code, f, l.f);
    forall q | InLists(l, q) ensures q < |a.code| {
      if On(l.t, q) { ListMember(a.code, t, l.t, q); } else { ListMember(a.code, f, l.f, q); }
    }
    LastEntry(a);
    if |a.code| > 0 { assert b.code[|a.code| - 1] == b.code[..|a.code|][|a.code| - 1]; }
  }

  lemma LastEntry(fs: FS)
    requires FsOk(fs)
    ensures Entry(fs.code, |fs.code|)
  {
  }

  lemma HeldList(c: Code, c': Code, head: int, l: seq<int>)
    requires ListOk(c, head, l) && |c| <= |c'| && c'[..|c|] == c
    ensures ListOk(c', head, l)
  {
    forall q | On(l, q) ensures 0 <= q < |c| && c'[q] == c[q] {
      ListMember(c, head, l, q);
      assert c'[q] == c'[..|c|][q];
    }
    ListFrame(c, c', head, l);
  }

  lemma LabelMeans(g: Goal, fs: FS, k: ExpKind, l: Lists, fs': FS)
    requires Means(g, fs, k, l) && TailLength(k) == 0 && fs' == fs.(lasttarget := |fs.code|)
    ensures Means(g, fs', k, l)
  {
    BodySame(fs, k);
    BodySame(fs', k);
    forall q | 0 <= q < |fs.code| ensures InstrOk(|fs.k|, fs.code, fs.pend, |fs.code|, q) {
      assert InstrOk(|fs.k|, fs.code, fs.pend, fs.lasttarget, q);
    }
    FrameSelf(fs);
    Revalued(g, fs, k, l, fs', k);
  }

  /** Every jump of the lists has somewhere to go. */
  lemma TargetsExist(fs: FS, l: Lists, t: int, f: int, reg: int, pf: int)
    requires ListOk(fs.code, t, l.t) && ListOk(fs.code, f, l.f)
    requires (forall q :: InLists(l, q) ==> Sets(fs.code, q)) || Labels(fs.code, l, reg, pf)
    ensures forall q :: On(l.f, q) ==> 0 <= (if Sets(fs.code, q) then |fs.code| else pf) <= |fs.code|
    ensures forall q :: On(l.t, q) ==> 0 <= (if Sets(fs.code, q) then |fs.code| else pf + 1) <= |fs.code|
  {
    assert forall q :: On(l.f, q) ==> InLists(l, q);
    assert forall q :: On(l.t, q) ==> InLists(l, q);
  }

  lemma StillListed(c: Code, c1: Code, t: int, f: int, l: Lists, reg: int, pf: int)
    requires Patched(c, c1, l.f, |c|, reg, pf) && ListOk(c, t, l.t) && ListOk(c, f, l.f) && Apart(l.t, l.f)
    ensures ListOk(c1, t, l.t) && forall q :: On(l.t, q) ==> Sets(c1, q) == Sets(c, q)
  {
    forall q | InLists(l, q) ensures 0 <= q < |c| && c[q].JMP? {
      if On(l.t, q) { ListMember(c, t, l.t, q); } else { ListMember(c, f, l.f, q); }
    }
    forall q | On(l.t, q) ensures Sets(c1, q) == Sets(c, q) && 0 <= q < |c1| && q < |c| && c1[q] == c[q] {
      assert InLists(l, q);
      PatchedSets(c, c1, l, reg, pf, q);
      assert PatchedAt(c, c1, l.f, |c|, reg, pf, q);
    }
    ListFrame(c, c1, t, l.t);
  }

  lemma PendingWithout(pend: set<int>, pend': set<int>, l: Lists)
    requires pend' == set q | q in pend && !InLists(l, q)
    ensures forall q :: Pending(pend', q) <==> Pending(pend, q) && !InLists(l, q)
  {
    forall q ensures Pending(pend', q) <==> Pending(pend, q) && !InLists(l, q) {
      var r := q;
      assert r in pend' <==> r in pend && !InLists(l, r);
    }
  }

  lemma NoJumpLists(fs: FS, k: ExpKind)
    requires TailLength(k) == 0
    ensures ListsOk(Body(fs, k), ExpDesc(k, NO_JUMP, NO_JUMP), NoLists)
  {
    NoListsEmpty();
    BodySame(fs, k);
  }

  // ----- registers -----

  /** A temporary value is in the first register beyond those of the goal. */
  predicate RegOk(k: ExpKind, nactvar: int, freereg: int, base: int) {
    match k
    case VNONRELOC(r) => (0 <= r < nactvar && freereg == base) || (r == base && freereg == base + 1)
    case VLOCAL(r) => 0 <= r < nactvar && freereg == base
    case _ => freereg == base
  }

  /** What an RK operand can be. */
  predicate IsOperand(k: ExpKind) {
    k.VNONRELOC? || (k.VK? && k.info <= MAXINDEXRK)
  }

  /** An operand already: the functions that would make it one leave it alone. */
  predicate Placed(e: ExpDesc, l: Lists) {
    e.t == NO_JUMP == e.f && l == NoLists && IsOperand(e.k)
  }

  function RKOf(k: ExpKind): int
    requires IsOperand(k)
  {
    if k.VK? then RKASK(k.info) else k.info
  }

  /** `luaK_dischargevars`, where the variables are locals. */
  function DischargeVars(e: ExpDesc): ExpDesc {
    if e.k.VLOCAL? then e.(k := VNONRELOC(e.k.info)) else e
  }

  lemma DischargedVars(g: Goal, fs: FS, e: ExpDesc, l: Lists)
    requires Compiled(g, fs, e, l)
    ensures Compiled(g, fs, DischargeVars(e), l)
  {
    if e.k.VLOCAL? {
      hide FsOk;
      BodySame(fs, e.k);
      BodySame(fs, DischargeVars(e).k);
      SettledSelf(g.env, fs);
      Revalued(g, fs, e.k, l, fs, DischargeVars(e).k);
    }
  }

  lemma MeansReady(g: Goal, fs: FS, k: ExpKind, l: Lists)
    requires Means(g, fs, k, l)
    ensures Ready(fs, k)
  {
    hide FsOk;
  }

  lemma RekindLists(fs: FS, e: ExpDesc, k: ExpKind, l: Lists)
    requires ListsOk(fs, e, l)
    ensures ListsOk(fs, e.(k := k), l)
  {
  }

  /** `hasjumps`. */
  lemma HasJumps(g: Goal, fs: FS, e: ExpDesc, l: Lists)
    requires Compiled(g, fs, e, l)
    ensures e.t == e.f <==> l == NoLists
    ensures l == NoLists ==> e.t == NO_JUMP == e.f
  {
    hide FsOk, Means;
    BodyLists(fs, e, l);
    AnyJumps(fs, e, l);
  }

  lemma CompiledParts(g: Goal, fs: FS, e: ExpDesc, l: Lists)
    requires Compiled(g, fs, e, l)
    ensures ConstantsOk(fs) && (e.k.VK? ==> 0 <= e.k.info < |fs.k|)
  {
    FsParts(Body(fs, e.k));
  }

  lemma ConstantOperand(g: Goal, fs: FS, e: ExpDesc, fs': FS, i: int)
    requires Compiled(g, fs, e, NoLists) && (e.k.VNIL? || e.k.VTRUE? || e.k.VFALSE? || e.k.VKNUM?)
    requires fs' == fs.(k := fs'.k, h := fs'.h) && fs.k <= fs'.k && ConstantsOk(fs') && 0 <= i < |fs'.k|
    requires KindValue(g.env, fs.code, fs.k, e.k, map[]) == Some(fs'.k[i]) && e.t == NO_JUMP == e.f
    ensures Compiled(g, fs', e.(k := VK(i)), NoLists)
  {
    hide FsOk;
    BodySame(fs, e.k);
    BodySame(fs', VK(i));
    MoreConstants(g.env, fs, fs');
    Revalued(g, fs, e.k, NoLists, fs', VK(i));
    NoJumpLists(fs', VK(i));
  }

  // ----- conditions -----

  lemma BoundedInverted(fs: FS, pc: int, n: int)
    requires Bounded(fs.code, fs.pend, n) && 0 < pc < |fs.code| && fs.code[pc - 1].COMPARE?
    ensures Bounded(Inverted(fs, pc).code, fs.pend, n)
  {
    var i := fs.code[pc - 1];
    BoundedInstr(fs.code, fs.pend, n, pc - 1);
    BoundedSet(fs.code, pc - 1, COMPARE(i.cmp, !i.cond, i.rb, i.rc), fs.pend, n);
  }

  ghost function Inverted(fs: FS, pc: int): FS
    requires 0 < pc < |fs.code| && fs.code[pc - 1].COMPARE?
  {
    var i := fs.code[pc - 1];
    fs.(code := fs.code[pc - 1 := COMPARE(i.cmp, !i.cond, i.rb, i.rc)])
  }

  /** `l` with a jump taken when the value is `cond`. */
  function Jumping(l: Lists, pc: int, cond: bool): Lists {
    if cond then Lists(l.t + [pc], l.f) else Lists(l.t, l.f + [pc])
  }

  lemma JumpingJoins(l: Lists, pc: int, cond: bool)
    ensures Joins(l, pc, cond, Jumping(l, pc, cond))
  {
    forall q ensures On(Jumping(l, pc, cond).t, q) <==> On(l.t, q) || (cond && q == pc) {
      OnConcat(l.t, [pc], q);
      var r := q;
      assert r in [pc] <==> r == pc;
    }
    forall q ensures On(Jumping(l, pc, cond).f, q) <==> On(l.f, q) || (!cond && q == pc) {
      OnConcat(l.f, [pc], q);
      var r := q;
      assert r in [pc] <==> r == pc;
    }
  }

  /** A test emitted for the value of `e`, and what becomes of the lists. */
  lemma TestCommitted(g: Goal, fs: FS, e: ExpDesc, l: Lists, d: FS, i: Instr, cond: bool, l': Lists)
    requires Compiled(g, fs, e, l) && Discharged(Body(fs, e.k), d) && IsTest(i) && OperandsOk(i, |fs.k|)
    requires l' == Jumping(l, |d.code| + 1, cond) && Tests(g, fs, e.k, d, i, cond)
    ensures var fs' := PlusTest(d, i);
            Branches(g, fs', l', !cond) && ListOk(fs'.code, e.t, l.t) && ListOk(fs'.code, e.f, l.f) &&
            ListOk(fs'.code, |d.code| + 1, [|d.code| + 1]) && Apart(l.t, [|d.code| + 1]) && Apart(l.f, [|d.code| + 1])
  {
    hide FsOk, Means, Frame;
    var b := Body(fs, e.k);
    var fs' := PlusTest(d, i);
    MeansParts(g, fs, e.k, l);
    DischargedSettled(g.env, b, d);
    JumpingJoins(l, |d.code| + 1, cond);
    CommitTest(g, fs, e.k, l, d, i, cond, l');
    CommittedLists(g, b, e, l, d, i);
    JumpAlone(fs'.code, |d.code| + 1);
  }

  lemma CommittedLists(g: Goal, b: FS, e: ExpDesc, l: Lists, d: FS, i: Instr)
    requires ListsOk(b, e, l) && Frame(b, d, NoLists)
    ensures ListOk(PlusTest(d, i).code, e.t, l.t) && ListOk(PlusTest(d, i).code, e.f, l.f)
    ensures Apart(l.t, [|d.code| + 1]) && Apart(l.f, [|d.code| + 1])
  {
    hide Frame;
    ListsFramed(b, d, e, l);
    var j := |d.code| + 1;
    forall q | On([j], q) ensures q == j { var r := q; assert r in [j]; }
    if On(l.t, j) { ListMember(d.code, e.t, l.t, j); }
    if On(l.f, j) { ListMember(d.code, e.f, l.f, j); }
    var c' := PlusTest(d, i).code;
    assert c'[..|d.code|] == d.code;
    HeldList(d.code, c', e.t, l.t);
    HeldList(d.code, c', e.f, l.f);
  }

  lemma TestNot(g: Goal, fs: FS, e: ExpDesc, l: Lists, d: FS, cond: bool, l': Lists)
    requires Compiled(g, fs, e, l) && e.k.VRELOCABLE? && 0 <= e.k.info < |fs.code| && fs.code[e.k.info].NOT?
    requires Discharged(Body(fs, e.k), d) && l' == Jumping(l, |d.code| + 1, cond)
    ensures var fs' := PlusTest(d, TEST(fs.code[e.k.info].b, !cond));
            Branches(g, fs', l', !cond) && ListOk(fs'.code, e.t, l.t) && ListOk(fs'.code, e.f, l.f) &&
            ListOk(fs'.code, |d.code| + 1, [|d.code| + 1]) && Apart(l.t, [|d.code| + 1]) && Apart(l.f, [|d.code| + 1])
  {
    hide FsOk, Means, Frame, ListsOk;
    TestCommitted(g, fs, e, l, d, TEST(fs.code[e.k.info].b, !cond), cond, l');
  }

  lemma TestValue(g: Goal, fs: FS, e: ExpDesc, l: Lists, d: FS, cond: bool, l': Lists)
    requires Compiled(g, fs, e, l) && e.k.VNONRELOC?
    requires Discharged(Body(fs, e.k), d) && l' == Jumping(l, |d.code| + 1, cond)
    ensures var fs' := PlusTest(d, TESTSET(NO_REG, e.k.info, cond));
            Branches(g, fs', l', !cond) && ListOk(fs'.code, e.t, l.t) && ListOk(fs'.code, e.f, l.f) &&
            ListOk(fs'.code, |d.code| + 1, [|d.code| + 1]) && Apart(l.t, [|d.code| + 1]) && Apart(l.f, [|d.code| + 1])
  {
    hide FsOk, Means, Frame, ListsOk;
    TestCommitted(g, fs, e, l, d, TESTSET(NO_REG, e.k.info, cond), cond, l');
  }

  lemma ListRelinked(c: Code, c': Code, head: int, l: seq<int>, r: seq<int>)
    requires ListOk(c, head, l) && Relinked(c, c', r) && Apart(l, r)
    ensures ListOk(c', head, l)
  {
    forall q | On(l, q) ensures 0 <= q < |c| && c'[q] == c[q] { ListMember(c, head, l, q); }
    ListFrame(c, c', head, l);
  }

  /** The lists and the jumps to here are apart. */
  lemma BranchApart(g: Goal, fs: FS, l: Lists, sense: bool)
    requires Branches(g, fs, l, sense)
    ensures Apart(l.t, l.f) && Apart(l.f, l.t) && Apart(fs.here, l.t) && Apart(fs.here, l.f) && Apart(l.t, fs.here) && Apart(l.f, fs.here)
    ensures HereOk(fs) && fs.lasttarget <= |fs.code| && forall q :: InLists(l, q) ==> Pending(fs.pend, q)
  {
    hide AllDecide;
    forall q | InLists(l, q) ensures Pending(fs.pend, q) && !On(fs.here, q) { OwnJump(fs, l, q); }
    HereKept(fs, l);
  }

  ghost predicate Truthful(fs: FS, k: ExpKind) {
    k.VK? && 0 <= k.info < |fs.k| ==> Truthy(fs.k[k.info])
  }

  lemma ConstantCondition(g: Goal, fs: FS, k: ExpKind, l: Lists, sense: bool)
    requires Means(g, fs, k, l) && Truthful(fs, k)
    requires if sense then k.VK? || k.VKNUM? || k.VTRUE? else k.VNIL? || k.VFALSE?
    ensures Branches(g, fs, l, sense)
  {
    hide FsOk, OwnLists, AllDeliver, AllDecide, Frame;
    ConstantBranches(g, fs, k, l, sense);
  }

  /** A comparison's jump is committed as it is, or inverted. */
  lemma CompareCommitted(g: Goal, fs: FS, e: ExpDesc, l: Lists, cond: bool, fs': FS)
    requires Compiled(g, fs, e, l) && e.k.VJMP? && 0 < e.k.info < |fs.code| && fs.code[e.k.info - 1].COMPARE?
    requires var f1 := if cond then fs else Inverted(fs, e.k.info); fs' == f1.(pend := fs.pend + {e.k.info})
    ensures Branches(g, fs', Jumping(l, e.k.info, cond), !cond)
    ensures ListOk(fs'.code, e.t, l.t) && ListOk(fs'.code, e.f, l.f) && ListOk(fs'.code, e.k.info, [e.k.info])
    ensures Apart(l.t, [e.k.info]) && Apart(l.f, [e.k.info])
  {
    hide FsOk, Means, Frame, ListsOk;
    var i := e.k.info;
    var d := Body(fs, e.k);
    MeansParts(g, fs, e.k, l);
    var was := fs.code[i - 1];
    var test := if cond then was else COMPARE(was.cmp, !was.cond, was.rb, was.rc);
    assert fs.code == d.code + [was, JMP(NO_JUMP)];
    assert PlusTest(d, test) == fs';
    CompareFits(g, fs, i, d, cond);
    NoneDischarged(d);
    TestCommitted(g, fs, e, l, d, test, cond, Jumping(l, i, cond));
  }

  lemma NoneDischarged(fs: FS)
    requires FsOk(fs) && fs.here == []
    ensures Discharged(fs, fs)
  {
    forall q | 0 <= q < |fs.code| ensures PatchedAt(fs.code, fs.code, fs.here, |fs.code|, NO_REG, |fs.code|, q) { }
  }

  function WithExits(l: Lists, pcs: seq<int>, sense: bool): Lists {
    if sense then Lists(l.t, l.f + pcs) else Lists(l.t + pcs, l.f)
  }

  lemma JoinedOn(l: Lists, pcs: seq<int>, sense: bool)
    ensures forall q :: On(if sense then l.f else l.t, q) ==> InLists(WithExits(l, pcs, sense), q)
  {
    forall q ensures On((if sense then l.f else l.t) + pcs, q) <==> On(if sense then l.f else l.t, q) || On(pcs, q) {
      OnConcat(if sense then l.f else l.t, pcs, q);
    }
  }

  lemma EmptyList(c: Code)
    ensures ListOk(c, NO_JUMP, [])
  {
  }

  lemma HereRelinked(fs: FS, fs': FS, r: seq<int>)
    requires HereOk(fs) && fs' == fs.(code := fs'.code) && Relinked(fs.code, fs'.code, r) && Apart(fs.here, r)
    ensures HereOk(fs')
  {
    ListRelinked(fs.code, fs'.code, fs.jpc, fs.here, r);
  }

  lemma HereList(fs: FS)
    requires HereOk(fs)
    ensures ListOk(fs.code, fs.jpc, fs.here)
  {
  }

  lemma HereGrown(fs: FS, fs': FS, l: seq<int>)
    requires HereOk(fs) && fs' == fs.(code := fs'.code, lasttarget := |fs.code|, jpc := fs'.jpc, here := fs.here + l)
    requires ListOk(fs'.code, fs'.jpc, fs'.here) && Relinked(fs.code, fs'.code, fs.here)
    requires forall q :: On(l, q) ==> Pending(fs.pend, q)
    requires fs.lasttarget <= |fs.code|
    ensures HereOk(fs') && Relinks(fs, fs', fs.here)
    ensures forall q :: On(fs'.here, q) <==> On(fs.here, q) || On(l, q)
  {
    forall q ensures On(fs'.here, q) <==> On(fs.here, q) || On(l, q) { OnConcat(fs.here, l, q); }
  }

  // ----- not -----

  /** What the operators rely on: a constant in `k` is true, and a concatenation still to be placed
      takes the registers from `base` on. */
  ghost predicate Fit(fs: FS, k: ExpKind, base: int) {
    && Truthful(fs, k)
    && (k.VRELOCABLE? && 0 <= k.info < |fs.code| && fs.code[k.info].CONCAT? ==>
          base == fs.code[k.info].b < fs.code[k.info].c)
  }

  lemma NotConstant(g: Goal, fs: FS, e: ExpDesc, l: Lists)
    requires Compiled(g, fs, e, l) && Truthful(fs, e.k)
    requires e.k.VNIL? || e.k.VFALSE? || e.k.VK? || e.k.VKNUM? || e.k.VTRUE?
    ensures var k' := if e.k.VNIL? || e.k.VFALSE? then VTRUE else VFALSE;
            Halfway(g, fs, k', l) && ListOk(fs.code, e.t, l.t) && ListOk(fs.code, e.f, l.f)
  {
    hide FsOk, Frame, OwnLists, ListsOk, AllDeliver;
    var k' := if e.k.VNIL? || e.k.VFALSE? then VTRUE else VFALSE;
    BodySame(fs, e.k);
    BodySame(fs, k');
    SettledSelf(g.env, fs);
    BodyLists(fs, e, l);
    Halved(g, fs, e.k, l, fs, k');
  }

  lemma NotCompare(g: Goal, fs: FS, e: ExpDesc, l: Lists, fs': FS)
    requires Compiled(g, fs, e, l) && e.k.VJMP? && 0 < e.k.info < |fs.code| && fs.code[e.k.info - 1].COMPARE?
    requires fs' == Inverted(fs, e.k.info)
    ensures Halfway(g, fs', e.k, l) && ListOk(fs'.code, e.t, l.t) && ListOk(fs'.code, e.f, l.f)
  {
    hide FsOk, Frame, OwnLists, ListsOk, AllDeliver;
    assert Body(fs', e.k) == Body(fs, e.k) by {
      assert fs'.code[..|fs.code| - 2] == fs.code[..|fs.code| - 2];
    }
    SettledSelf(g.env, Body(fs, e.k));
    BodyLists(fs, e, l);
    forall q | On(l.t, q) || On(l.f, q) ensures 0 <= q < |fs.code| && fs'.code[q] == fs.code[q] {
      if On(l.t, q) { ListMember(fs.code, e.t, l.t, q); } else { ListMember(fs.code, e.f, l.f, q); }
    }
    ListFrame(fs.code, fs'.code, e.t, l.t);
    ListFrame(fs.code, fs'.code, e.f, l.f);
    Halved(g, fs, e.k, l, fs', e.k);
  }

  lemma NotCoded(g: Goal, fs: FS, e: ExpDesc, l: Lists, fs': FS, pc: int)
    requires Compiled(g, fs, e, l) && e.k.VNONRELOC? && 0 <= pc == |fs'.code| - 1 && fs'.code[pc] == NOT(0, e.k.info)
    requires Discharged(fs, Prefix(fs', pc))
    ensures Halfway(g, fs', VRELOCABLE(pc), l) && ListOk(fs'.code, e.t, l.t) && ListOk(fs'.code, e.f, l.f)
  {
    hide FsOk, Frame, OwnLists, ListsOk, AllDeliver;
    var d := Prefix(fs', pc);
    BodySame(fs, e.k);
    DischargedSettled(g.env, fs, d);
    assert Body(fs', VRELOCABLE(pc)) == d;
    ListsFramed(fs, d, e, l);
    assert fs'.code[..|d.code|] == d.code;
    BodyListsHeld(d, fs', e, l);
    Halved(g, fs, e.k, l, fs', VRELOCABLE(pc));
  }

  lemma BodyListsHeld(d: FS, fs: FS, e: ExpDesc, l: Lists)
    requires ListsOk(d, e, l) && |d.code| <= |fs.code| && fs.code[..|d.code|] == d.code
    ensures ListOk(fs.code, e.t, l.t) && ListOk(fs.code, e.f, l.f)
  {
    HeldList(d.code, fs.code, e.t, l.t);
    HeldList(d.code, fs.code, e.f, l.f);
  }

  /** Removing values leaves the lists themselves alone. */
  lemma ValuesKept(c: Code, c': Code, head: int, l: seq<int>, r: seq<int>)
    requires ListOk(c, head, l) && ValuesRemoved(c, c', r)
    ensures ListOk(c', head, l)
  {
    forall q | On(l, q) ensures 0 <= q < |c| && c'[q] == c[q] { ListMember(c, head, l, q); }
    ListFrame(c, c', head, l);
  }

  lemma RemovedTwice(c: Code, c1: Code, c2: Code, l: Lists)
    requires ValuesRemoved(c, c1, l.t) && ValuesRemoved(c1, c2, l.f)
    ensures Removed(c, c2, l)
  {
  }

  lemma NegationListed(g: Goal, fs: FS, k: ExpKind, e: ExpDesc, l: Lists, fs': FS)
    requires Halfway(g, fs, k, l) && fs' == fs.(code := fs'.code) && Removed(fs.code, fs'.code, l)
    requires ListOk(fs.code, e.t, l.t) && ListOk(fs.code, e.f, l.f)
    ensures Compiled(g.(expr := Negated(g.expr)), fs', ExpDesc(k, e.f, e.t), Flip(l))
    ensures |fs'.code| == |fs.code| && forall q :: 0 <= q < |fs.code| && !fs.code[q].TESTSET? ==> fs'.code[q] == fs.code[q]
  {
    hide FsOk, HereOk;
    var b, b' := Body(fs, k), Body(fs', k);
    RemovedBody(fs, k, l, fs');
    RemovedHere(b, b', l);
    NegationMeans(g, fs, k, l, fs');
    forall q | InLists(l, q) ensures 0 <= q < |b.code| && fs'.code[q] == fs.code[q] && b'.code[q] == fs.code[q] {
      OwnJump(b, l, q);
      if On(l.t, q) { ListMember(fs.code, e.t, l.t, q); } else { ListMember(fs.code, e.f, l.f, q); }
      PendingJump(b, q);
    }
    ListFrame(fs.code, b'.code, e.t, l.t);
    ListFrame(fs.code, b'.code, e.f, l.f);
    MeansParts(g.(expr := Negated(g.expr)), fs', k, Flip(l));
  }

  lemma PendingJump(fs: FS, q: int)
    requires FsOk(fs) && Pending(fs.pend, q)
    ensures 0 <= q < |fs.code| && fs.code[q].JMP?
  {
  }

  lemma RemovedHere(fs: FS, fs': FS, l: Lists)
    requires FsOk(fs) && fs' == fs.(code := fs'.code) && Removed(fs.code, fs'.code, l)
    ensures HereOk(fs')
  {
    forall q | On(fs.here, q) ensures 0 <= q < |fs.code| && fs'.code[q] == fs.code[q] { ListMember(fs.code, fs.jpc, fs.here, q); }
    ListFrame(fs.code, fs'.code, fs.jpc, fs.here);
  }

  // ----- operators -----

  predicate IsNumeral(e: ExpDesc) {
    e.k.VKNUM? && e.t == NO_JUMP == e.f
  }

  /** `constfolding`: never a division by zero. */
  function ConstFolding(sem: Semantics, op: BinOpr, e1: ExpDesc, e2: ExpDesc): Option<real> {
    if !IsArith(op) || !IsNumeral(e1) || !IsNumeral(e2) then None
    else if (op.OPR_DIV? || op.OPR_MOD?) && e2.k.nval == 0.0 then None
    else Some(sem.num(ArithOf(op), e1.k.nval, e2.k.nval))
  }

  /** What `luaK_infix` leaves for `luaK_posfix`. */
  ghost predicate LeftOk(op: BinOpr, g: Goal, fs: FS, e: ExpDesc, l: Lists, nactvar: int, freereg: int) {
    && g.dest == -1 && nactvar <= g.base
    && (match op
        case OPR_AND => freereg == g.base && Branches(g, fs, l, true) && l.t == [] && ListOk(fs.code, e.f, l.f)
        case OPR_OR => freereg == g.base && Branches(g, fs, l, false) && l.f == [] && ListOk(fs.code, e.t, l.t)
        case OPR_CONCAT => Compiled(g, fs, e, l) && e == ExpDesc(VNONRELOC(g.base), NO_JUMP, NO_JUMP) && l == NoLists && freereg == g.base + 1
        case _ =>
          Compiled(g, fs, e, l) && RegOk(e.k, nactvar, freereg, g.base) && l == NoLists &&
          (Placed(e, l) || (IsArith(op) && IsNumeral(e))))
  }

  lemma LeftOperand(op: BinOpr, g: Goal, fs: FS, e: ExpDesc, nactvar: int, freereg: int)
    requires IsCompare(op) && LeftOk(op, g, fs, e, NoLists, nactvar, freereg)
    ensures Means(g, fs, e.k, NoLists) && Placed(e, NoLists) && RegOk(e.k, nactvar, freereg, g.base) && nactvar <= g.base
  {
  }

  /** The temporaries of two operands lie on top of each other from `base` on. */
  predicate Stacked(k1: ExpKind, k2: ExpKind, nactvar: int, freereg: int, base: int) {
    var temp1 := k1.VNONRELOC? && k1.info >= nactvar;
    var temp2 := k2.VNONRELOC? && k2.info >= nactvar;
    && (k1.VNONRELOC? ==> 0 <= k1.info < MAXSTACK) && (k2.VNONRELOC? ==> 0 <= k2.info < MAXSTACK)
    && (if temp1 && temp2 then
          freereg == base + 2 && ((k1.info == base && k2.info == base + 1) || (k2.info == base && k1.info == base + 1))
        else if temp1 then freereg == base + 1 && k1.info == base
        else if temp2 then freereg == base + 1 && k2.info == base
        else freereg == base)
  }

  lemma OperandsStacked(k1: ExpKind, k1': ExpKind, k2: ExpKind, nactvar: int, base1: int, base2: int, base3: int, freereg: int)
    requires IsOperand(k1') && IsOperand(k2) && 0 <= nactvar <= base1 <= base2 && freereg < MAXSTACK
    requires RegOk(k1, nactvar, base2, base1) && RegOk(k2, nactvar, base3, base2)
    requires if k1.VKNUM? then RegOk(k1', nactvar, freereg, base3) else k1' == k1 && freereg == base3
    ensures Stacked(k1', k2, nactvar, freereg, base1)
  {
  }

  function Operation(op: BinOpr, o1: int, o2: int): Instr
    requires IsArith(op) || op.OPR_CONCAT?
  {
    if op.OPR_CONCAT? then CONCAT(0, o1, o2) else ARITH(ArithOf(op), 0, o1, o2)
  }

  /** The opcode of each operator. */
  predicate Performs(op: BinOpr, i: Instr) {
    match op
    case OPR_ADD => i.ARITH? && i.op == Add
    case OPR_SUB => i.ARITH? && i.op == Sub
    case OPR_MUL => i.ARITH? && i.op == Mul
    case OPR_DIV => i.ARITH? && i.op == Div
    case OPR_MOD => i.ARITH? && i.op == Mod
    case OPR_POW => i.ARITH? && i.op == Pow
    case OPR_CONCAT => i.CONCAT?
    case _ => false
  }

  lemma PairParts(g: Goal, x1: Expr, x2: Expr, fs: FS, k1: ExpKind, k2: ExpKind)
    requires Pair(g, x1, x2, fs, k1, k2) && IsOperand(k1) && IsOperand(k2)
    ensures FsOk(fs) && HereOk(fs) && TailOk(fs, k1) && TailOk(fs, k2)
  {
    BodySame(fs, k2);
  }

  lemma OperandValue(env: Env, fs: FS, k: ExpKind, regs: Regs)
    requires IsOperand(k) && TailOk(fs, k) && (k.VNONRELOC? ==> k.info < MAXSTACK)
    ensures KindValue(env, fs.code, fs.k, k, regs) == Some(RK(fs.k, regs, RKOf(k)))
  {
  }

  lemma OperationValue(env: Env, op: BinOpr, fs: FS, k1: ExpKind, k2: ExpKind, regs: Regs)
    requires TailOk(fs, k1) && TailOk(fs, k2) && IsOperand(k1) && IsOperand(k2) && (IsArith(op) || op.OPR_CONCAT?)
    requires (k1.VNONRELOC? ==> k1.info < MAXSTACK) && (k2.VNONRELOC? ==> k2.info < MAXSTACK)
    requires op.OPR_CONCAT? ==> RKOf(k2) == RKOf(k1) + 1 && !ISK(RKOf(k2))
    ensures InstrValue(env.sem, fs.k, Operation(op, RKOf(k1), RKOf(k2)), regs) ==
            Combine(env.sem, op, KindValue(env, fs.code, fs.k, k1, regs), KindValue(env, fs.code, fs.k, k2, regs))
  {
    OperandValue(env, fs, k1, regs);
    OperandValue(env, fs, k2, regs);
    if op.OPR_CONCAT? {
      assert Joined(env.sem, regs, RKOf(k2), RKOf(k2)) == Some(Get(regs, RKOf(k2)));
    }
  }

  lemma OperationMeans(g: Goal, x1: Expr, x2: Expr, op: BinOpr, fs: FS, k1: ExpKind, k2: ExpKind, fs': FS, pc: int)
    requires Pair(g, x1, x2, fs, k1, k2) && IsOperand(k1) && IsOperand(k2) && (IsArith(op) || op.OPR_CONCAT?)
    requires (k1.VNONRELOC? ==> k1.info < MAXSTACK) && (k2.VNONRELOC? ==> k2.info < MAXSTACK)
    requires op.OPR_CONCAT? ==> RKOf(k1) == g.base && RKOf(k2) == g.base + 1 && !ISK(RKOf(k2))
    requires 0 <= pc == |fs'.code| - 1 && fs'.code[pc] == Operation(op, RKOf(k1), RKOf(k2)) && Discharged(fs, Prefix(fs', pc))
    ensures Compiled(g.(expr := Binary(op, x1, x2)), fs', ExpDesc(VRELOCABLE(pc), NO_JUMP, NO_JUMP), NoLists)
    ensures Fit(fs', VRELOCABLE(pc), g.base)
  {
    hide FsOk, Pair, Combine, Means;
    var d := Prefix(fs', pc);
    var k := VRELOCABLE(pc);
    PairParts(g, x1, x2, fs, k1, k2);
    DischargedSettled(g.env, fs, d);
    BodySame(fs, k2);
    assert Body(fs', k) == d;
    forall regs
      ensures KindValue(g.env, fs'.code, fs'.k, k, regs) ==
              Combine(g.env.sem, op, KindValue(g.env, fs.code, fs.k, k1, regs), KindValue(g.env, fs.code, fs.k, k2, regs))
    {
      OperationValue(g.env, op, fs, k1, k2, regs);
    }
    BinaryMeans(g, x1, x2, op, fs, k1, k2, fs', k);
    NoTailLists(fs', k);
  }

  lemma NoTailLists(fs: FS, k: ExpKind)
    ensures ListsOk(Body(fs, k), ExpDesc(k, NO_JUMP, NO_JUMP), NoLists)
  {
    NoListsEmpty();
  }

  lemma HeldLists(g: Goal, fs: FS, e: ExpDesc, l: Lists)
    requires Compiled(g, fs, e, l)
    ensures e.t == NO_JUMP == e.f <==> l == NoLists
    ensures TailLength(e.k) == 0 ==> FsOk(fs)
  {
    HasJumps(g, fs, e, l);
    if TailLength(e.k) == 0 {
      BodySame(fs, e.k);
    }
  }

  lemma HeldMeans(g: Goal, fs: FS, e: ExpDesc, l: Lists)
    requires Compiled(g, fs, e, l)
    ensures Means(g, fs, e.k, l)
  {
  }

  lemma FollowsBase(g1: Goal, fs1: FS, g2: Goal)
    requires Follows(g1, fs1, g2)
    ensures g2.base >= g1.base && g2.dest == g1.dest == -1 && g2.env == g1.env && g2.start == fs1
  {
  }

  lemma Folded(op: BinOpr, g1: Goal, fs1: FS, e1: ExpDesc, g2: Goal, fs: FS, e2: ExpDesc)
    requires ConstFolding(g1.env.sem, op, e1, e2).Some?
    requires Means(g1, fs1, e1.k, NoLists) && Means(g2, fs, e2.k, NoLists) && Follows(g1, fs1, g2)
    ensures Means(g1.(expr := Binary(op, g1.expr, g2.expr)), fs, VKNUM(ConstFolding(g1.env.sem, op, e1, e2).value), NoLists)
  {
    hide FsOk, Means, Follows, Pair;
    var k := VKNUM(ConstFolding(g1.env.sem, op, e1, e2).value);
    PairOf(g1, fs1, e1.k, g2, fs, e2.k);
    BodySame(fs, e2.k);
    BodySame(fs, k);
    PairReady(g1, g1.expr, g2.expr, fs, e1.k, e2.k);
    SettledSelf(g1.env, fs);
    BinaryMeans(g1, g1.expr, g2.expr, op, fs, e1.k, e2.k, fs, k);
  }

  lemma FoldedHeld(op: BinOpr, g1: Goal, fs1: FS, e1: ExpDesc, g2: Goal, fs: FS, e2: ExpDesc, l2: Lists, nactvar: int)
    requires ConstFolding(g1.env.sem, op, e1, e2).Some? && LeftOk(op, g1, fs1, e1, NoLists, nactvar, g2.base)
    requires Compiled(g2, fs, e2, l2) && Follows(g1, fs1, g2) && (IsArith(op) || op.OPR_CONCAT?)
    ensures var k := VKNUM(ConstFolding(g1.env.sem, op, e1, e2).value);
            Compiled(g1.(expr := Binary(op, g1.expr, g2.expr)), fs, e1.(k := k), NoLists) && Fit(fs, k, g1.base)
  {
    hide FsOk, Means, Follows, ListsOk;
    var k := VKNUM(ConstFolding(g1.env.sem, op, e1, e2).value);
    HeldLists(g2, fs, e2, l2);
    Folded(op, g1, fs1, e1, g2, fs, e2);
    NoJumpLists(fs, k);
  }

  /** The left operand of an arithmetic operation or a concatenation: an operand already, or a
      number. */
  lemma LeftArith(op: BinOpr, g: Goal, fs: FS, e: ExpDesc, nactvar: int, freereg: int)
    requires (IsArith(op) || op.OPR_CONCAT?) && LeftOk(op, g, fs, e, NoLists, nactvar, freereg)
    ensures g.dest == -1 && nactvar <= g.base
    ensures Means(g, fs, e.k, NoLists) && RegOk(e.k, nactvar, freereg, g.base) && (Placed(e, NoLists) || (IsArith(op) && IsNumeral(e)))
    ensures op.OPR_CONCAT? ==> e == ExpDesc(VNONRELOC(g.base), NO_JUMP, NO_JUMP)
  {
  }

  lemma PairReady(g: Goal, x1: Expr, x2: Expr, fs: FS, k1: ExpKind, k2: ExpKind)
    requires Pair(g, x1, x2, fs, k1, k2)
    ensures FsOk(Body(fs, k2))
  {
  }

  /** A number needs no register until it is used. */
  lemma NumeralHeld(g: Goal, e: ExpDesc, g2: Goal, e2: ExpDesc)
    requires IsNumeral(e) && g.expr == Constant(Number(e.k.nval)) && Compiled(g2, g.start, e2, NoLists) && TailLength(e2.k) == 0
    ensures Compiled(g, g.start, e, NoLists)
  {
    HeldLists(g2, g.start, e2, NoLists);
    hide FsOk;
    AtomMeans(g, e.k);
    NoJumpLists(g.start, e.k);
  }

  lemma NumeralLate(g1: Goal, g2: Goal, fs2: FS, e1: ExpDesc, k2: ExpKind, g3: Goal, fs3: FS, k3: ExpKind, nactvar: int)
    requires Pair(g1, g1.expr, g2.expr, fs2, e1.k, k2) && e1.k.VKNUM? && Means(g3, fs3, k3, NoLists)
    requires g3.env == g1.env && g3.start == fs2 && g3.dest == g1.dest == -1 && g3.base >= g1.base && g3.expr == Constant(Number(e1.k.nval))
    requires IsOperand(k3) && IsOperand(k2) && (k2.VNONRELOC? ==> 0 <= k2.info < g3.base)
    ensures Pair(g1, g1.expr, g2.expr, fs3, k3, k2)
  {
    hide FsOk, Pair, Means;
    PairLate(g1, g1.expr, g2.expr, fs2, e1.k.nval, k2, g3, fs3, k3);
  }

  function Comparison(op: BinOpr, o1: int, o2: int): Instr
    requires IsCompare(op)
  {
    match op
    case OPR_EQ => COMPARE(Eq, true, o1, o2)
    case OPR_NE => COMPARE(Eq, false, o1, o2)
    case OPR_LT => COMPARE(Lt, true, o1, o2)
    case OPR_LE => COMPARE(Le, true, o1, o2)
    case OPR_GT => COMPARE(Lt, true, o2, o1)
    case OPR_GE => COMPARE(Le, true, o2, o1)
  }

  lemma ComparisonValue(env: Env, op: BinOpr, fs: FS, k1: ExpKind, k2: ExpKind, i: Instr, regs: Regs)
    requires TailOk(fs, k1) && TailOk(fs, k2) && IsOperand(k1) && IsOperand(k2) && IsCompare(op)
    requires (k1.VNONRELOC? ==> k1.info < MAXSTACK) && (k2.VNONRELOC? ==> k2.info < MAXSTACK)
    requires i == Comparison(op, RKOf(k1), RKOf(k2))
    ensures (match Taken(env.sem, fs.k, i, regs) case None => None case Some(b) => Some(Bool(b))) ==
            Combine(env.sem, op, KindValue(env, fs.code, fs.k, k1, regs), KindValue(env, fs.code, fs.k, k2, regs))
  {
    OperandValue(env, fs, k1, regs);
    OperandValue(env, fs, k2, regs);
  }

  lemma ComparisonMeans(g: Goal, x1: Expr, x2: Expr, op: BinOpr, fs: FS, k1: ExpKind, k2: ExpKind, d: FS, fs': FS, i: Instr, pc: int)
    requires Pair(g, x1, x2, fs, k1, k2) && IsOperand(k1) && IsOperand(k2) && IsCompare(op)
    requires (k1.VNONRELOC? ==> k1.info < MAXSTACK) && (k2.VNONRELOC? ==> k2.info < MAXSTACK)
    requires Discharged(fs, d) && fs' == d.(code := d.code + [i, JMP(NO_JUMP)]) && pc == |d.code| + 1
    requires i == Comparison(op, RKOf(k1), RKOf(k2))
    ensures Compiled(g.(expr := Binary(op, x1, x2)), fs', ExpDesc(VJMP(pc), NO_JUMP, NO_JUMP), NoLists)
    ensures Fit(fs', VJMP(pc), g.base)
  {
    hide FsOk, Pair, Combine, Means;
    var k := VJMP(pc);
    PairParts(g, x1, x2, fs, k1, k2);
    DischargedSettled(g.env, fs, d);
    BodySame(fs, k2);
    assert Body(fs', k) == d by { assert fs'.code[..|d.code|] == d.code; }
    forall regs
      ensures KindValue(g.env, fs'.code, fs'.k, k, regs) ==
              Combine(g.env.sem, op, KindValue(g.env, fs.code, fs.k, k1, regs), KindValue(g.env, fs.code, fs.k, k2, regs))
    {
      ComparisonValue(g.env, op, fs, k1, k2, i, regs);
    }
    BinaryMeans(g, x1, x2, op, fs, k1, k2, fs', k);
    NoTailLists(fs', k);
  }

  lemma FoldedMinus(g: Goal, fs: FS, e: ExpDesc)
    requires Means(g, fs, e.k, NoLists) && e.k.VKNUM?
    ensures Means(g.(expr := Unary(OPR_MINUS, g.expr)), fs, VKNUM(g.env.sem.neg(e.k.nval)), NoLists)
  {
    hide FsOk;
    var k := VKNUM(g.env.sem.neg(e.k.nval));
    BodySame(fs, e.k);
    BodySame(fs, k);
    SettledSelf(g.env, fs);
    UnaryMeans(g, OPR_MINUS, fs, e.k, fs, k);
  }

  lemma UnaryCoded(g: Goal, op: UnOpr, fs: FS, k: ExpKind, fs': FS, pc: int)
    requires Means(g, fs, k, NoLists) && k.VNONRELOC? && !op.OPR_NOT? && 0 <= pc == |fs'.code| - 1
    requires fs'.code[pc] == (if op.OPR_MINUS? then UNM(0, k.info) else LEN(0, k.info)) && Discharged(fs, Prefix(fs', pc))
    ensures Compiled(g.(expr := Unary(op, g.expr)), fs', ExpDesc(VRELOCABLE(pc), NO_JUMP, NO_JUMP), NoLists)
    ensures Fit(fs', VRELOCABLE(pc), g.base)
  {
    hide FsOk;
    var d := Prefix(fs', pc);
    BodySame(fs, k);
    DischargedSettled(g.env, fs, d);
    assert Body(fs', VRELOCABLE(pc)) == d;
    UnaryMeans(g, op, fs, k, fs', VRELOCABLE(pc));
    NoTailLists(fs', VRELOCABLE(pc));
  }

  /** Both operands' lists, before they are joined. */
  lemma LogicalLists(g1: Goal, fs1: FS, head1: int, l1: Lists, sense: bool, g2: Goal, fs: FS, e: ExpDesc, l2: Lists, l: Lists)
    requires Branches(g1, fs1, l1, sense) && Compiled(g2, fs, e, l2) && Follows(g1, fs1, g2)
    requires ListOk(fs1.code, head1, if sense then l1.f else l1.t) && (if sense then l1.t else l1.f) == []
    requires l == WithExits(l2, if sense then l1.f else l1.t, sense)
    ensures ListOk(fs.code, head1, if sense then l1.f else l1.t) && ListOk(fs.code, e.t, l2.t) && ListOk(fs.code, e.f, l2.f)
    ensures Both(l1, l2, l)
    ensures Apart(if sense then l2.f else l2.t, if sense then l1.f else l1.t)
    ensures Apart(if sense then l2.t else l2.f, if sense then l2.f else l2.t)
    ensures Apart(fs.here, if sense then l2.f else l2.t)
    ensures forall q :: On(if sense then l2.f else l2.t, q) ==> InLists(l, q)
  {
    hide FsOk, AllDecide, AllDeliver;
    var b := Body(fs, e.k);
    var left := if sense then l1.f else l1.t;
    var own := if sense then l2.f else l2.t;
    FollowsStart(g1, fs1, g2);
    BodyLists(fs, e, l2);
    HereKept(b, l2);
    forall q ensures On(own + left, q) <==> On(own, q) || On(left, q) { OnConcat(own, left, q); }
    forall q | On(left, q) ensures 0 <= q < |fs1.code| && q < |fs.code| && fs.code[q] == fs1.code[q] && !On(own, q) {
      assert InLists(l1, q);
      OwnJump(fs1, l1, q);
      assert Outer(fs1, q) && SameJump(fs1.code, b.code, q);
    }
    ListFrame(fs1.code, fs.code, head1, left);
  }

  lemma LogicalLinked(g: Goal, f0: FS, fs: FS, e: ExpDesc, head: int, sense: bool, l2: Lists, left: seq<int>, l: Lists)
    requires Means(g, f0, e.k, l) && fs == f0.(code := fs.code) && l == WithExits(l2, left, sense)
    requires Relinked(f0.code, fs.code, if sense then l2.f else l2.t) && ListOk(fs.code, head, (if sense then l2.f else l2.t) + left)
    requires ListOk(f0.code, e.t, l2.t) && ListOk(f0.code, e.f, l2.f)
    requires Apart(if sense then l2.t else l2.f, if sense then l2.f else l2.t) && Apart(f0.here, if sense then l2.f else l2.t)
    requires forall q :: On(if sense then l2.f else l2.t, q) ==> InLists(l, q)
    ensures Compiled(g, fs, if sense then e.(f := head) else e.(t := head), l)
    ensures forall base :: Fit(f0, e.k, base) ==> Fit(fs, e.k, base)
  {
    hide FsOk, AllDeliver, HereOk;
    var own := if sense then l2.f else l2.t;
    var b, b' := Body(f0, e.k), Body(fs, e.k);
    MeansParts(g, f0, e.k, l);
    forall q | On(own, q) ensures Pending(f0.pend, q) { OwnJump(b, l, q); }
    FsParts(b);
    HereTail(f0, fs, e.k, own);
    assert Relinks(f0, fs, own);
    RelinkMeans(g, f0, e.k, l, fs, own, l);
    RelinkBody(f0, e.k, l, fs, own);
    ListRelinked(f0.code, fs.code, if sense then e.t else e.f, if sense then l2.t else l2.f, own);
    MeansParts(g, fs, e.k, l);
    var e' := if sense then e.(f := head) else e.(t := head);
    ListsInBody(fs, e', l);
  }

  lemma HereTail(f0: FS, fs: FS, k: ExpKind, own: seq<int>)
    requires HereOk(Body(f0, k)) && TailLength(k) <= |f0.code| && fs == f0.(code := fs.code) && Relinked(f0.code, fs.code, own) && Apart(f0.here, own)
    ensures HereOk(Body(fs, k))
  {
    var b, b' := Body(f0, k), Body(fs, k);
    forall q | On(b.here, q) ensures 0 <= q < |b.code| && b'.code[q] == b.code[q] { ListMember(b.code, b.jpc, b.here, q); }
    ListFrame(b.code, b'.code, b.jpc, b.here);
  }

  /** Lists in the whole code whose jumps are pending in its body lie in the body. */
  lemma ListsInBody(fs: FS, e: ExpDesc, l: Lists)
    requires ListOk(fs.code, e.t, l.t) && ListOk(fs.code, e.f, l.f) && OwnLists(Body(fs, e.k), l) && FsOk(Body(fs, e.k))
    ensures ListsOk(Body(fs, e.k), e, l)
  {
    var b := Body(fs, e.k);
    forall q | On(l.t, q) || On(l.f, q) ensures 0 <= q < |b.code| && b.code[q] == fs.code[q] {
      assert InLists(l, q);
      OwnJump(b, l, q);
      PendingJump(b, q);
    }
    ListFrame(fs.code, b.code, e.t, l.t);
    ListFrame(fs.code, b.code, e.f, l.f);
  }

  lemma ConcatExtended(g1: Goal, fs1: FS, k1: ExpKind, g2: Goal, fs: FS, k: ExpKind, fs': FS)
    requires Means(g1, fs1, k1, NoLists) && Means(g2, fs, k, NoLists) && Follows(g1, fs1, g2)
    requires k.VRELOCABLE? && 0 <= k.info == |fs.code| - 1 && fs.code[k.info].CONCAT? && fs.code[k.info].b < fs.code[k.info].c
    requires k1.VNONRELOC? && 0 <= k1.info == fs.code[k.info].b - 1 && k1.info < g2.base
    requires fs' == fs.(code := fs.code[k.info := CONCAT(fs.code[k.info].a, k1.info, fs.code[k.info].c)])
    ensures Means(g1.(expr := Binary(OPR_CONCAT, g1.expr, g2.expr)), fs', k, NoLists)
  {
    hide FsOk, Pair, Follows;
    FollowsBase(g1, fs1, g2);
    PairOf(g1, fs1, k1, g2, fs, k);
    assert Body(fs', k) == Body(fs, k) by { assert fs'.code[..|fs.code| - 1] == fs.code[..|fs.code| - 1]; }
    SettledSelf(g1.env, Body(fs, k));
    BinaryMeans(g1, g1.expr, g2.expr, OPR_CONCAT, fs, k1, k, fs', k);
  }
}
