/** The state of the single-pass compiler (FuncState and expdesc, lparser.h:19-56) and what it
    means: the code emitted so far is a function from the registers at the start of the function
    to an outcome, and an expression descriptor says where in that outcome its value is. */
module CodeState {
  import opened Wrappers
  import opened LuaVM

  datatype ExpKind =
    | VNIL | VTRUE | VFALSE
    | VK(info: int) | VKNUM(nval: real)
    | VLOCAL(info: int) | VJMP(info: int) | VRELOCABLE(info: int) | VNONRELOC(info: int)

  /** `t` and `f` head the lists of jumps taken when the value is true and when it is false. */
  datatype ExpDesc = ExpDesc(k: ExpKind, t: int, f: int)

  /** The code part of FuncState. `h` finds the constants in `k`; `jpc` heads the list of jumps to
      the next instruction. The ghost fields are the jumps of that list and all pending jumps. */
  datatype FS = FS(code: Code, k: seq<Value>, h: map<Value, int>, jpc: int, lasttarget: int,
                   ghost here: seq<int>, ghost pend: set<int>)

  /** The jumps of an expression's two lists. */
  datatype Lists = Lists(t: seq<int>, f: seq<int>)

  /** The primitives' meaning and the number of parameters. */
  datatype Env = Env(sem: Semantics, params: nat)

  // ----- jump lists -----

  predicate InLists(l: Lists, q: int) { On(l.t, q) || On(l.f, q) }

  function At(l: seq<int>, i: int): int {
    if 0 <= i < |l| then l[i] else NO_JUMP
  }

  /** `getjump`: the list link in a pending jump's offset. */
  function GetJump(c: Code, q: int): int
    requires 0 <= q < |c| && c[q].JMP?
  {
    if c[q].sbx == NO_JUMP then NO_JUMP else q + 1 + c[q].sbx
  }

  ghost predicate LinkOk(c: Code, l: seq<int>, i: int)
    requires 0 <= i < |l|
  {
    && 0 <= l[i] < |c| && c[l[i]].JMP? && GetJump(c, l[i]) == At(l, i + 1)
  }

  /** `head` heads the list of the distinct jumps `l`. */
  ghost predicate ListOk(c: Code, head: int, l: seq<int>) {
    && head == At(l, 0)
    && NoDup(l)
    && (forall i :: 0 <= i < |l| ==> LinkOk(c, l, i))
  }

  ghost predicate Apart(a: seq<int>, b: seq<int>) {
    forall q :: On(a, q) ==> !On(b, q)
  }

  lemma ListMember(c: Code, head: int, l: seq<int>, q: int)
    requires ListOk(c, head, l) && On(l, q)
    ensures 0 <= q < |c| && c[q].JMP?
  {
    OnAt(l, q);
    var i :| 0 <= i < |l| && l[i] == q;
    assert LinkOk(c, l, i);
  }

  /** A list stays a list where its jumps stay. */
  lemma ListFrame(c: Code, c': Code, head: int, l: seq<int>)
    requires ListOk(c, head, l)
    requires forall q :: On(l, q) && 0 <= q < |c| ==> q < |c'| && c'[q] == c[q]
    ensures ListOk(c', head, l)
  {
    forall i | 0 <= i < |l| ensures LinkOk(c', l, i) {
      assert LinkOk(c, l, i);
      AtOn(l, i);
    }
  }

  /** The test that controls jump `q` is a TESTSET: the jump carries a value. */
  predicate Sets(c: Code, q: int) {
    0 < q <= |c| && c[q - 1].TESTSET?
  }

  /** `patchtestreg`. */
  function PatchTest(i: Instr, reg: int): Instr {
    if !i.TESTSET? then i
    else if reg != NO_REG && reg != i.b then TESTSET(reg, i.b, i.cond)
    else TEST(i.b, i.cond)
  }

  /** What `patchlistaux` does to each instruction: jumps controlled by a TESTSET go to `vtarget`
      and deliver into `reg`, other jumps of the list to `dtarget`; nothing else changes. */
  ghost predicate Patched(c: Code, c': Code, l: seq<int>, vtarget: int, reg: int, dtarget: int) {
    |c'| == |c| && forall q :: 0 <= q < |c| ==> PatchedAt(c, c', l, vtarget, reg, dtarget, q)
  }

  ghost predicate PatchedAt(c: Code, c': Code, l: seq<int>, vtarget: int, reg: int, dtarget: int, q: int)
    requires |c'| == |c| && 0 <= q < |c|
  {
    if On(l, q) then c'[q] == JMP((if Sets(c, q) then vtarget else dtarget) - (q + 1))
    else if On(l, q + 1) then c'[q] == PatchTest(c[q], reg)
    else c'[q] == c[q]
  }

  // ----- the invariant of the emitted code -----

  ghost predicate ConstantsOk(fs: FS) {
    forall v :: v in fs.h ==> 0 <= fs.h[v] < |fs.k| && fs.k[fs.h[v]] == v
  }

  ghost predicate HereOk(fs: FS) {
    && ListOk(fs.code, fs.jpc, fs.here)
    && (forall q :: On(fs.here, q) ==> Pending(fs.pend, q))
    && (fs.here != [] ==> fs.lasttarget == |fs.code|)
  }

  ghost predicate FsOk(fs: FS) {
    && CodeOk(|fs.k|, fs.code, fs.pend, fs.lasttarget)
    && Entry(fs.code, |fs.code|)
    && ConstantsOk(fs)
    && HereOk(fs)
  }

  /** A pending jump of some expression under way. */
  ghost predicate Outer(fs: FS, q: int) {
    Pending(fs.pend, q) && !On(fs.here, q)
  }

  function Settle(here: seq<int>, o: Outcome): Outcome {
    if o.Exit? && On(here, o.j) then Fall(o.regs) else o
  }

  /** The outcome of the code so far, the jumps to the next instruction falling through. */
  ghost function Out(env: Env, fs: FS, regs: Regs): Outcome {
    Settle(fs.here, Run(env.sem, fs.k, fs.code, fs.pend, 0, regs))
  }

  /** At the start of the function only the parameters are set. */
  predicate Clean(env: Env, regs: Regs) {
    forall r :: r in regs ==> 0 <= r < env.params
  }

  /** What the code emitted between `fs` and `fs'` leaves alone: pending jumps of others, and
      constants. The jumps of `l` are the new ones. */
  ghost predicate Frame(fs: FS, fs': FS, l: Lists) {
    && |fs.code| <= |fs'.code|
    && fs.k <= fs'.k
    && (forall q :: Outer(fs, q) ==> Outer(fs', q) && !InLists(l, q) && SameJump(fs.code, fs'.code, q))
    && (forall q :: Outer(fs', q) ==> Outer(fs, q) || InLists(l, q))
  }

  const NoLists := Lists([], [])

  /** Jump `q` and the test that controls it, if any. */
  predicate SameJump(c: Code, c': Code, q: int) {
    && 0 <= q < |c| && q < |c'| && c'[q] == c[q]
    && (q > 0 ==> c'[q - 1] == c[q - 1] || (!IsTest(c[q - 1]) && !IsTest(c'[q - 1])))
  }

  // ----- what patching does to the meaning -----

  lemma CodePatched(nk: nat, c: Code, pend: set<int>, lim: int, c': Code, pend': set<int>, lim': int)
    requires CodeOk(nk, c, pend, lim) && Patches(c, pend, c', pend') && lim <= lim' <= |c|
    requires forall q :: 0 <= q < |c'| && Pending(pend, q) && !Pending(pend', q) && c'[q].JMP? ==> Target(c', q) <= lim'
    ensures CodeOk(nk, c', pend', lim')
  {
    forall q | 0 <= q < |c| ensures InstrOk(nk, c', pend', lim', q) {
      assert InstrOk(nk, c, pend, lim, q) && PatchesAt(c, pend, c', pend', q);
      if IsTest(c[q]) {
        assert PatchesAt(c, pend, c', pend', q + 1);
      }
      if c[q].JMP? && !Pending(pend, q) {
        EntryPatched(c, pend, c', pend', Target(c, q));
      }
      if c[q].LOADBOOL? && c[q].skip {
        EntryPatched(c, pend, c', pend', q + 2);
      }
    }
    forall q | Pending(pend', q) ensures 0 <= q < |c'| && c'[q].JMP? {
      assert PatchesAt(c, pend, c', pend', q);
    }
  }

  lemma EntryPatched(c: Code, pend: set<int>, c': Code, pend': set<int>, pc: int)
    requires Patches(c, pend, c', pend')
    ensures Entry(c', pc) == Entry(c, pc)
  {
    if 0 < pc <= |c| { assert PatchesAt(c, pend, c', pend', pc - 1); }
  }

  /** Relinking pending jumps and dropping the registers of pending tests changes no outcome. */
  lemma OutRelinked(env: Env, fs: FS, fs': FS, regs: Regs)
    requires FsOk(fs) && Patches(fs.code, fs.pend, fs'.code, fs'.pend) && fs'.pend == fs.pend && fs'.k == fs.k
    requires forall q :: On(fs'.here, q) == On(fs.here, q)
    ensures Out(env, fs', regs) == Out(env, fs, regs)
  {
    RunPatched(env.sem, fs.k, fs.code, fs.pend, fs.lasttarget, fs'.code, fs'.pend, 0, regs);
  }

  /** `dischargejpc`: sending the jumps of `jpc` to the next instruction. */
  ghost predicate Discharged(fs: FS, fs': FS) {
    && Patched(fs.code, fs'.code, fs.here, |fs.code|, NO_REG, |fs.code|)
    && fs' == fs.(code := fs'.code, jpc := NO_JUMP, here := [], pend := fs'.pend)
    && (forall q :: Pending(fs'.pend, q) <==> Outer(fs, q))
  }

  lemma DischargePatches(fs: FS, fs': FS)
    requires FsOk(fs) && Discharged(fs, fs')
    ensures Patches(fs.code, fs.pend, fs'.code, fs'.pend)
    ensures forall q :: On(fs.here, q) ==> !Sets(fs'.code, q) && 0 <= q < |fs'.code| && fs'.code[q] == JMP(|fs.code| - (q + 1))
  {
    var n := |fs.code|;
    if n > 0 { assert PatchedAt(fs.code, fs'.code, fs.here, n, NO_REG, n, n - 1); }
    forall q | 0 <= q < n ensures PatchesAt(fs.code, fs.pend, fs'.code, fs'.pend, q) {
      assert PatchedAt(fs.code, fs'.code, fs.here, n, NO_REG, n, q) && InstrOk(|fs.k|, fs.code, fs.pend, fs.lasttarget, q);
    }
    forall q | On(fs.here, q) ensures !Sets(fs'.code, q) && 0 <= q < n && fs'.code[q] == JMP(n - (q + 1)) {
      assert PatchedAt(fs.code, fs'.code, fs.here, n, NO_REG, n, q);
      if q > 0 {
        assert PatchedAt(fs.code, fs'.code, fs.here, n, NO_REG, n, q - 1);
        assert InstrOk(|fs.k|, fs.code, fs.pend, fs.lasttarget, q - 1);
      }
    }
  }

  lemma DischargeOk(env: Env, fs: FS, fs': FS)
    requires FsOk(fs) && Discharged(fs, fs')
    ensures FsOk(fs') && fs'.here == [] && Frame(fs, fs', NoLists)
    ensures forall regs :: Out(env, fs', regs) == Out(env, fs, regs)
  {
    DischargePatches(fs, fs');
    CodePatched(|fs.k|, fs.code, fs.pend, fs.lasttarget, fs'.code, fs'.pend, fs.lasttarget);
    EntryPatched(fs.code, fs.pend, fs'.code, fs'.pend, |fs.code|);
    forall regs ensures Out(env, fs', regs) == Out(env, fs, regs) {
      RunPatched(env.sem, fs.k, fs.code, fs.pend, fs.lasttarget, fs'.code, fs'.pend, 0, regs);
    }
    forall q | Outer(fs, q) ensures SameJump(fs.code, fs'.code, q) {
      OuterUntouched(fs, fs', q);
    }
  }

  lemma OuterUntouched(fs: FS, fs': FS, q: int)
    requires FsOk(fs) && Discharged(fs, fs') && Outer(fs, q)
    ensures SameJump(fs.code, fs'.code, q)
  {
    var n := |fs.code|;
    assert PatchedAt(fs.code, fs'.code, fs.here, n, NO_REG, n, q);
    assert InstrOk(|fs.k|, fs.code, fs.pend, fs.lasttarget, q);
    if q > 0 {
      assert PatchedAt(fs.code, fs'.code, fs.here, n, NO_REG, n, q - 1);
      assert InstrOk(|fs.k|, fs.code, fs.pend, fs.lasttarget, q - 1);
    }
  }
}
