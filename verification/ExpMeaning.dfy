/** What an expression descriptor promises about the code emitted for it, and how each kind of
    emission and patch carries that promise on. */
module ExpMeaning {
  import opened Wrappers
  import opened LuaVM
  import Expressions
  import opened CodeState

  // ----- descriptors whose last instructions are still to be completed -----

  /** A VRELOCABLE waits for its target register, a VJMP for its list. */
  function TailLength(k: ExpKind): nat {
    match k
    case VRELOCABLE(_) => 1
    case VJMP(_) => 2
    case _ => 0
  }

  ghost function Prefix(fs: FS, n: int): FS
    requires 0 <= n <= |fs.code|
  {
    fs.(code := fs.code[..n])
  }

  /** The code before the unfinished instructions. */
  ghost function Body(fs: FS, k: ExpKind): FS {
    if TailLength(k) <= |fs.code| then Prefix(fs, |fs.code| - TailLength(k)) else fs
  }

  ghost predicate TailOk(fs: FS, k: ExpKind) {
    match k
    case VRELOCABLE(i) =>
      0 <= i == |fs.code| - 1 && IsValue(fs.code[i]) && OperandsOk(fs.code[i], |fs.k|) && fs.here == []
    case VJMP(i) =>
      1 <= i == |fs.code| - 1 && fs.code[i] == JMP(NO_JUMP) && fs.code[i - 1].COMPARE? &&
      OperandsOk(fs.code[i - 1], |fs.k|) && fs.here == []
    case VK(i) => 0 <= i < |fs.k|
    case _ => true
  }

  ghost predicate Ready(fs: FS, k: ExpKind) {
    TailOk(fs, k) && FsOk(Body(fs, k))
  }

  /** The value of a descriptor without jumps, when the body of its code has left `regs`. */
  function KindValue(env: Env, c: Code, ks: seq<Value>, k: ExpKind, regs: Regs): Option<Value> {
    match k
    case VNIL => Some(Nil)
    case VTRUE => Some(Bool(true))
    case VFALSE => Some(Bool(false))
    case VK(i) => Some(Const(ks, i))
    case VKNUM(n) => Some(Number(n))
    case VLOCAL(r) => Some(Get(regs, r))
    case VNONRELOC(r) => Some(Get(regs, r))
    case VRELOCABLE(i) => if 0 <= i < |c| && IsValue(c[i]) then InstrValue(env.sem, ks, c[i], regs) else None
    case VJMP(i) =>
      if 0 < i <= |c| && c[i - 1].COMPARE? then
        (match Taken(env.sem, ks, c[i - 1], regs)
         case None => None
         case Some(b) => Some(Bool(b)))
      else None
  }

  // ----- the promise -----

  /** What is being compiled: expression `expr`, starting in `start` with `base` registers in use;
      `dest` is the only one of those that may change. */
  datatype Goal = Goal(env: Env, base: int, dest: int, start: FS, expr: Expressions.Expr)

  ghost predicate Agree(g: Goal, regs: Regs, regs': Regs) {
    forall r :: 0 <= r < g.base && r != g.dest ==> Get(regs', r) == Get(regs, r)
  }

  /** Jump `j` of list `l.t` or `l.f` is taken on the truth of `v`, and `v` is in the register
      that its TESTSET would copy, or is the boolean itself. */
  predicate Carries(c: Code, l: Lists, j: int, regs: Regs, v: Value) {
    && InLists(l, j) && Truthy(v) == On(l.t, j)
    && (if Sets(c, j) then Get(regs, c[j - 1].b) == v else v == Bool(On(l.t, j)))
  }

  /** From `o` before to `o'` after: the value is in `k`, or was carried off by a jump. */
  ghost predicate Delivers(g: Goal, o: Outcome, o': Outcome, c: Code, ks: seq<Value>, k: ExpKind, l: Lists) {
    if !o.Fall? then o' == o
    else
      var v := Expressions.Eval(g.env.sem, g.expr, o.regs);
      match o'
      case Fall(regs) => Agree(g, o.regs, regs) && KindValue(g.env, c, ks, k, regs) == v
      case Exit(j, regs) => Agree(g, o.regs, regs) && v.Some? && Carries(c, l, j, regs, v.value)
      case Error => v == None
      case _ => false
  }

  /** As `Delivers`, but falling through says only that the value is true (or false). */
  ghost predicate Decides(g: Goal, o: Outcome, o': Outcome, c: Code, l: Lists, sense: bool) {
    if !o.Fall? then o' == o
    else
      var v := Expressions.Eval(g.env.sem, g.expr, o.regs);
      match o'
      case Fall(regs) => Agree(g, o.regs, regs) && v.Some? && Truthy(v.value) == sense
      case Exit(j, regs) => Agree(g, o.regs, regs) && v.Some? && Carries(c, l, j, regs, v.value)
      case Error => v == None
      case _ => false
  }

  ghost predicate ListsOk(fs: FS, e: ExpDesc, l: Lists) {
    && ListOk(fs.code, e.t, l.t) && ListOk(fs.code, e.f, l.f) && OwnLists(fs, l)
  }

  ghost predicate OwnLists(fs: FS, l: Lists) {
    && (forall q :: InLists(l, q) ==> Outer(fs, q))
    && Apart(l.t, l.f)
  }

  ghost predicate AllDeliver(g: Goal, fs: FS, k: ExpKind, l: Lists) {
    forall regs :: Clean(g.env, regs) ==>
      Delivers(g, Out(g.env, g.start, regs), Out(g.env, Body(fs, k), regs), fs.code, fs.k, k, l)
  }

  ghost predicate AllDecide(g: Goal, fs: FS, l: Lists, sense: bool) {
    forall regs :: Clean(g.env, regs) ==>
      Decides(g, Out(g.env, g.start, regs), Out(g.env, fs, regs), fs.code, l, sense)
  }

  /** `k` with the jumps `l` is the value of the goal's expression. */
  ghost predicate Means(g: Goal, fs: FS, k: ExpKind, l: Lists) {
    Ready(fs, k) && OwnLists(Body(fs, k), l) && Frame(g.start, Body(fs, k), l) && AllDeliver(g, fs, k, l)
  }

  ghost predicate Compiled(g: Goal, fs: FS, e: ExpDesc, l: Lists) {
    Means(g, fs, e.k, l) && ListsOk(Body(fs, e.k), e, l)
  }

  /** The code falls through when the expression is `sense`, and leaves by `l` otherwise. */
  ghost predicate Branches(g: Goal, fs: FS, l: Lists, sense: bool) {
    FsOk(fs) && OwnLists(fs, l) && Frame(g.start, fs, l) && AllDecide(g, fs, l, sense)
  }

  // ----- framing -----

  lemma FrameTransitive(a: FS, b: FS, c: FS, l: Lists, l': Lists, both: Lists)
    requires Frame(a, b, l) && Frame(b, c, l')
    requires forall q :: InLists(l, q) ==> Outer(b, q)
    requires forall q :: InLists(both, q) <==> InLists(l, q) || InLists(l', q)
    ensures Frame(a, c, both)
  {
    forall q | Outer(a, q) ensures Outer(c, q) && !InLists(both, q) && SameJump(a.code, c.code, q) {
      assert Outer(b, q) && Outer(c, q);
    }
  }

  lemma NoListsEmpty()
    ensures forall q :: !InLists(NoLists, q)
  {
  }

  /** Lists outlive code that frames them. */
  lemma OwnFramed(a: FS, b: FS, l: Lists)
    requires OwnLists(a, l) && Frame(a, b, NoLists)
    ensures OwnLists(b, l)
    ensures forall q :: InLists(l, q) ==> SameJump(a.code, b.code, q)
  {
  }

  lemma CarriesFramed(c: Code, c': Code, l: Lists, j: int, regs: Regs, v: Value)
    requires Carries(c, l, j, regs, v) && SameJump(c, c', j)
    ensures Carries(c', l, j, regs, v)
  {
  }

  lemma ListsFramed(a: FS, b: FS, e: ExpDesc, l: Lists)
    requires ListsOk(a, e, l) && Frame(a, b, NoLists)
    ensures ListsOk(b, e, l)
  {
    OwnFramed(a, b, l);
    forall q | On(l.t, q) || On(l.f, q) ensures 0 <= q < |b.code| && q < |a.code| && b.code[q] == a.code[q] {
      assert InLists(l, q);
    }
    ListFrame(a.code, b.code, e.t, l.t);
    ListFrame(a.code, b.code, e.f, l.f);
  }

  // ----- appending -----

  ghost function Plus(fs: FS, i: Instr): FS { fs.(code := fs.code + [i]) }

  /** One more instruction that always goes on to the next. */
  lemma CodePlus(fs: FS, i: Instr)
    requires FsOk(fs) && fs.here == [] && OperandsOk(i, |fs.k|) && (IsValue(i) || i.LOADNIL?)
    ensures FsOk(Plus(fs, i)) && Frame(fs, Plus(fs, i), NoLists)
  {
    var fs' := Plus(fs, i);
    forall q | 0 <= q < |fs'.code| ensures InstrOk(|fs.k|, fs'.code, fs.pend, fs.lasttarget, q) {
      if q < |fs.code| {
        assert InstrOk(|fs.k|, fs.code, fs.pend, fs.lasttarget, q);
      } else {
        assert !Pending(fs.pend, q);
      }
    }
    ListFrame(fs.code, fs'.code, fs.jpc, fs.here);
  }

  lemma OutPlus(env: Env, fs: FS, i: Instr, regs: Regs)
    requires FsOk(fs) && fs.here == [] && (IsValue(i) || i.LOADNIL?)
    ensures var o := Out(env, fs, regs);
            Out(env, Plus(fs, i), regs) ==
              if !o.Fall? then o
              else if i.LOADNIL? then Fall(SetNil(o.regs, i.a, i.b))
              else if InstrValue(env.sem, fs.k, i, o.regs).None? then Error
              else Fall(o.regs[i.a := InstrValue(env.sem, fs.k, i, o.regs).value])
  {
    RunAppend(env.sem, fs.k, fs.code, fs.pend, fs.lasttarget, [i], fs.pend, 0, regs);
    var o := Run(env.sem, fs.k, fs.code, fs.pend, 0, regs);
    if o.Fall? { RunLast(env.sem, fs.k, fs.code, i, fs.pend, o.regs); }
  }

  lemma RunLast(sem: Semantics, k: seq<Value>, c: Code, i: Instr, pend: set<int>, regs: Regs)
    requires IsValue(i) || i.LOADNIL?
    ensures Run(sem, k, c + [i], pend, |c|, regs) ==
            if i.LOADNIL? then Fall(SetNil(regs, i.a, i.b))
            else if InstrValue(sem, k, i, regs).None? then Error
            else Fall(regs[i.a := InstrValue(sem, k, i, regs).value])
  {
  }

  /** A test and its jump. */
  ghost function PlusTest(fs: FS, i: Instr): FS {
    fs.(code := fs.code + [i, JMP(NO_JUMP)], pend := fs.pend + {|fs.code| + 1})
  }

  lemma PlusTestPending(fs: FS, i: Instr, q: int)
    ensures Pending(PlusTest(fs, i).pend, q) <==> Pending(fs.pend, q) || q == |fs.code| + 1
  {
  }

  lemma CodePlusTest(fs: FS, i: Instr, l: Lists)
    requires FsOk(fs) && fs.here == [] && OperandsOk(i, |fs.k|) && IsTest(i)
    requires forall q :: InLists(l, q) <==> q == |fs.code| + 1
    ensures FsOk(PlusTest(fs, i)) && Frame(fs, PlusTest(fs, i), l)
  {
    var fs' := PlusTest(fs, i);
    forall q ensures Pending(fs'.pend, q) <==> Pending(fs.pend, q) || q == |fs.code| + 1 { PlusTestPending(fs, i, q); }
    forall q | 0 <= q < |fs'.code| ensures InstrOk(|fs.k|, fs'.code, fs'.pend, fs.lasttarget, q) {
      if q < |fs.code| {
        assert InstrOk(|fs.k|, fs.code, fs.pend, fs.lasttarget, q);
      }
    }
    ListFrame(fs.code, fs'.code, fs.jpc, fs.here);
  }

  lemma OutPlusTest(env: Env, fs: FS, i: Instr, regs: Regs)
    requires FsOk(fs) && fs.here == [] && IsTest(i)
    ensures var o := Out(env, fs, regs);
            Out(env, PlusTest(fs, i), regs) ==
              if !o.Fall? then o
              else if Taken(env.sem, fs.k, i, o.regs).None? then Error
              else if Taken(env.sem, fs.k, i, o.regs).value then Exit(|fs.code| + 1, o.regs)
              else Fall(o.regs)
  {
    var fs' := PlusTest(fs, i);
    forall q ensures Pending(fs'.pend, q) <==> Pending(fs.pend, q) || q == |fs.code| + 1 { PlusTestPending(fs, i, q); }
    RunAppend(env.sem, fs.k, fs.code, fs.pend, fs.lasttarget, [i, JMP(NO_JUMP)], fs'.pend, 0, regs);
  }
}
