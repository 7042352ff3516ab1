/** Putting two operands together (luaK_posfix, codearith and codecomp, lcode.c). */
module ExpOperators {
  import opened Wrappers
  import opened LuaVM
  import opened Expressions
  import opened CodeState
  import opened ExpMeaning
  import opened ExpValues
  import ExpJumps

  // ----- and, or -----

  function Logical(sense: bool): BinOpr { if sense then OPR_AND else OPR_OR }

  /** The jumps of both operands. */
  ghost predicate Both(l1: Lists, l2: Lists, l: Lists) {
    && (forall q :: On(l.t, q) <==> On(l1.t, q) || On(l2.t, q))
    && (forall q :: On(l.f, q) <==> On(l1.f, q) || On(l2.f, q))
  }

  /** The right operand starts where the left one has fallen through. */
  ghost predicate Follows(g1: Goal, fs1: FS, g2: Goal) {
    g2.env == g1.env && g2.start == fs1 && g2.base >= g1.base && g2.dest == g1.dest == -1 && Scoped(g2.expr, g1.base)
  }

  lemma EvalAfter(g1: Goal, fs1: FS, g2: Goal, a: Regs, b: Regs)
    requires Follows(g1, fs1, g2) && Agree(g1, a, b)
    ensures Eval(g2.env.sem, g2.expr, b) == Eval(g1.env.sem, g2.expr, a)
  {
    EvalAgrees(g1.env.sem, g2.expr, g1.base, a, b);
  }

  lemma LogicalMeans(g1: Goal, fs1: FS, l1: Lists, sense: bool, g2: Goal, fs: FS, k: ExpKind, l2: Lists, l: Lists)
    requires Branches(g1, fs1, l1, sense) && Means(g2, fs, k, l2) && Follows(g1, fs1, g2) && Both(l1, l2, l)
    requires (if sense then l1.t else l1.f) == []
    ensures Means(g1.(expr := Binary(Logical(sense), g1.expr, g2.expr)), fs, k, l)
  {
    hide FsOk, KindValue, Follows;
    var g := g1.(expr := Binary(Logical(sense), g1.expr, g2.expr));
    var b := Body(fs, k);
    assert g2.start == fs1 && g2.env == g1.env by { FollowsStart(g1, fs1, g2); }
    FrameTransitive(g1.start, fs1, b, l1, l2, l);
    BothOwn(fs1, l1, b, l2, l);
    forall regs | Clean(g.env, regs)
      ensures Delivers(g, Out(g.env, g.start, regs), Out(g.env, b, regs), fs.code, fs.k, k, l)
    {
      assert Decides(g1, Out(g.env, g.start, regs), Out(g.env, fs1, regs), fs1.code, l1, sense);
      assert Delivers(g2, Out(g.env, fs1, regs), Out(g.env, b, regs), fs.code, fs.k, k, l2);
      LogicalDelivers(g1, fs1, l1, sense, g2, fs, k, l2, l,
                      Out(g.env, g.start, regs), Out(g.env, fs1, regs), Out(g.env, b, regs));
    }
  }

  lemma FollowsStart(g1: Goal, fs1: FS, g2: Goal)
    requires Follows(g1, fs1, g2)
    ensures g2.start == fs1 && g2.env == g1.env
  {
  }

  lemma BothOwn(fs1: FS, l1: Lists, b: FS, l2: Lists, l: Lists)
    requires OwnLists(fs1, l1) && OwnLists(b, l2) && Frame(fs1, b, l2) && Both(l1, l2, l)
    ensures OwnLists(b, l)
    ensures forall q :: InLists(l1, q) ==> !InLists(l2, q) && SameJump(fs1.code, b.code, q)
  {
    forall q | InLists(l1, q) ensures Outer(b, q) && !InLists(l2, q) && SameJump(fs1.code, b.code, q) { assert Outer(fs1, q); }
    forall q | InLists(l, q) ensures Outer(b, q) { assert InLists(l1, q) || InLists(l2, q); }
    forall q | On(l.t, q) ensures !On(l.f, q) {
      if InLists(l1, q) { } else { assert On(l2.t, q); }
    }
  }

  lemma LogicalDelivers(g1: Goal, fs1: FS, l1: Lists, sense: bool, g2: Goal, fs: FS, k: ExpKind, l2: Lists, l: Lists,
                        o: Outcome, o1: Outcome, o2: Outcome)
    requires Decides(g1, o, o1, fs1.code, l1, sense) && Delivers(g2, o1, o2, fs.code, fs.k, k, l2) && Follows(g1, fs1, g2)
    requires Both(l1, l2, l)
    requires forall q :: InLists(l1, q) ==> !InLists(l2, q) && SameJump(fs1.code, Body(fs, k).code, q)
    requires (if sense then l1.t else l1.f) == []
    ensures Delivers(g1.(expr := Binary(Logical(sense), g1.expr, g2.expr)), o, o2, fs.code, fs.k, k, l)
  {
    hide KindValue, Follows;
    FollowsStart(g1, fs1, g2);
    if o.Fall? {
      if o1.Fall? {
        EvalAfter(g1, fs1, g2, o.regs, o1.regs);
        if o2.Fall? || o2.Exit? { FollowsAgree(g1, fs1, g2, o.regs, o1.regs, o2.regs); }
        if o2.Exit? { assert InLists(l2, o2.j) && !InLists(l1, o2.j); }
      } else if o1.Exit? {
        var v := Eval(g1.env.sem, g1.expr, o.regs);
        assert InLists(l1, o1.j) && !InLists(l2, o1.j);
        CarriesUp(fs1.code, fs, k, l1, l, o1.j, o1.regs, v.value);
      }
    }
  }

  lemma CarriesUp(c: Code, fs: FS, k: ExpKind, l: Lists, l': Lists, j: int, regs: Regs, v: Value)
    requires Carries(c, l, j, regs, v) && SameJump(c, Body(fs, k).code, j)
    requires On(l'.t, j) == On(l.t, j) && On(l'.f, j) == On(l.f, j)
    ensures Carries(fs.code, l', j, regs, v)
  {
  }

  lemma FollowsAgree(g1: Goal, fs1: FS, g2: Goal, a: Regs, b: Regs, c: Regs)
    requires Follows(g1, fs1, g2) && Agree(g1, a, b) && Agree(g2, b, c)
    ensures Agree(g1, a, c)
  {
  }

  // ----- two values -----

  /** Both values are found where the code falls through. */
  ghost predicate PairAt(g: Goal, e1: Expr, e2: Expr, o: Outcome, o': Outcome, c: Code, ks: seq<Value>, k1: ExpKind, k2: ExpKind) {
    if !o.Fall? then o' == o
    else
      match o'
      case Fall(regs) =>
        && Agree(g, o.regs, regs)
        && KindValue(g.env, c, ks, k1, regs) == Eval(g.env.sem, e1, o.regs)
        && KindValue(g.env, c, ks, k2, regs) == Eval(g.env.sem, e2, o.regs)
      case Error => Eval(g.env.sem, e1, o.regs) == None || Eval(g.env.sem, e2, o.regs) == None
      case _ => false
  }

  ghost predicate Pair(g: Goal, e1: Expr, e2: Expr, fs: FS, k1: ExpKind, k2: ExpKind) {
    && Ready(fs, k2) && TailOk(fs, k1) && TailLength(k1) == 0 && Frame(g.start, Body(fs, k2), NoLists)
    && (forall regs :: Clean(g.env, regs) ==>
          PairAt(g, e1, e2, Out(g.env, g.start, regs), Out(g.env, Body(fs, k2), regs), fs.code, fs.k, k1, k2))
  }

  /** A descriptor that code emitted later leaves alone. */
  predicate Stable(k: ExpKind, base: int) {
    k.VKNUM? || k.VK? || (k.VNONRELOC? && k.info < base)
  }

  lemma StableValue(env: Env, k: ExpKind, g: Goal, fs1: FS, fs2: FS, a: Regs, b: Regs)
    requires Stable(k, g.base) && TailOk(fs1, k) && fs1.k <= fs2.k && g.dest == -1 && Agree(g, a, b)
    ensures KindValue(env, fs2.code, fs2.k, k, b) == KindValue(env, fs1.code, fs1.k, k, a)
    ensures TailOk(fs2, k)
    requires k.VNONRELOC? ==> k.info >= 0
  {
  }

  lemma PairOf(g1: Goal, fs1: FS, k1: ExpKind, g2: Goal, fs2: FS, k2: ExpKind)
    requires Means(g1, fs1, k1, NoLists) && Means(g2, fs2, k2, NoLists) && Follows(g1, fs1, g2)
    requires Stable(k1, g2.base) && (k1.VNONRELOC? ==> k1.info >= 0)
    ensures Pair(g1, g1.expr, g2.expr, fs2, k1, k2)
  {
    hide FsOk, KindValue, Follows, Stable;
    FollowsStart(g1, fs1, g2);
    FollowsDest(g1, fs1, g2);
    StableBody(fs1, k1, g2.base);
    var b := Body(fs2, k2);
    FrameStep(g1.start, fs1, b);
    StableTail(k1, g2.base, fs1, fs2);
    forall regs | Clean(g1.env, regs)
      ensures PairAt(g1, g1.expr, g2.expr, Out(g1.env, g1.start, regs), Out(g1.env, b, regs), fs2.code, fs2.k, k1, k2)
    {
      var o, o1, o2 := Out(g1.env, g1.start, regs), Out(g1.env, fs1, regs), Out(g1.env, b, regs);
      assert Delivers(g1, o, o1, fs1.code, fs1.k, k1, NoLists);
      assert Delivers(g2, o1, o2, fs2.code, fs2.k, k2, NoLists);
      if o.Fall? && o1.Fall? {
        EvalAfter(g1, fs1, g2, o.regs, o1.regs);
        if o2.Fall? {
          FollowsAgree(g1, fs1, g2, o.regs, o1.regs, o2.regs);
          StableValue(g1.env, k1, g2, fs1, fs2, o1.regs, o2.regs);
        }
      }
    }
  }

  lemma FollowsDest(g1: Goal, fs1: FS, g2: Goal)
    requires Follows(g1, fs1, g2)
    ensures g2.dest == g1.dest == -1
  {
  }

  lemma StableBody(fs: FS, k: ExpKind, base: int)
    requires Stable(k, base)
    ensures Body(fs, k) == fs && TailLength(k) == 0
  {
    BodySame(fs, k);
  }

  lemma StableTail(k: ExpKind, base: int, fs1: FS, fs2: FS)
    requires Stable(k, base) && TailOk(fs1, k) && fs1.k <= fs2.k
    ensures TailOk(fs2, k)
  {
  }

  /** A left operand that is a number is found in a register or constant after the right one. */
  lemma PairLate(g: Goal, e1: Expr, e2: Expr, fs2: FS, n: real, k2: ExpKind, g3: Goal, fs3: FS, k3: ExpKind)
    requires Pair(g, e1, e2, fs2, VKNUM(n), k2) && Means(g3, fs3, k3, NoLists) && Follows(g, fs2, g3)
    requires g3.expr == Constant(Number(n)) && TailLength(k3) == 0
    requires Stable(k2, g3.base) && (k2.VNONRELOC? ==> k2.info >= 0)
    ensures Pair(g, e1, e2, fs3, k3, k2)
  {
    hide FsOk, Follows, Stable, PairAt, Delivers;
    FollowsStart(g, fs2, g3);
    StableBody(fs2, k2, g3.base);
    BodySame(fs3, k3);
    BodySame(fs3, k2);
    FrameStep(g.start, fs2, fs3);
    StableTail(k2, g3.base, fs2, fs3);
    forall regs | Clean(g.env, regs)
      ensures PairAt(g, e1, e2, Out(g.env, g.start, regs), Out(g.env, fs3, regs), fs3.code, fs3.k, k3, k2)
    {
      var o, o1, o2 := Out(g.env, g.start, regs), Out(g.env, fs2, regs), Out(g.env, fs3, regs);
      assert PairAt(g, e1, e2, o, o1, fs2.code, fs2.k, VKNUM(n), k2);
      assert Delivers(g3, o1, o2, fs3.code, fs3.k, k3, NoLists);
      LatePair(g, e1, e2, fs2, n, k2, g3, fs3, k3, o, o1, o2);
    }
  }

  lemma LatePair(g: Goal, e1: Expr, e2: Expr, fs2: FS, n: real, k2: ExpKind, g3: Goal, fs3: FS, k3: ExpKind,
                 o: Outcome, o1: Outcome, o2: Outcome)
    requires PairAt(g, e1, e2, o, o1, fs2.code, fs2.k, VKNUM(n), k2) && Delivers(g3, o1, o2, fs3.code, fs3.k, k3, NoLists)
    requires Follows(g, fs2, g3) && g3.expr == Constant(Number(n)) && fs2.k <= fs3.k && TailOk(fs2, k2)
    requires Stable(k2, g3.base) && (k2.VNONRELOC? ==> k2.info >= 0)
    ensures PairAt(g, e1, e2, o, o2, fs3.code, fs3.k, k3, k2)
  {
    hide Follows, Stable;
    FollowsStart(g, fs2, g3);
    FollowsDest(g, fs2, g3);
    NoListsEmpty();
    if o.Fall? && o1.Fall? && o2.Fall? {
      FollowsAgree(g, fs2, g3, o.regs, o1.regs, o2.regs);
      StableValue(g.env, k2, g3, fs2, fs3, o1.regs, o2.regs);
    }
  }

  /** An operator on two found values. */
  function Combine(sem: Semantics, op: BinOpr, v: Option<Value>, w: Option<Value>): Option<Value>
    requires !op.OPR_AND? && !op.OPR_OR?
  {
    if v.Some? && w.Some? then Apply(sem, op, v.value, w.value) else None
  }

  lemma BinaryMeans(g: Goal, e1: Expr, e2: Expr, op: BinOpr, fs: FS, k1: ExpKind, k2: ExpKind, fs': FS, k': ExpKind)
    requires Pair(g, e1, e2, fs, k1, k2) && !op.OPR_AND? && !op.OPR_OR?
    requires Ready(fs', k') && ExpJumps.Settled(g.env, Body(fs, k2), Body(fs', k'))
    requires forall regs ::
               KindValue(g.env, fs'.code, fs'.k, k', regs) ==
               Combine(g.env.sem, op, KindValue(g.env, fs.code, fs.k, k1, regs), KindValue(g.env, fs.code, fs.k, k2, regs))
    ensures Means(g.(expr := Binary(op, e1, e2)), fs', k', NoLists)
  {
    hide FsOk, KindValue, Combine, Delivers, PairAt, Eval;
    var g' := g.(expr := Binary(op, e1, e2));
    NoListsEmpty();
    FrameStep(g.start, Body(fs, k2), Body(fs', k'));
    forall regs | Clean(g.env, regs)
      ensures Delivers(g', Out(g.env, g.start, regs), Out(g.env, Body(fs', k'), regs), fs'.code, fs'.k, k', NoLists)
    {
      var o, o1 := Out(g.env, g.start, regs), Out(g.env, Body(fs, k2), regs);
      assert PairAt(g, e1, e2, o, o1, fs.code, fs.k, k1, k2);
      BinaryDelivers(g, e1, e2, op, o, o1, fs, k1, k2, fs', k');
    }
  }

  lemma BinaryDelivers(g: Goal, e1: Expr, e2: Expr, op: BinOpr, o: Outcome, o1: Outcome, fs: FS, k1: ExpKind, k2: ExpKind,
                       fs': FS, k': ExpKind)
    requires PairAt(g, e1, e2, o, o1, fs.code, fs.k, k1, k2) && !op.OPR_AND? && !op.OPR_OR?
    requires o1.Fall? ==>
               KindValue(g.env, fs'.code, fs'.k, k', o1.regs) ==
               Combine(g.env.sem, op, KindValue(g.env, fs.code, fs.k, k1, o1.regs), KindValue(g.env, fs.code, fs.k, k2, o1.regs))
    ensures Delivers(g.(expr := Binary(op, e1, e2)), o, o1, fs'.code, fs'.k, k', NoLists)
  {
    hide KindValue, Apply;
    if o.Fall? { EvalBinary(g.env.sem, op, e1, e2, o.regs); }
  }

  lemma EvalBinary(sem: Semantics, op: BinOpr, e1: Expr, e2: Expr, regs: Regs)
    requires !op.OPR_AND? && !op.OPR_OR?
    ensures Eval(sem, Binary(op, e1, e2), regs) == Combine(sem, op, Eval(sem, e1, regs), Eval(sem, e2, regs))
  {
  }

  // ----- one value -----

  function Modify(sem: Semantics, op: UnOpr, v: Option<Value>): Option<Value> {
    if v.Some? then ApplyUnary(sem, op, v.value) else None
  }

  lemma UnaryMeans(g: Goal, op: UnOpr, fs: FS, k: ExpKind, fs': FS, k': ExpKind)
    requires Means(g, fs, k, NoLists) && Ready(fs', k') && ExpJumps.Settled(g.env, Body(fs, k), Body(fs', k'))
    requires forall regs ::
               KindValue(g.env, fs'.code, fs'.k, k', regs) == Modify(g.env.sem, op, KindValue(g.env, fs.code, fs.k, k, regs))
    ensures Means(g.(expr := Unary(op, g.expr)), fs', k', NoLists)
  {
    hide FsOk, KindValue, Modify, Delivers, Eval;
    var g' := g.(expr := Unary(op, g.expr));
    NoListsEmpty();
    FrameStep(g.start, Body(fs, k), Body(fs', k'));
    forall regs | Clean(g.env, regs)
      ensures Delivers(g', Out(g.env, g.start, regs), Out(g.env, Body(fs', k'), regs), fs'.code, fs'.k, k', NoLists)
    {
      var o, o1 := Out(g.env, g.start, regs), Out(g.env, Body(fs, k), regs);
      assert Delivers(g, o, o1, fs.code, fs.k, k, NoLists);
      UnaryDelivers(g, op, o, o1, fs, k, fs', k');
    }
  }

  lemma UnaryDelivers(g: Goal, op: UnOpr, o: Outcome, o1: Outcome, fs: FS, k: ExpKind, fs': FS, k': ExpKind)
    requires Delivers(g, o, o1, fs.code, fs.k, k, NoLists)
    requires o1.Fall? ==>
               KindValue(g.env, fs'.code, fs'.k, k', o1.regs) ==
               Modify(g.env.sem, op, KindValue(g.env, fs.code, fs.k, k, o1.regs))
    ensures Delivers(g.(expr := Unary(op, g.expr)), o, o1, fs'.code, fs'.k, k', NoLists)
  {
    hide KindValue, ApplyUnary;
    NoListsEmpty();
    if o.Fall? { EvalUnary(g.env.sem, op, g.expr, o.regs); }
  }

  lemma EvalUnary(sem: Semantics, op: UnOpr, e: Expr, regs: Regs)
    ensures Eval(sem, Unary(op, e), regs) == Modify(sem, op, Eval(sem, e, regs))
  {
  }

  // ----- the start -----

  /** A constant or local needs no code. */
  lemma AtomMeans(g: Goal, k: ExpKind)
    requires FsOk(g.start) && TailOk(g.start, k) && TailLength(k) == 0
    requires forall regs :: KindValue(g.env, g.start.code, g.start.k, k, regs) == Eval(g.env.sem, g.expr, regs)
    ensures Means(g, g.start, k, NoLists)
  {
    BodySame(g.start, k);
    FrameSelf(g.start);
    NoListsEmpty();
    hide KindValue, Eval;
    forall regs | Clean(g.env, regs)
      ensures Delivers(g, Out(g.env, g.start, regs), Out(g.env, g.start, regs), g.start.code, g.start.k, k, NoLists)
    {
      hide Out;
    }
  }
}
