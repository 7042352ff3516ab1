/** The single pass: parsing drives the code generator (subexpr and the statements over locals,
    lparser.c). What is parsed is the function `SubExpr` of the tokens, and what is emitted means
    the parsed expression. */
module ExprParser {
  import opened Wrappers
  import opened LuaVM
  import opened Expressions
  import opened Syntax
  import Precedence
  import opened CodeState
  import opened ExpMeaning
  import ExpValues
  import ExpOperators
  import opened Patching
  import opened RegisterBounds
  import opened ChunkMeaning
  import opened CodeGenerator

  /** Instructions emitted, and constants added, for each token at most. */
  const GROWTH := 13

  /** The registers that expressions may need: a new one for each level of nesting, which begins
      with a token, and a few for the operation under way. */
  function Temporaries(level: nat, tokens: nat): nat {
    (if level + tokens <= LUAI_MAXCCALLS then tokens else if level <= LUAI_MAXCCALLS then LUAI_MAXCCALLS - level else 0) + 3
  }

  /** Reading so many tokens may lead beyond a limit. */
  ghost predicate Beyond(fs: FS, freereg: int, level: nat, tokens: nat) {
    Full(fs, GROWTH * tokens, freereg + Temporaries(level, tokens))
  }

  /** What lies beyond a limit from a later state on does so from the start. */
  lemma BeyondLater(f0: FS, fs: FS, base: int, later: int, level: nat, tokens: nat, rest: nat)
    requires rest <= tokens && Within(f0, fs, GROWTH * (tokens - rest)) && later <= base
    ensures Beyond(fs, later, level, rest) ==> Beyond(f0, base, level, tokens)
    ensures Beyond(fs, later, level + 1, rest) ==> Beyond(f0, base, level, tokens)
  {
  }

  /** A nested expression is read in a new register. */
  lemma BeyondNested(f0: FS, fs: FS, base: int, freereg: int, level: nat, tokens: nat)
    requires 0 < tokens && Within(f0, fs, GROWTH) && level < LUAI_MAXCCALLS && freereg <= base + 1
    ensures Beyond(fs, freereg, level + 1, tokens - 1) ==> Beyond(f0, base, level, tokens)
  {
  }

  lemma BeyondOperation(f0: FS, fs: FS, base: int, regs: int, level: nat, tokens: nat, spent: nat, n: nat)
    requires Within(f0, fs, spent) && spent + n <= GROWTH * tokens && regs <= base + 3
    ensures Full(fs, n, regs) ==> Beyond(f0, base, level, tokens)
  {
  }

  /** Enough room for any function of these tokens: a bound on their number, and one on the
      parameters, local variables and levels of nesting together. */
  predicate Roomy(params: nat, tokens: seq<Token>) {
    && GROWTH * |tokens| <= MAXARG_sBx
    && params + LocalTokens(tokens) + Temporaries(1, |tokens|) < MAXSTACK
  }

  class LexState {
    const gen: FuncState
    /** The current token is the first one. */
    var tokens: seq<Token>
    var nCcalls: nat

    constructor (gen: FuncState, tokens: seq<Token>)
      ensures this.gen == gen && this.tokens == tokens && nCcalls == 0
    {
      this.gen := gen;
      this.tokens := tokens;
      nCcalls := 0;
    }

    method Next()
      requires tokens != []
      modifies this`tokens
      ensures tokens == old(tokens)[1..]
    {
      tokens := tokens[1..];
    }

    /** `enterlevel`. */
    method EnterLevel() returns (r: Result<()>)
      modifies this`nCcalls
      ensures nCcalls == old(nCcalls) + 1
      ensures r.Ok? <==> nCcalls <= LUAI_MAXCCALLS
    {
      nCcalls := nCcalls + 1;
      if nCcalls > LUAI_MAXCCALLS {
        return Failed("chunk has too many syntax levels");
      }
      return Ok(());
    }

    /** The generator can take an expression. */
    ghost predicate Idle()
      reads gen
    {
      gen.StackOk() && FsOk(gen.fs)
    }

    /** What is being compiled, from the present state on. */
    ghost function Here(x: Expr): Goal
      reads gen
    {
      Goal(gen.env, gen.freereg, -1, gen.fs, x)
    }

    /** `e` with the jumps `l` is expression `x` compiled from the old state on. */
    ghost predicate Made(g: Goal, e: ExpDesc, l: Lists)
      reads gen
    {
      gen.Holds(g, e, l) && Fit(gen.fs, e.k, g.base)
    }

    /** `simpleexp`, with the parentheses of `prefixexp`. */
    method Simple(ghost n: int) returns (r: Result<ExpDesc>, ghost x: Expr, ghost l: Lists)
      requires Idle() && n == gen.nactvar
      modifies this, gen`fs, gen`freereg, gen`maxstacksize
      decreases |tokens|, 0
      ensures r.Failed? ==> SimpleExpr(old(tokens), old(nCcalls), n).Failed? || Beyond(old(gen.fs), old(gen.freereg), old(nCcalls), |old(tokens)|)
      ensures r.Ok? ==> |tokens| < |old(tokens)| && Within(old(gen.fs), gen.fs, GROWTH * (|old(tokens)| - |tokens|))
      ensures r.Ok? ==> SimpleExpr(old(tokens), old(nCcalls), n) == Ok(Parsed(x, tokens)) && nCcalls == old(nCcalls)
      ensures r.Ok? ==> Made(old(Here(Constant(Nil))).(expr := x), r.value, l)
    {
      hide FsOk, Means, ListsOk, Fit, Bounded, Precedence.Takes;
      x, l := Constant(Nil), NoLists;
      ghost var g0 := Here(x);
      FsParts(gen.fs);
      var t := First(tokens);
      if t.TOpen? {
        Next();
        var e, op, x1, l1 :- Subexpr(0, n);
        x, l := x1, l1;
        if !First(tokens).TClose? {
          return Failed("')' expected"), x, l;
        }
        Next();
        if StartsCall(First(tokens)) {
          return Failed("call"), x, l;
        }
        DischargedVars(g0.(expr := x), gen.fs, e, l);
        DischargedFit(gen.fs, e, g0.base);
        return Ok(DischargeVars(e)), x, l;
      }
      var k: ExpKind;
      match t {
        case TNumber(v) => k := VKNUM(v);
        case TString(s) =>
          var i :- gen.AddK(String(s));
          k := VK(i);
        case TNil => k := VNIL;
        case TTrue => k := VTRUE;
        case TFalse => k := VFALSE;
        case TName(r) =>
          if r >= gen.nactvar {
            return Failed("unexpected symbol"), x, l;
          }
          k := VLOCAL(r);
        case _ => return Failed("unexpected symbol"), x, l;
      }
      x := Atom(t, n).value;
      Next();
      if t.TName? && StartsCall(First(tokens)) {
        return Failed("call"), x, l;
      }
      AtomMade(g0.(expr := x), gen.fs, k, t, n);
      return Ok(ExpDesc(k, NO_JUMP, NO_JUMP)), x, l;
    }

    /** The beginning of `subexpr`. */
    method ReadOperand(ghost n: int) returns (r: Result<ExpDesc>, ghost x: Expr, ghost l: Lists)
      requires Idle() && n == gen.nactvar
      modifies this, gen`fs, gen`freereg, gen`maxstacksize
      decreases |tokens|, 1
      ensures r.Failed? ==> Operand(old(tokens), old(nCcalls), n).Failed? || Beyond(old(gen.fs), old(gen.freereg), old(nCcalls), |old(tokens)|)
      ensures r.Ok? ==> |tokens| < |old(tokens)| && Within(old(gen.fs), gen.fs, GROWTH * (|old(tokens)| - |tokens|))
      ensures r.Ok? ==> Operand(old(tokens), old(nCcalls), n) == Ok(Parsed(x, tokens)) && nCcalls == old(nCcalls)
      ensures r.Ok? ==> Made(old(Here(Constant(Nil))).(expr := x), r.value, l)
    {
      hide FsOk, Means, ListsOk, Fit, Compiled, RegOk, Bounded, Precedence.Takes;
      x, l := Constant(Nil), NoLists;
      ghost var g0 := Here(x);
      var uop := GetUnOpr(First(tokens));
      if uop.Some? {
        Next();
        var e, op1, x1, l1 :- Subexpr(UNARY_PRIORITY, n);
        FitTruthful(gen.fs, e.k, g0.base);
        x := Unary(uop.value, x1);
        r, l := gen.PrefixOp(uop.value, e, g0.(expr := x1), l1);
      } else {
        r, x, l := Simple(n);
      }
    }

    /** One round of the loop of `subexpr`: an operator and its right operand. */
    method ReadOperation(op: BinOpr, e: ExpDesc, ghost g: Goal, ghost l: Lists, ghost n: int)
      returns (r: Result<ExpDesc>, nextop: Option<BinOpr>, ghost y: Expr, ghost l': Lists)
      requires Made(g, e, l) && n == gen.nactvar && First(tokens) == TOp(op) && 0 < nCcalls <= LUAI_MAXCCALLS
      modifies this, gen`fs, gen`freereg, gen`maxstacksize
      decreases |tokens|, 3
      ensures r.Failed? ==> SubExpr(old(tokens)[1..], RightPriority(op), old(nCcalls), n).Failed? || Beyond(old(gen.fs), g.base, old(nCcalls) - 1, |old(tokens)|)
      ensures r.Ok? ==> |tokens| < |old(tokens)| && Within(old(gen.fs), gen.fs, GROWTH * (|old(tokens)| - |tokens|))
      ensures r.Ok? ==> SubExpr(old(tokens)[1..], RightPriority(op), old(nCcalls), n) == Ok(Parsed(y, tokens)) && nCcalls == old(nCcalls)
      ensures r.Ok? ==> nextop == GetBinOpr(First(tokens))
      ensures r.Ok? ==> Made(g.(expr := Binary(op, g.expr, y)), r.value, l')
    {
      hide FsOk, Means, ListsOk, Fit, Compiled, LeftOk, RegOk, ExpOperators.Follows, Full, Beyond, Bounded, Precedence.Takes;
      nextop, y, l' := None, Constant(Nil), NoLists;
      ghost var ts := tokens;
      ghost var level := nCcalls - 1;
      ghost var f0 := gen.fs;
      Next();
      FitTruthful(f0, e.k, g.base);
      BeyondOperation(f0, f0, g.base, g.base + 1, level, |ts|, 0, 4);
      var e1, l1 :- gen.Infix(op, e, g, l);
      ghost var fs1 := gen.fs;
      LeftReady(op, g, fs1, e1, l1, gen.nactvar, gen.freereg);
      BeyondNested(f0, fs1, g.base, gen.freereg, level, |ts|);
      ghost var g2 := Here(y);
      var e2, nextop1, y1, l2 :- Subexpr(RightPriority(op), n);
      nextop, y, g2 := nextop1, y1, g2.(expr := y1);
      RightFollows(ts[1..], RightPriority(op), level + 1, n, g, fs1, g2, tokens);
      BeyondOperation(f0, gen.fs, g.base, g2.base + 2, level, |ts|, GROWTH * (|ts| - |tokens| - 1) + 4, 9);
      r, l' := gen.Posfix(op, e1, e2, g, fs1, l1, g2, l2);
    }

    /** `subexpr`: the descriptor of the expression and the first operator left. */
    method Subexpr(limit: nat, ghost n: int) returns (r: Result<ExpDesc>, op: Option<BinOpr>, ghost x: Expr, ghost l: Lists)
      requires Idle() && n == gen.nactvar
      modifies this, gen`fs, gen`freereg, gen`maxstacksize
      decreases |tokens|, 2
      ensures r.Failed? ==> SubExpr(old(tokens), limit, old(nCcalls), n).Failed? || Beyond(old(gen.fs), old(gen.freereg), old(nCcalls), |old(tokens)|)
      ensures r.Ok? ==> |tokens| < |old(tokens)| && Within(old(gen.fs), gen.fs, GROWTH * (|old(tokens)| - |tokens|))
      ensures r.Ok? ==> SubExpr(old(tokens), limit, old(nCcalls), n) == Ok(Parsed(x, tokens)) && nCcalls == old(nCcalls)
      ensures r.Ok? && limit <= 9 ==> Precedence.Takes([], old(tokens), Parsed(x, tokens), Precedence.LevelFor(limit), n)
      ensures r.Ok? ==> op == GetBinOpr(First(tokens))
      ensures r.Ok? ==> Made(old(Here(Constant(Nil))).(expr := x), r.value, l)
    {
      hide FsOk, Means, ListsOk, Fit, Compiled, RegOk, Operand, Full, Beyond, Bounded, Precedence.Takes;
      op, x, l := None, Constant(Nil), NoLists;
      ghost var g0 := Here(x);
      ghost var ts := tokens;
      ghost var level := nCcalls;
      var _ :- EnterLevel();
      BeyondLater(g0.start, g0.start, g0.base, g0.base, level, |ts|, |ts|);
      var e, x1, l1 :- ReadOperand(n);
      x, l := x1, l1;
      op := GetBinOpr(First(tokens));
      while op.Some? && LeftPriority(op.value) > limit
        invariant nCcalls == level + 1 && op == GetBinOpr(First(tokens)) && |tokens| < |ts|
        invariant SubExpr(ts, limit, level, n) == Loop(x, tokens, limit, level + 1, n)
        invariant Made(g0.(expr := x), e, l) && gen.nactvar == n
        invariant Within(g0.start, gen.fs, GROWTH * (|ts| - |tokens|))
        decreases |tokens|
      {
        BeyondLater(g0.start, gen.fs, g0.base, g0.base, level, |ts|, |tokens|);
        ghost var y;
        ghost var left := op.value;
        e, op, y, l :- ReadOperation(op.value, e, g0.(expr := x), l, n);
        x := Binary(left, x, y);
      }
      nCcalls := nCcalls - 1;
      if limit <= 9 { Precedence.SubExprSound(ts, limit, level, n); }
      r := Ok(e);
    }

    // ----- statements -----

    /** What has been emitted is the code of the statements in `done`. */
    ghost predicate InBlock(done: seq<Stat>)
      reads gen
    {
      gen.StackOk() && BlockOk(gen.env, gen.fs, done, gen.nactvar)
    }

    /** `adjust_assign`, for one variable without a value. */
    method AdjustAssign(ghost done: seq<Stat>) returns (r: Result<()>)
      requires InBlock(done) && gen.freereg == gen.nactvar < LUAI_MAXVARS
      modifies gen`fs, gen`freereg, gen`maxstacksize
      ensures r.Failed? ==> Near(old(gen.fs), 0)
      ensures r.Ok? ==> Within(old(gen.fs), gen.fs, 1) && gen.StackOk() && gen.freereg == gen.nactvar + 1
      ensures r.Ok? ==> BlockOk(gen.env, gen.fs, done + [SLocal(None)], gen.nactvar + 1)
    {
      hide FsOk, BlockOk, Bounded;
      ghost var f0 := gen.fs;
      BlockReady(gen.env, f0, done, gen.nactvar);
      var reg := gen.freereg;
      var _ := gen.ReserveRegs(1);  // cannot fail: LUAI_MAXVARS is below MAXSTACK
      var _ :- gen.LoadNil(reg, 1);
      LocalNilDone(gen.env, f0, gen.fs, done, reg);
      return Ok(());
    }

    /** `localstat`, for one variable. */
    method ReadLocal(ghost done: seq<Stat>) returns (r: Result<()>, ghost s: Stat)
      requires First(tokens).TLocal? && InBlock(done) && gen.freereg == gen.nactvar
      modifies this, gen
      ensures r.Failed? ==> Statement(old(tokens), old(nCcalls), old(gen.nactvar)).Failed? || Beyond(old(gen.fs), old(gen.freereg), old(nCcalls), |old(tokens)|)
      ensures r.Ok? ==> |tokens| < |old(tokens)| && Within(old(gen.fs), gen.fs, GROWTH * (|old(tokens)| - |tokens|))
      ensures r.Ok? ==> Statement(old(tokens), old(nCcalls), old(gen.nactvar)) == Ok(ParsedStat(s, tokens)) && nCcalls == old(nCcalls)
      ensures r.Ok? ==> s.SLocal? && gen.nactvar == old(gen.nactvar) + 1 && InBlock(done + [s])
    {
      hide FsOk, Means, ListsOk, Fit, BlockOk, SubExpr, Bounded, Precedence.Takes;
      s := SLocal(None);
      ghost var g := Here(Constant(Nil));
      ghost var n := gen.nactvar;
      BlockReady(gen.env, gen.fs, done, n);
      if gen.nactvar + 1 > LUAI_MAXVARS {
        return Failed("too many local variables"), s;
      }
      Next();
      if First(tokens).TAssign? {
        Next();
        var e, op, x, l :- Subexpr(0, n);
        s := SLocal(Some(x));
        var e1 :- gen.Exp2NextReg(e, g.(expr := x), l);
        HeldMeans(g.(expr := x), gen.fs, e1, NoLists);
        ReadScoped(old(tokens)[2..], nCcalls, n, x, tokens);
        LocalDone(g.(expr := x), gen.fs, done);
      } else {
        var _ :- AdjustAssign(done);
      }
      gen.AdjustLocalVars();
      return Ok(()), s;
    }

    /** `assignment`, of one expression to one local. */
    method ReadAssignment(ghost done: seq<Stat>) returns (r: Result<()>, ghost s: Stat)
      requires First(tokens).TName? && InBlock(done) && gen.freereg == gen.nactvar
      modifies this, gen
      ensures r.Failed? ==> Statement(old(tokens), old(nCcalls), old(gen.nactvar)).Failed? || Beyond(old(gen.fs), old(gen.freereg), old(nCcalls), |old(tokens)|)
      ensures r.Ok? ==> |tokens| < |old(tokens)| && Within(old(gen.fs), gen.fs, GROWTH * (|old(tokens)| - |tokens|))
      ensures r.Ok? ==> Statement(old(tokens), old(nCcalls), old(gen.nactvar)) == Ok(ParsedStat(s, tokens)) && nCcalls == old(nCcalls)
      ensures r.Ok? ==> s.SAssign? && gen.nactvar == old(gen.nactvar) && InBlock(done + [s])
    {
      hide FsOk, Means, ListsOk, Fit, BlockOk, SubExpr, Bounded, Precedence.Takes;
      s := SLocal(None);
      ghost var g := Here(Constant(Nil));
      ghost var n := gen.nactvar;
      BlockReady(gen.env, gen.fs, done, n);
      var local := First(tokens).local;
      if local >= gen.nactvar {
        return Failed("syntax error"), s;
      }
      Next();
      if !First(tokens).TAssign? {
        return Failed("syntax error"), s;
      }
      Next();
      var e, op, x, l :- Subexpr(0, n);
      s := SAssign(local, x);
      var _ :- gen.StoreLocal(local, e, g.(expr := x), l);
      ReadScoped(old(tokens)[2..], nCcalls, n, x, tokens);
      AssignDone(g.(expr := x, dest := local), gen.fs, done, local);
      return Ok(()), s;
    }

    /** The end of `retstat`, for no value. */
    method ReturnNothing(ghost done: seq<Stat>) returns (r: Result<()>)
      requires InBlock(done)
      modifies gen`fs
      ensures r.Failed? ==> Near(old(gen.fs), 0)
      ensures r.Ok? ==> Within(old(gen.fs), gen.fs, 1) && InBlock(done + [SReturn(None)])
    {
      hide FsOk, BlockOk, ReturnsAfter, HereOk, Bounded;
      ghost var f0 := gen.fs;
      BlockReady(gen.env, f0, done, gen.nactvar);
      FsParts(f0);
      r := gen.Ret(0, 0);
      if r.Ok? {
        ReturnNoneDone(gen.env, f0, gen.fs, done, gen.nactvar);
      }
    }

    /** The end of `retstat`, for one value. */
    method ReturnValue(e: ExpDesc, ghost g: Goal, ghost l: Lists, ghost done: seq<Stat>) returns (r: Result<()>)
      requires gen.Holds(g, e, l) && BlockOk(gen.env, g.start, done, g.base) && g.base == gen.nactvar && Scoped(g.expr, g.base)
      modifies gen`fs, gen`freereg, gen`maxstacksize
      ensures r.Failed? ==> Full(old(gen.fs), 5, g.base + 1)
      ensures r.Ok? ==> Within(old(gen.fs), gen.fs, 5) && InBlock(done + [SReturn(Some(g.expr))])
    {
      hide FsOk, Means, ListsOk, BlockOk, ReturnsAfter, HereOk, Bounded;
      var e1 :- gen.Exp2AnyReg(e, g, l);
      ghost var f1 := gen.fs;
      HeldMeans(g, f1, e1, NoLists);
      MeansOk(g, f1, e1.k.info);
      FsParts(f1);
      var _ :- gen.Ret(e1.k.info, 1);
      ReturnDone(g, f1, gen.fs, done, e1.k.info);
      return Ok(());
    }

    /** `retstat`, of at most one value. */
    method ReadReturn(ghost done: seq<Stat>) returns (r: Result<()>, ghost s: Stat)
      requires First(tokens).TReturn? && InBlock(done) && gen.freereg == gen.nactvar
      modifies this, gen
      ensures r.Failed? ==> Statement(old(tokens), old(nCcalls), old(gen.nactvar)).Failed? || Beyond(old(gen.fs), old(gen.freereg), old(nCcalls), |old(tokens)|)
      ensures r.Ok? ==> |tokens| < |old(tokens)| && Within(old(gen.fs), gen.fs, GROWTH * (|old(tokens)| - |tokens|))
      ensures r.Ok? ==> Statement(old(tokens), old(nCcalls), old(gen.nactvar)) == Ok(ParsedStat(s, tokens)) && nCcalls == old(nCcalls)
      ensures r.Ok? ==> s.SReturn? && gen.nactvar == old(gen.nactvar) && InBlock(done + [s])
    {
      hide FsOk, Compiled, Fit, BlockOk, SubExpr, Bounded, Precedence.Takes;
      s := SReturn(None);
      ghost var g := Here(Constant(Nil));
      ghost var n := gen.nactvar;
      BlockReady(gen.env, gen.fs, done, n);
      Next();
      if EndsReturn(First(tokens)) {
        var _ :- ReturnNothing(done);
      } else {
        var e, op, x, l :- Subexpr(0, n);
        s := SReturn(Some(x));
        ReadScoped(old(tokens)[1..], nCcalls, n, x, tokens);
        var _ :- ReturnValue(e, g.(expr := x), l, done);
      }
      return Ok(()), s;
    }

    /** `statement`. */
    method ReadStatement(ghost done: seq<Stat>) returns (r: Result<bool>, ghost s: Stat)
      requires InBlock(done) && gen.freereg == gen.nactvar
      modifies this, gen
      ensures r.Failed? ==> Statement(old(tokens), old(nCcalls), old(gen.nactvar)).Failed? || Beyond(old(gen.fs), old(gen.freereg), old(nCcalls), |old(tokens)|)
      ensures r.Ok? ==> |tokens| < |old(tokens)| && Within(old(gen.fs), gen.fs, GROWTH * (|old(tokens)| - |tokens|))
      ensures r.Ok? ==> Statement(old(tokens), old(nCcalls), old(gen.nactvar)) == Ok(ParsedStat(s, tokens)) && nCcalls == old(nCcalls)
      ensures r.Ok? ==> r.value == s.SReturn? && gen.nactvar == old(gen.nactvar) + (if s.SLocal? then 1 else 0) && InBlock(done + [s])
    {
      hide FsOk, BlockOk, Statement, Beyond, Bounded;
      s := SLocal(None);
      if First(tokens).TLocal? {
        var _, s1 :- ReadLocal(done);
        return Ok(false), s1;
      } else if First(tokens).TName? {
        var _, s1 :- ReadAssignment(done);
        return Ok(false), s1;
      } else if First(tokens).TReturn? {
        var _, s1 :- ReadReturn(done);
        return Ok(true), s1;
      }
      NoStatement(tokens, nCcalls, gen.nactvar);
      return Failed("syntax error"), s;
    }

    /** `chunk`, for a whole function. */
    method ReadChunk() returns (r: Result<()>, ghost stats: seq<Stat>)
      requires InBlock([]) && gen.freereg == gen.nactvar
      modifies this, gen
      ensures r.Failed? ==>
                || old(nCcalls) + 1 > LUAI_MAXCCALLS || Chunk([], old(tokens), old(nCcalls) + 1, old(gen.nactvar)).Failed?
                || Beyond(old(gen.fs), old(gen.nactvar) + LocalTokens(old(tokens)), old(nCcalls) + 1, |old(tokens)|)
      ensures r.Ok? ==> Within(old(gen.fs), gen.fs, GROWTH * |old(tokens)|)
      ensures r.Ok? ==> Chunk([], old(tokens), old(nCcalls) + 1, old(gen.nactvar)) == Ok(stats) && InBlock(stats)
    {
      hide FsOk, BlockOk, Statement, LocalTokens, Beyond, Bounded;
      stats := [];
      var _ :- EnterLevel();
      var islast := false;
      while !islast && !First(tokens).TEnd?
        invariant InBlock(stats) && nCcalls == old(nCcalls) + 1 && gen.freereg == gen.nactvar
        invariant |tokens| <= |old(tokens)| && Within(old(gen.fs), gen.fs, GROWTH * (|old(tokens)| - |tokens|))
        invariant gen.nactvar + LocalTokens(tokens) <= old(gen.nactvar) + LocalTokens(old(tokens))
        invariant Chunk([], old(tokens), nCcalls, old(gen.nactvar)) ==
                  if islast then (if tokens == [] then Ok(stats) else Failed("<eof> expected"))
                  else Chunk(stats, tokens, nCcalls, gen.nactvar)
        decreases !islast, |tokens|
      {
        BeyondLater(old(gen.fs), gen.fs, old(gen.nactvar) + LocalTokens(old(tokens)), gen.nactvar, nCcalls, |old(tokens)|, |tokens|);
        LocalsRead(tokens, nCcalls, gen.nactvar);
        ghost var s;
        islast, s :- ReadStatement(stats);
        stats := stats + [s];
        if First(tokens).TSemicolon? {
          Next();
        }
        gen.FreeRegisters();
      }
      nCcalls := nCcalls - 1;
      if tokens != [] {
        return Failed("<eof> expected"), stats;
      }
      return Ok(()), stats;
    }
  }

  /** A finished function prototype. */
  datatype Proto = Proto(code: Code, k: seq<Value>, maxstacksize: int)

  /** Compiles the body of a function with `env.params` parameters. The code, run by the interpreter
      on any arguments, gives exactly the result that executing the parsed statements gives, and it
      refers to registers of its frame only.
      Compilation fails where the tokens cannot be parsed; it also fails at a limit of the code
      format, but never for a function that has room. */
  method CompileFunction(env: Env, tokens: seq<Token>) returns (r: Result<Proto>)
    requires env.params < MAXSTACK
    ensures Chunk([], tokens, 1, env.params).Failed? ==> r.Failed?
    ensures r.Ok? ==> forall args :: Clean(env, args) ==>
              Run(env.sem, r.value.k, r.value.code, {}, 0, args) ==
              Final(Execute(env.sem, Chunk([], tokens, 1, env.params).value, env.params, args))
    ensures r.Ok? ==> env.params <= r.value.maxstacksize < MAXSTACK &&
                      forall pc :: 0 <= pc < |r.value.code| ==> InFrame(r.value.code[pc], r.value.maxstacksize)
    ensures r.Failed? ==> Chunk([], tokens, 1, env.params).Failed? || !Roomy(env.params, tokens)
  {
    hide BlockOk, FsOk, ReturnsAfter, Chunk, Clean, Bounded;
    var gen := new FuncState(env);
    EmptyBlock(env, gen.fs);
    BoundedEmpty(gen.fs.pend, gen.maxstacksize);
    var ls := new LexState(gen, tokens);
    var done, stats := ls.ReadChunk();
    if done.Failed? {
      return Failed(done.message);
    }
    ghost var f0 := gen.fs;
    BlockReady(env, f0, stats, gen.nactvar);
    FsParts(f0);
    var closed := gen.Ret(0, 0);
    if closed.Failed? {
      return Failed(closed.message);
    }
    Closed(env, f0, gen.fs, stats, gen.nactvar);
    BoundedDone(gen.fs.code, gen.fs.pend, gen.maxstacksize);
    r := Ok(Proto(gen.fs.code, gen.fs.k, gen.maxstacksize));
  }

  lemma BlockReady(env: Env, fs: FS, stats: seq<Stat>, n: int)
    requires BlockOk(env, fs, stats, n)
    ensures FsOk(fs)
  {
  }

  lemma ReadScoped(ts: seq<Token>, level: nat, n: int, x: Expr, rest: seq<Token>)
    requires SubExpr(ts, 0, level, n) == Ok(Parsed(x, rest))
    ensures Scoped(x, n)
  {
    SubExprScoped(ts, 0, level, n);
  }

  lemma NoStatement(ts: seq<Token>, level: nat, n: int)
    requires !First(ts).TLocal? && !First(ts).TName? && !First(ts).TReturn?
    ensures Statement(ts, level, n).Failed?
  {
  }

  lemma FitTruthful(fs: FS, k: ExpKind, base: int)
    requires Fit(fs, k, base)
    ensures Truthful(fs, k)
  {
  }

  lemma DischargedFit(fs: FS, e: ExpDesc, base: int)
    requires Fit(fs, e.k, base)
    ensures Fit(fs, DischargeVars(e).k, base)
  {
  }

  lemma AtomMade(g: Goal, fs: FS, k: ExpKind, t: Token, n: int)
    requires FsOk(g.start) && Atom(t, n) == Some(g.expr) && ConstantsOk(fs)
    requires fs == g.start.(k := fs.k, h := fs.h) && g.start.k <= fs.k
    requires match t
             case TNumber(v) => k == VKNUM(v)
             case TString(s) => k.VK? && 0 <= k.info < |fs.k| && fs.k[k.info] == String(s)
             case TNil => k == VNIL
             case TTrue => k == VTRUE
             case TFalse => k == VFALSE
             case TName(r) => k == VLOCAL(r)
             case _ => false
    ensures Compiled(g, fs, ExpDesc(k, NO_JUMP, NO_JUMP), NoLists) && Fit(fs, k, g.base)
  {
    hide FsOk;
    ExpValues.MoreConstants(g.env, g.start, fs);
    var g1 := g.(start := fs);
    ExpOperators.AtomMeans(g1, k);
    StartMeans(g, g1, fs, k);
    NoJumpLists(fs, k);
  }

  /** New constants at the start make no difference. */
  lemma StartMeans(g: Goal, g1: Goal, fs: FS, k: ExpKind)
    requires Means(g1, fs, k, NoLists) && g1 == g.(start := fs) && TailLength(k) == 0
    requires Frame(g.start, fs, NoLists) && forall regs :: Out(g.env, fs, regs) == Out(g.env, g.start, regs)
    ensures Means(g, fs, k, NoLists)
  {
    hide FsOk, KindValue;
    ExpValues.BodySame(fs, k);
    NoListsEmpty();
    forall regs | Clean(g.env, regs)
      ensures Delivers(g, Out(g.env, g.start, regs), Out(g.env, fs, regs), fs.code, fs.k, k, NoLists)
    {
      assert Delivers(g1, Out(g.env, fs, regs), Out(g.env, fs, regs), fs.code, fs.k, k, NoLists);
    }
  }

  lemma LeftReady(op: BinOpr, g: Goal, fs: FS, e: ExpDesc, l: Lists, nactvar: int, freereg: int)
    requires LeftOk(op, g, fs, e, l, nactvar, freereg)
    ensures FsOk(fs) && freereg <= g.base + 1
  {
    hide FsOk, Branches, Means;
    if op.OPR_AND? || op.OPR_OR? {
      BranchReady(g, fs, l, op.OPR_AND?);
    } else {
      HeldLists(g, fs, e, l);
    }
  }

  lemma BranchReady(g: Goal, fs: FS, l: Lists, sense: bool)
    requires Branches(g, fs, l, sense)
    ensures FsOk(fs)
  {
  }

  lemma RightFollows(ts: seq<Token>, limit: nat, level: nat, n: int, g1: Goal, fs1: FS, g2: Goal, rest: seq<Token>)
    requires SubExpr(ts, limit, level, n) == Ok(Parsed(g2.expr, rest)) && n <= g1.base
    requires g2.env == g1.env && g2.start == fs1 && g2.base >= g1.base && g2.dest == g1.dest == -1
    ensures ExpOperators.Follows(g1, fs1, g2)
  {
    SubExprScoped(ts, limit, level, n);
    ScopedMore(g2.expr, n, g1.base);
  }

  lemma {:induction false} ScopedMore(x: Expr, n: int, m: int)
    requires Scoped(x, n) && n <= m
    ensures Scoped(x, m)
  {
    match x
    case Unary(_, a) => ScopedMore(a, n, m);
    case Binary(_, a, b) => ScopedMore(a, n, m); ScopedMore(b, n, m);
    case _ =>
  }
}
