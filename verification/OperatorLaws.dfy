/** What each operator does in finished code, operator by operator (Lua 5.1 Reference Manual, sections
    2.5.1 to 2.5.5). The laws relate the results of compiled functions; no evaluator of expressions is
    mentioned. */
module OperatorLaws {
  import opened Wrappers
  import opened LuaVM
  import opened Expressions
  import opened Syntax
  import opened Precedence
  import ChunkGrammar
  import opened CodeState
  import ChunkMeaning
  import Patching
  import CodeGenerator
  import opened ExprParser

  // ----- the operators -----

  function Answer(r: Option<Value>): Outcome {
    match r
    case None => Error
    case Some(v) => Returned([v])
  }

  /** The numeric operation on two numbers, and otherwise the metamethod or coercion. */
  function Numeric(sem: Semantics, op: ArithOp, v: Value, w: Value): Outcome {
    match (v, w)
    case (Number(x), Number(y)) => Returned([Number(sem.num(op, x, y))])
    case _ => Answer(sem.arithMeta(op, v, w))
  }

  function Decided(r: Option<bool>): Outcome {
    match r
    case None => Error
    case Some(b) => Returned([Bool(b)])
  }

  function Denied(r: Option<bool>): Outcome {
    match r
    case None => Error
    case Some(b) => Returned([Bool(!b)])
  }

  predicate IsFalse(v: Value) { v == Nil || v == Bool(false) }

  /** `c` is the result of `v op w`. */
  ghost predicate Gives(sem: Semantics, op: BinOpr, v: Value, w: Value, c: Outcome) {
    match op
    case OPR_ADD => c == Numeric(sem, Add, v, w)
    case OPR_SUB => c == Numeric(sem, Sub, v, w)
    case OPR_MUL => c == Numeric(sem, Mul, v, w)
    case OPR_DIV => c == Numeric(sem, Div, v, w)
    case OPR_MOD => c == Numeric(sem, Mod, v, w)
    case OPR_POW => c == Numeric(sem, Pow, v, w)
    case OPR_CONCAT => c == Answer(sem.concat(v, w))
    case OPR_EQ => c == Decided(sem.compare(Eq, v, w))
    case OPR_NE => c == Denied(sem.compare(Eq, v, w))
    case OPR_LT => c == Decided(sem.compare(Lt, v, w))
    case OPR_LE => c == Decided(sem.compare(Le, v, w))
    case OPR_GT => c == Decided(sem.compare(Lt, w, v))
    case OPR_GE => c == Decided(sem.compare(Le, w, v))
    case OPR_AND => c == Returned([if IsFalse(v) then v else w])
    case OPR_OR => c == Returned([if IsFalse(v) then w else v])
  }

  /** The result `c` of an operation where `a` and `b` are the results of its operands: the right one
      of `and` and `or` counts only if the left one does not decide. */
  ghost predicate Combines(sem: Semantics, op: BinOpr, a: Outcome, b: Outcome, c: Outcome) {
    && (a == Error ==> c == Error)
    && forall v :: a == Returned([v]) ==>
         if op == OPR_AND && IsFalse(v) then c == a
         else if op == OPR_OR && !IsFalse(v) then c == a
         else (b == Error ==> c == Error) && forall w :: b == Returned([w]) ==> Gives(sem, op, v, w, c)
  }

  ghost predicate UnaryGives(sem: Semantics, op: UnOpr, v: Value, c: Outcome) {
    match op
    case OPR_MINUS => c == if v.Number? then Returned([Number(sem.neg(v.n))]) else Answer(sem.negMeta(v))
    case OPR_NOT => c == Returned([Bool(IsFalse(v))])
    case OPR_LEN => c == Answer(sem.len(v))
  }

  ghost predicate Transforms(sem: Semantics, op: UnOpr, a: Outcome, c: Outcome) {
    (a == Error ==> c == Error) && forall v :: a == Returned([v]) ==> UnaryGives(sem, op, v, c)
  }

  function TokenValue(t: Token, args: Regs): Value {
    match t
    case TTrue => Bool(true)
    case TFalse => Bool(false)
    case TNumber(x) => Number(x)
    case TString(s) => String(s)
    case TName(r) => if r in args then args[r] else Nil
    case _ => Nil
  }

  // ----- results of finished functions -----

  /** The result of a finished function on `args`. */
  function Result(env: Env, p: Proto, args: Regs): Outcome {
    Run(env.sem, p.k, p.code, {}, 0, args)
  }

  /** Compiles `return ts`. */
  method CompileReturn(env: Env, ts: seq<Token>, ghost e: Expr) returns (r: Result<Proto>)
    requires env.params < Patching.MAXSTACK && Derives(ts, e, 1, env.params)
    ensures r.Ok? ==> forall args :: Clean(env, args) ==> Result(env, r.value, args) == Answer(Eval(env.sem, e, args))
    ensures r.Failed? ==> 1 + |ts| > LUAI_MAXCCALLS || !Roomy(env.params, [TReturn] + ts)
  {
    hide Derives, Clean, Run, Chunk, Syntax.Execute;
    r := CompileFunction(env, [TReturn] + ts);
    ReturnDerived(ts, e, env.params);
    forall args ensures ChunkMeaning.Final(Syntax.Execute(env.sem, [SReturn(Some(e))], env.params, args)) == Answer(Eval(env.sem, e, args)) {
      ReturnExecuted(env.sem, e, env.params, args);
    }
  }

  lemma ReturnDerived(ts: seq<Token>, e: Expr, n: int)
    requires Derives(ts, e, 1, n)
    ensures var r := Chunk([], [TReturn] + ts, 1, n); r == Ok([SReturn(Some(e))]) || (r.Failed? && 1 + |ts| > LUAI_MAXCCALLS)
  {
    hide Derives;
    var all := [TReturn] + ts;
    assert all[1..] == ts && ts + [] == ts;
    DerivedRead(ts, e, 1, 0, [], 1, n);
    ChunkGrammar.DerivedStarts(ts, e, 1, n);
    assert [] + [SReturn(Some(e))] == [SReturn(Some(e))];
    assert Statement(all, 1, n) == Ok(ParsedStat(SReturn(Some(e)), [])) || (Statement(all, 1, n) == Failed(TooDeep.message) && 1 + |ts| > LUAI_MAXCCALLS);
  }

  lemma ReturnExecuted(sem: Semantics, e: Expr, n: nat, args: Regs)
    ensures ChunkMeaning.Final(Syntax.Execute(sem, [SReturn(Some(e))], n, args)) == Answer(Eval(sem, e, args))
  {
    var stats := [SReturn(Some(e))];
    assert stats[..0] == [];
  }

  // ----- the laws -----

  /** `a`, `b` and `c` return an expression each, and the third is the binary operation of the other
      two, written in any way that the grammar allows. On all arguments the finished code of `c` gives
      what the operator makes of the results of `a` and `b`. */
  method CompileBinary(env: Env, left: seq<Token>, op: BinOpr, right: seq<Token>, whole: seq<Token>, ghost x: Expr, ghost y: Expr)
    returns (a: Result<Proto>, b: Result<Proto>, c: Result<Proto>)
    requires env.params < Patching.MAXSTACK
    requires Derives(left, x, 1, env.params) && Derives(right, y, 1, env.params) && Derives(whole, Binary(op, x, y), 1, env.params)
    ensures a.Ok? && b.Ok? && c.Ok? ==>
              forall args :: Clean(env, args) ==>
                Combines(env.sem, op, Result(env, a.value, args), Result(env, b.value, args), Result(env, c.value, args))
  {
    hide Derives, Clean, Result, Combines, Roomy, Eval;
    a := CompileReturn(env, left, x);
    b := CompileReturn(env, right, y);
    c := CompileReturn(env, whole, Binary(op, x, y));
    forall args ensures Combines(env.sem, op, Answer(Eval(env.sem, x, args)), Answer(Eval(env.sem, y, args)), Answer(Eval(env.sem, Binary(op, x, y), args))) {
      EvalCombines(env.sem, op, x, y, args);
    }
  }

  method CompileUnary(env: Env, op: UnOpr, operand: seq<Token>, whole: seq<Token>, ghost x: Expr) returns (a: Result<Proto>, c: Result<Proto>)
    requires env.params < Patching.MAXSTACK
    requires Derives(operand, x, 1, env.params) && Derives(whole, Unary(op, x), 1, env.params)
    ensures a.Ok? && c.Ok? ==>
              forall args :: Clean(env, args) ==> Transforms(env.sem, op, Result(env, a.value, args), Result(env, c.value, args))
  {
    hide Derives, Clean, Result, Transforms, Roomy, Eval;
    a := CompileReturn(env, operand, x);
    c := CompileReturn(env, whole, Unary(op, x));
    forall args ensures Transforms(env.sem, op, Answer(Eval(env.sem, x, args)), Answer(Eval(env.sem, Unary(op, x), args))) {
      EvalTransforms(env.sem, op, x, args);
    }
  }

  /** `return t`, for a constant or a parameter. */
  method CompileAtom(env: Env, t: Token, ghost x: Expr) returns (c: Result<Proto>)
    requires env.params <= LUAI_MAXVARS && StandsFor(t, x, env.params)
    ensures c.Ok? && forall args :: Clean(env, args) ==> Result(env, c.value, args) == Returned([TokenValue(t, args)])
  {
    hide Clean, Result;
    AtomDerived(t, x, env.params);
    Weaken([t], x, ATOM, 1, env.params);
    c := CompileReturn(env, [t], x);
    FewTokens(env.params, [TReturn] + [t]);
    forall args ensures Eval(env.sem, x, args) == Some(TokenValue(t, args)) {
      AtomEval(env.sem, t, x, env.params, args);
    }
  }

  /** `return t op u`, for constants and parameters: folded or not, the result is that of the operator. */
  method CompileOnAtoms(env: Env, t: Token, op: BinOpr, u: Token, ghost x: Expr, ghost y: Expr) returns (c: Result<Proto>)
    requires env.params <= LUAI_MAXVARS && StandsFor(t, x, env.params) && StandsFor(u, y, env.params)
    ensures c.Ok?
    ensures forall args :: Clean(env, args) ==> Gives(env.sem, op, TokenValue(t, args), TokenValue(u, args), Result(env, c.value, args))
  {
    hide Clean, Result, Derives, StandsFor;
    var n := env.params;
    AtomDerived(t, x, n);
    AtomDerived(u, y, n);
    var lvl := LevelOf(op);
    Pair(t, op, u, x, y, lvl, n);
    Weaken([t, TOp(op), u], Binary(op, x, y), lvl, 1, n);
    c := CompileReturn(env, [t, TOp(op), u], Binary(op, x, y));
    AtomEval(env.sem, t, x, n, map[]);
    AtomEval(env.sem, u, y, n, map[]);
    FewTokens(n, [TReturn] + [t, TOp(op), u]);
    forall args ensures Gives(env.sem, op, TokenValue(t, args), TokenValue(u, args), Answer(Eval(env.sem, Binary(op, x, y), args))) {
      AtomEval(env.sem, t, x, n, args);
      AtomEval(env.sem, u, y, n, args);
      EvalGives(env.sem, op, x, y, args);
    }
  }

  lemma FewTokens(n: nat, ts: seq<Token>)
    requires n <= LUAI_MAXVARS && |ts| <= 4 && forall i :: 0 <= i < |ts| ==> !ts[i].TLocal?
    ensures Roomy(n, ts)
  {
    NoLocals(ts);
  }

  lemma {:induction false} NoLocals(ts: seq<Token>)
    requires forall i :: 0 <= i < |ts| ==> !ts[i].TLocal?
    ensures LocalTokens(ts) == 0
  {
    if ts != [] { NoLocals(ts[1..]); }
  }

  lemma AtomEval(sem: Semantics, t: Token, x: Expr, n: int, args: Regs)
    requires StandsFor(t, x, n)
    ensures Eval(sem, x, args) == Some(TokenValue(t, args)) && !t.TLocal?
  {
  }

  lemma EvalGives(sem: Semantics, op: BinOpr, x: Expr, y: Expr, args: Regs)
    requires Eval(sem, x, args).Some? && Eval(sem, y, args).Some?
    ensures Gives(sem, op, Eval(sem, x, args).value, Eval(sem, y, args).value, Answer(Eval(sem, Binary(op, x, y), args)))
  {
  }

  lemma EvalCombines(sem: Semantics, op: BinOpr, x: Expr, y: Expr, args: Regs)
    ensures Combines(sem, op, Answer(Eval(sem, x, args)), Answer(Eval(sem, y, args)), Answer(Eval(sem, Binary(op, x, y), args)))
  {
    hide Gives;
    if Eval(sem, x, args).Some? && Eval(sem, y, args).Some? { EvalGives(sem, op, x, y, args); }
  }

  lemma EvalTransforms(sem: Semantics, op: UnOpr, x: Expr, args: Regs)
    ensures Transforms(sem, op, Answer(Eval(sem, x, args)), Answer(Eval(sem, Unary(op, x), args)))
  {
  }

  // ----- variables -----

  /** `c` is the result of reading local `q` after local `r` got the value that `a` returns. */
  ghost predicate Assigned(a: Outcome, r: nat, q: nat, args: Regs, c: Outcome) {
    && (a == Error ==> c == Error)
    && forall v :: a == Returned([v]) ==> c == Returned([if q == r then v else if q in args then args[q] else Nil])
  }

  /** `r = e return q`, for two parameters: only `r` has changed. */
  method CompileAssignment(env: Env, r: nat, q: nat, ts: seq<Token>, ghost x: Expr) returns (a: Result<Proto>, c: Result<Proto>)
    requires env.params < Patching.MAXSTACK && r < env.params && q < env.params && Derives(ts, x, 1, env.params)
    ensures a.Ok? && c.Ok? && |ts| + 5 <= LUAI_MAXCCALLS ==>
              forall args :: Clean(env, args) ==> Assigned(Result(env, a.value, args), r, q, args, Result(env, c.value, args))
  {
    hide Derives, Clean, Run, Chunk, Syntax.Execute, Assigned;
    a := CompileReturn(env, ts, x);
    c := CompileFunction(env, [TName(r), TAssign] + ts + [TReturn, TName(q)]);
    if |ts| + 5 <= LUAI_MAXCCALLS {
      TwoStats([TName(r), TAssign] + ts, SAssign(r, x), q, env.params);
      AssignmentIs(r, ts, x, env.params);
      forall args ensures Assigned(Answer(Eval(env.sem, x, args)), r, q, args,
                                   ChunkMeaning.Final(Syntax.Execute(env.sem, [SAssign(r, x), SReturn(Some(Local(q)))], env.params, args))) {
        TwoExecuted(env.sem, SAssign(r, x), q, env.params, args);
        StatAssigned(env.sem, SAssign(r, x), r, q, x, env.params, args);
      }
    }
  }

  /** `local l = e return q`, where `l` is the first local behind the parameters. */
  method CompileLocal(env: Env, q: nat, ts: seq<Token>, ghost x: Expr) returns (a: Result<Proto>, c: Result<Proto>)
    requires env.params < LUAI_MAXVARS && q <= env.params && Derives(ts, x, 1, env.params)
    ensures a.Ok? && c.Ok? && |ts| + 5 <= LUAI_MAXCCALLS ==>
              forall args :: Clean(env, args) ==> Assigned(Result(env, a.value, args), env.params, q, args, Result(env, c.value, args))
  {
    hide Derives, Clean, Run, Chunk, Syntax.Execute, Assigned;
    a := CompileReturn(env, ts, x);
    c := CompileFunction(env, [TLocal, TAssign] + ts + [TReturn, TName(q)]);
    if |ts| + 5 <= LUAI_MAXCCALLS {
      TwoStats([TLocal, TAssign] + ts, SLocal(Some(x)), q, env.params);
      DeclarationIs(ts, x, env.params);
      forall args ensures Assigned(Answer(Eval(env.sem, x, args)), env.params, q, args,
                                   ChunkMeaning.Final(Syntax.Execute(env.sem, [SLocal(Some(x)), SReturn(Some(Local(q)))], env.params, args))) {
        TwoExecuted(env.sem, SLocal(Some(x)), q, env.params, args);
        StatAssigned(env.sem, SLocal(Some(x)), env.params, q, x, env.params, args);
      }
    }
  }

  lemma AssignmentIs(r: nat, ts: seq<Token>, x: Expr, n: int)
    requires Derives(ts, x, 1, n) && r < n
    ensures ChunkGrammar.IsStat([TName(r), TAssign] + ts, SAssign(r, x), n)
  {
    NotEmpty(ts, x, 1, n);
    assert ([TName(r), TAssign] + ts)[2..] == ts;
  }

  lemma DeclarationIs(ts: seq<Token>, x: Expr, n: int)
    requires Derives(ts, x, 1, n) && n < LUAI_MAXVARS
    ensures ChunkGrammar.IsStat([TLocal, TAssign] + ts, SLocal(Some(x)), n)
  {
    NotEmpty(ts, x, 1, n);
    assert ([TLocal, TAssign] + ts)[2..] == ts;
  }

  lemma TwoStats(ts: seq<Token>, s: Stat, q: nat, n: int)
    requires q < ChunkGrammar.After(s, n) && !s.SReturn? && |ts| + 3 <= LUAI_MAXCCALLS && ts != []
    ensures ChunkGrammar.IsStat(ts, s, n) ==> Chunk([], ts + [TReturn, TName(q)], 1, n) == Ok([s, SReturn(Some(Local(q)))])
  {
    hide Chunk, ChunkGrammar.IsStat;
    var last := [TReturn, TName(q)];
    var m := ChunkGrammar.After(s, n);
    if ChunkGrammar.IsStat(ts, s, n) {
      ReturnIs(q, m);
      assert last[..2] == last && last[2..] == [];
      assert ChunkGrammar.IsChunk(last, [SReturn(Some(Local(q)))], m);
      var all := ts + last;
      assert all[..|ts|] == ts && all[|ts|..] == last;
      assert [s, SReturn(Some(Local(q)))][1..] == [SReturn(Some(Local(q)))];
      assert ChunkGrammar.IsChunk(all, [s, SReturn(Some(Local(q)))], n);
      ChunkGrammar.ReadIffChunk(all, [s, SReturn(Some(Local(q)))], 1, n);
    }
  }

  lemma ReturnIs(q: nat, n: int)
    requires q < n
    ensures ChunkGrammar.IsStat([TReturn, TName(q)], SReturn(Some(Local(q))), n)
  {
    AtomDerived(TName(q), Local(q), n);
    Weaken([TName(q)], Local(q), ATOM, 1, n);
    assert [TReturn, TName(q)][1..] == [TName(q)];
  }

  lemma TwoExecuted(sem: Semantics, s: Stat, q: nat, n: nat, args: Regs)
    ensures Syntax.Execute(sem, [s, SReturn(Some(Local(q)))], n, args) ==
            var p := ExecuteStat(sem, s, n, args);
            if p.Running? then Finished([Get(p.locals, q)]) else p
  {
    var stats := [s, SReturn(Some(Local(q)))];
    assert stats[..1] == [s] && [s][..0] == [];
    assert Syntax.Execute(sem, [s], n, args) == ExecuteStat(sem, s, n, args);
  }

  lemma StatAssigned(sem: Semantics, s: Stat, r: nat, q: nat, x: Expr, n: nat, args: Regs)
    requires s == SAssign(r, x) || (s == SLocal(Some(x)) && r == n)
    ensures var p := ExecuteStat(sem, s, n, args);
            Assigned(Answer(Eval(sem, x, args)), r, q, args, ChunkMeaning.Final(if p.Running? then Finished([Get(p.locals, q)]) else p))
  {
  }

  // ----- folded constants -----

  /** What the compiler computes itself: arithmetic on two numerals, but no division by zero. */
  lemma FoldTable(sem: Semantics, x: real, y: real)
    ensures var f := (op: BinOpr) => CodeGenerator.ConstFolding(sem, op, ExpDesc(VKNUM(x), NO_JUMP, NO_JUMP), ExpDesc(VKNUM(y), NO_JUMP, NO_JUMP));
            && f(OPR_ADD) == Some(sem.num(Add, x, y)) && f(OPR_SUB) == Some(sem.num(Sub, x, y)) && f(OPR_MUL) == Some(sem.num(Mul, x, y))
            && f(OPR_POW) == Some(sem.num(Pow, x, y))
            && f(OPR_DIV) == (if y == 0.0 then None else Some(sem.num(Div, x, y)))
            && f(OPR_MOD) == (if y == 0.0 then None else Some(sem.num(Mod, x, y)))
            && forall op :: op in {OPR_CONCAT, OPR_EQ, OPR_NE, OPR_LT, OPR_LE, OPR_GT, OPR_GE, OPR_AND, OPR_OR} ==> f(op) == None
  {
  }

  /** Nothing else is computed: not with jumps pending, and not on what is no numeral. */
  lemma FoldOnly(sem: Semantics, op: BinOpr, e1: ExpDesc, e2: ExpDesc)
    requires CodeGenerator.ConstFolding(sem, op, e1, e2).Some?
    ensures e1.k.VKNUM? && e1.t == NO_JUMP && e1.f == NO_JUMP && e2.k.VKNUM? && e2.t == NO_JUMP && e2.f == NO_JUMP
  {
  }
}
