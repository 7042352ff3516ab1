/** Expressions without side effects and their value (Lua 5.1 Reference Manual, section 2.5). */
module Expressions {
  import opened Wrappers
  import opened LuaVM

  datatype UnOpr = OPR_MINUS | OPR_NOT | OPR_LEN

  datatype BinOpr =
    | OPR_ADD | OPR_SUB | OPR_MUL | OPR_DIV | OPR_MOD | OPR_POW
    | OPR_CONCAT
    | OPR_NE | OPR_EQ
    | OPR_LT | OPR_LE | OPR_GT | OPR_GE
    | OPR_AND | OPR_OR

  /** A local variable is the register it lives in. */
  datatype Expr =
    | Constant(v: Value)
    | Local(r: nat)
    | Unary(uop: UnOpr, arg: Expr)
    | Binary(op: BinOpr, left: Expr, right: Expr)

  predicate IsArith(op: BinOpr) {
    op.OPR_ADD? || op.OPR_SUB? || op.OPR_MUL? || op.OPR_DIV? || op.OPR_MOD? || op.OPR_POW?
  }

  function ArithOf(op: BinOpr): ArithOp
    requires IsArith(op)
  {
    match op
    case OPR_ADD => Add
    case OPR_SUB => Sub
    case OPR_MUL => Mul
    case OPR_DIV => Div
    case OPR_MOD => Mod
    case OPR_POW => Pow
  }

  predicate IsCompare(op: BinOpr) {
    op.OPR_EQ? || op.OPR_NE? || op.OPR_LT? || op.OPR_LE? || op.OPR_GT? || op.OPR_GE?
  }

  function Test(sem: Semantics, op: CmpOp, v: Value, w: Value, sense: bool): Option<Value> {
    match sem.compare(op, v, w)
    case None => None
    case Some(b) => Some(Bool(b == sense))
  }

  /** A binary operator on two values: `a > b` is `b < a`, `a ~= b` is `not (a == b)`. */
  function Apply(sem: Semantics, op: BinOpr, v: Value, w: Value): Option<Value>
    requires !op.OPR_AND? && !op.OPR_OR?
  {
    if IsArith(op) then Arith(sem, ArithOf(op), v, w)
    else
      match op
      case OPR_CONCAT => sem.concat(v, w)
      case OPR_EQ => Test(sem, Eq, v, w, true)
      case OPR_NE => Test(sem, Eq, v, w, false)
      case OPR_LT => Test(sem, Lt, v, w, true)
      case OPR_LE => Test(sem, Le, v, w, true)
      case OPR_GT => Test(sem, Lt, w, v, true)
      case OPR_GE => Test(sem, Le, w, v, true)
  }

  function ApplyUnary(sem: Semantics, op: UnOpr, v: Value): Option<Value> {
    match op
    case OPR_MINUS => Negate(sem, v)
    case OPR_NOT => Some(Bool(!Truthy(v)))
    case OPR_LEN => sem.len(v)
  }

  function Eval(sem: Semantics, e: Expr, locals: Regs): Option<Value> {
    match e
    case Constant(v) => Some(v)
    case Local(r) => Some(Get(locals, r))
    case Unary(op, a) =>
      (match Eval(sem, a, locals)
       case None => None
       case Some(v) => ApplyUnary(sem, op, v))
    case Binary(op, a, b) =>
      match Eval(sem, a, locals)
      case None => None
      case Some(v) =>
        if op == OPR_AND then (if Truthy(v) then Eval(sem, b, locals) else Some(v))
        else if op == OPR_OR then (if Truthy(v) then Some(v) else Eval(sem, b, locals))
        else
          match Eval(sem, b, locals)
          case None => None
          case Some(w) => Apply(sem, op, v, w)
  }

  /** Every local is below `n`, and every constant is one an expression can be. */
  predicate Scoped(e: Expr, n: int) {
    match e
    case Constant(v) => !v.Object?
    case Local(r) => r < n
    case Unary(_, a) => Scoped(a, n)
    case Binary(_, a, b) => Scoped(a, n) && Scoped(b, n)
  }

  lemma {:induction false} EvalAgrees(sem: Semantics, e: Expr, n: int, regs: Regs, regs': Regs)
    requires Scoped(e, n) && forall r :: 0 <= r < n ==> Get(regs', r) == Get(regs, r)
    ensures Eval(sem, e, regs') == Eval(sem, e, regs)
  {
    match e
    case Constant(v) =>
    case Local(r) =>
    case Unary(_, a) => EvalAgrees(sem, a, n, regs, regs');
    case Binary(_, a, b) =>
      EvalAgrees(sem, a, n, regs, regs');
      EvalAgrees(sem, b, n, regs, regs');
  }
}
