/** The grammar of expressions by levels of precedence (Lua 5.1 Reference Manual, section 2.5.6), and
    that operator precedence parsing with the priorities of lparser.c:811-858 recognises it. */
module Precedence {
  import opened Wrappers
  import opened LuaVM
  import opened Expressions
  import opened Syntax

  // ----- the manual -----

  /** The binary operators from lower to higher precedence. The unary operators are at level 7. */
  const PRECEDENCE: seq<set<BinOpr>> := [
    {},
    {OPR_OR},
    {OPR_AND},
    {OPR_LT, OPR_GT, OPR_LE, OPR_GE, OPR_NE, OPR_EQ},
    {OPR_CONCAT},
    {OPR_ADD, OPR_SUB},
    {OPR_MUL, OPR_DIV, OPR_MOD},
    {},
    {OPR_POW}]

  const UNARY := 7
  const ATOM := 9

  predicate AtLevel(op: BinOpr, lvl: int) { 0 <= lvl < ATOM && op in PRECEDENCE[lvl] }

  predicate RightAssociative(op: BinOpr) { op.OPR_CONCAT? || op.OPR_POW? }

  /** The level of the operands of a binary operator at `lvl`: all operators are left associative, but
      for `..` and `^`; the right operand of `^` may be a unary expression. */
  function LeftLevel(op: BinOpr, lvl: nat): nat { if RightAssociative(op) then lvl + 1 else lvl }

  function RightLevel(op: BinOpr, lvl: nat): nat {
    if op.OPR_POW? then UNARY else if RightAssociative(op) then lvl else lvl + 1
  }

  predicate StandsFor(t: Token, e: Expr, n: int) {
    match t
    case TNil => e == Constant(Nil)
    case TTrue => e == Constant(Bool(true))
    case TFalse => e == Constant(Bool(false))
    case TNumber(x) => e == Constant(Number(x))
    case TString(s) => e == Constant(String(s))
    case TName(r) => r < n && e == Local(r)
    case _ => false
  }

  predicate IsUnary(t: Token, op: UnOpr) {
    (t == TNot && op == OPR_NOT) || (t == TOp(OPR_SUB) && op == OPR_MINUS) || (t == THash && op == OPR_LEN)
  }

  /** `ts` is the expression `e`, no operator outside parentheses being below level `lvl`. */
  ghost predicate Derives(ts: seq<Token>, e: Expr, lvl: nat, n: int)
    requires lvl <= ATOM
    decreases |ts|, ATOM - lvl
  {
    if lvl == ATOM then
      (|ts| == 1 && StandsFor(ts[0], e, n)) ||
      (|ts| > 2 && ts[0] == TOpen && ts[|ts| - 1] == TClose && Derives(ts[1..|ts| - 1], e, 1, n))
    else
      Derives(ts, e, lvl + 1, n) ||
      (lvl == UNARY && e.Unary? && |ts| > 1 && IsUnary(ts[0], e.uop) && Derives(ts[1..], e.arg, UNARY, n)) ||
      (e.Binary? && AtLevel(e.op, lvl) &&
       exists i :: 0 < i < |ts| - 1 && ts[i] == TOp(e.op) &&
                   Derives(ts[..i], e.left, LeftLevel(e.op, lvl), n) && Derives(ts[i + 1..], e.right, RightLevel(e.op, lvl), n))
  }

  // ----- the priorities are those of the levels -----

  /** The operators that a loop with `limit` takes are those from this level up. */
  function LevelFor(limit: nat): nat {
    if limit <= 3 then limit + 1 else if limit <= 6 then limit else UNARY
  }

  lemma LevelOf(op: BinOpr) returns (lvl: nat)
    ensures AtLevel(op, lvl) && 1 <= lvl < ATOM && lvl != UNARY
    ensures forall limit :: 0 <= limit <= 9 ==> (LeftPriority(op) > limit <==> lvl >= LevelFor(limit))
    ensures LevelFor(RightPriority(op)) == RightLevel(op, lvl) && RightPriority(op) <= 9
    ensures RightAssociative(op) <==> lvl == 4 || lvl == 8
    ensures op.OPR_POW? <==> lvl == 8
  {
    lvl := match op
      case OPR_OR => 1
      case OPR_AND => 2
      case OPR_CONCAT => 4
      case OPR_ADD | OPR_SUB => 5
      case OPR_MUL | OPR_DIV | OPR_MOD => 6
      case OPR_POW => 8
      case _ => 3;
    assert op in PRECEDENCE[lvl];
  }

  lemma LevelUnique(op: BinOpr, l: int, l': int)
    requires AtLevel(op, l) && AtLevel(op, l')
    ensures l == l'
  {
  }

  // ----- derivations -----

  lemma {:induction false} NotEmpty(ts: seq<Token>, e: Expr, lvl: nat, n: int)
    requires lvl <= ATOM && Derives(ts, e, lvl, n)
    ensures ts != []
    decreases ATOM - lvl
  {
    if lvl < ATOM && Derives(ts, e, lvl + 1, n) { NotEmpty(ts, e, lvl + 1, n); }
  }

  /** What is derived at a level is so at each lower one. */
  lemma {:induction false} Weaken(ts: seq<Token>, e: Expr, lvl: nat, lower: nat, n: int)
    requires lower <= lvl <= ATOM && Derives(ts, e, lvl, n)
    ensures Derives(ts, e, lower, n)
    decreases lvl - lower
  {
    if lower < lvl { Weaken(ts, e, lvl, lower + 1, n); }
  }

  lemma DeriveBinary(a: seq<Token>, op: BinOpr, b: seq<Token>, left: Expr, right: Expr, lvl: nat, n: int)
    requires AtLevel(op, lvl) && LeftLevel(op, lvl) <= ATOM && RightLevel(op, lvl) <= ATOM
    requires Derives(a, left, LeftLevel(op, lvl), n) && Derives(b, right, RightLevel(op, lvl), n)
    ensures Derives(a + [TOp(op)] + b, Binary(op, left, right), lvl, n)
  {
    var ts := a + [TOp(op)] + b;
    NotEmpty(a, left, LeftLevel(op, lvl), n);
    NotEmpty(b, right, RightLevel(op, lvl), n);
    assert ts[|a|] == TOp(op) && ts[..|a|] == a && ts[|a| + 1..] == b;
  }

  lemma DeriveUnary(t: Token, op: UnOpr, a: seq<Token>, arg: Expr, n: int)
    requires IsUnary(t, op) && Derives(a, arg, UNARY, n)
    ensures Derives([t] + a, Unary(op, arg), UNARY, n)
  {
    NotEmpty(a, arg, UNARY, n);
    assert ([t] + a)[1..] == a;
  }

  lemma DeriveParentheses(a: seq<Token>, e: Expr, n: int)
    requires Derives(a, e, 1, n)
    ensures Derives([TOpen] + a + [TClose], e, ATOM, n)
  {
    NotEmpty(a, e, 1, n);
    var ts := [TOpen] + a + [TClose];
    assert ts[1..|ts| - 1] == a;
  }

  // ----- what is parsed is derived -----

  /** `r` takes tokens of `ts` that, after those in `before`, are an expression at level `lvl`. */
  ghost predicate Takes(before: seq<Token>, ts: seq<Token>, r: Parsed, lvl: nat, n: int)
    requires lvl <= ATOM
  {
    |r.rest| <= |ts| &&
    var k := |ts| - |r.rest|;
    r.rest == ts[k..] && Derives(before + ts[..k], r.e, lvl, n)
  }

  /** The next token is no operator that a loop with `limit` takes. */
  predicate EndsAt(ts: seq<Token>, limit: nat) {
    First(ts).TOp? ==> LeftPriority(First(ts).op) <= limit
  }

  /** The next token is no operator that wants its left operand above `lvl`. */
  ghost predicate Accepts(ts: seq<Token>, lvl: nat) {
    forall l: nat :: First(ts).TOp? && AtLevel(First(ts).op, l) ==> LeftLevel(First(ts).op, l) <= lvl
  }

  /** Every expression that is parsed is derived by the grammar from the tokens it takes, at the level
      that belongs to the limit, and the next token is not an operator of that level. */
  lemma {:induction false} SubExprSound(ts: seq<Token>, limit: nat, level: nat, n: int)
    requires limit <= 9
    ensures var r := SubExpr(ts, limit, level, n); r.Ok? ==> Takes([], ts, r.value, LevelFor(limit), n) && EndsAt(r.value.rest, limit)
    decreases |ts|, 2
  {
    hide Derives, Accepts, EndsAt, Loop, Operand;
    if level + 1 <= LUAI_MAXCCALLS {
      OperandSound(ts, level + 1, n);
      var a := Operand(ts, level + 1, n);
      if a.Ok? {
        var k := |ts| - |a.value.rest|;
        var lvl := if GetUnOpr(First(ts)).Some? then UNARY else ATOM;
        assert [] + ts[..k] == ts[..k];
        LoopSound(ts[..k], a.value.e, a.value.rest, lvl, limit, level + 1, n);
        var r := Loop(a.value.e, a.value.rest, limit, level + 1, n);
        if r.Ok? { Appended([], ts, k, r.value, LevelFor(limit), n); }
      }
    }
  }

  lemma Appended(before: seq<Token>, ts: seq<Token>, k: nat, r: Parsed, lvl: nat, n: int)
    requires k <= |ts| && lvl <= ATOM && Takes(before + ts[..k], ts[k..], r, lvl, n)
    ensures Takes(before, ts, r, lvl, n)
  {
    hide Derives;
    var j := |ts[k..]| - |r.rest|;
    Slices(before, ts, k, j);
  }

  lemma Slices(before: seq<Token>, ts: seq<Token>, k: nat, j: nat)
    requires k + j <= |ts|
    ensures before + ts[..k] + ts[k..][..j] == before + ts[..k + j] && ts[k..][j..] == ts[k + j..]
  {
    assert ts[..k] + ts[k..][..j] == ts[..k + j];
    assert before + (ts[..k] + ts[k..][..j]) == before + ts[..k] + ts[k..][..j];
  }

  lemma {:induction false} OperandSound(ts: seq<Token>, level: nat, n: int)
    ensures var r := Operand(ts, level, n);
            r.Ok? ==> var lvl := if GetUnOpr(First(ts)).Some? then UNARY else ATOM;
                      Takes([], ts, r.value, lvl, n) && Accepts(r.value.rest, lvl)
    decreases |ts|, 1
  {
    var uop := GetUnOpr(First(ts));
    if uop.Some? {
      SubExprSound(ts[1..], UNARY_PRIORITY, level, n);
      var a := SubExpr(ts[1..], UNARY_PRIORITY, level, n);
      if a.Ok? {
        var k := |ts| - |a.value.rest|;
        assert [] + ts[1..][..k - 1] == ts[1..k];
        DeriveUnary(ts[0], uop.value, ts[1..k], a.value.e, n);
        assert [] + ts[..k] == [ts[0]] + ts[1..k];
        UnaryAccepts(a.value.rest);
      }
    } else {
      SimpleSound(ts, level, n);
      var r := Operand(ts, level, n);
      if r.Ok? { AtomAccepts(First(r.value.rest)); }
    }
  }

  lemma {:induction false} SimpleSound(ts: seq<Token>, level: nat, n: int)
    ensures var r := SimpleExpr(ts, level, n); r.Ok? ==> Takes([], ts, r.value, ATOM, n)
    decreases |ts|, 0
  {
    hide Derives, StandsFor;
    if First(ts).TOpen? {
      SubExprSound(ts[1..], 0, level, n);
      var a := SubExpr(ts[1..], 0, level, n);
      if a.Ok? && First(a.value.rest).TClose? {
        var k := |ts| - |a.value.rest|;
        assert [] + ts[1..][..k - 1] == ts[1..k];
        DeriveParentheses(ts[1..k], a.value.e, n);
        assert [] + ts[..k + 1] == [TOpen] + ts[1..k] + [TClose];
      }
    } else if Atom(First(ts), n).Some? {
      AtomStands(ts[0], n);
      assert [] + ts[..1] == [ts[0]];
    }
  }

  lemma AtomStands(t: Token, n: int)
    ensures match Atom(t, n)
            case None => forall e :: !StandsFor(t, e, n)
            case Some(e) => Derives([t], e, ATOM, n) && forall e' :: StandsFor(t, e', n) ==> e' == e
  {
  }

  lemma AtomAccepts(t: Token)
    ensures forall l: nat :: t.TOp? && AtLevel(t.op, l) ==> LeftLevel(t.op, l) <= ATOM
  {
  }

  /** A unary operand ends before every operator but `^`. */
  lemma UnaryAccepts(ts: seq<Token>)
    requires EndsAt(ts, UNARY_PRIORITY)
    ensures Accepts(ts, UNARY)
  {
    if First(ts).TOp? {
      var op := First(ts).op;
      var lvl := LevelOf(op);
      forall l: nat | AtLevel(op, l) ensures LeftLevel(op, l) <= UNARY { LevelUnique(op, l, lvl); }
    }
  }

  /** After an operation at `lvl` only operators follow that take it as their left operand. */
  lemma OperationAccepts(op: BinOpr, lvl: nat, ts: seq<Token>)
    requires AtLevel(op, lvl) && EndsAt(ts, RightPriority(op))
    ensures Accepts(ts, lvl)
  {
    if First(ts).TOp? {
      var next := First(ts).op;
      var l0 := LevelOf(op);
      LevelUnique(op, lvl, l0);
      var l1 := LevelOf(next);
      forall l: nat | AtLevel(next, l) ensures LeftLevel(next, l) <= lvl { LevelUnique(next, l, l1); }
    }
  }

  /** One turn of the loop: the operator takes what was read as its left operand. */
  lemma LoopStep(before: seq<Token>, left: Expr, ts: seq<Token>, lvl: nat, l: nat, b: Parsed, n: int)
    requires lvl <= ATOM && Derives(before, left, lvl, n) && Accepts(ts, lvl) && ts != [] && ts[0].TOp? && AtLevel(ts[0].op, l)
    requires RightLevel(ts[0].op, l) <= ATOM && Takes([], ts[1..], b, RightLevel(ts[0].op, l), n)
    ensures Takes(before, ts, Parsed(Binary(ts[0].op, left, b.e), b.rest), l, n)
  {
    hide Derives;
    var k := |ts| - |b.rest|;
    assert [] + ts[1..][..k - 1] == ts[1..k];
    assert AtLevel(First(ts).op, l);
    Weaken(before, left, lvl, LeftLevel(ts[0].op, l), n);
    DeriveBinary(before, ts[0].op, ts[1..k], left, b.e, l, n);
    assert before + [ts[0]] + ts[1..k] == before + ts[..k];
  }

  lemma {:induction false} LoopSound(before: seq<Token>, left: Expr, ts: seq<Token>, lvl: nat, limit: nat, level: nat, n: int)
    requires limit <= 9 && lvl <= ATOM && Derives(before, left, lvl, n) && Accepts(ts, lvl) && lvl >= LevelFor(limit)
    ensures var r := Loop(left, ts, limit, level, n); r.Ok? ==> Takes(before, ts, r.value, LevelFor(limit), n) && EndsAt(r.value.rest, limit)
    decreases |ts|, 0
  {
    hide Derives, SubExpr, AtLevel, Accepts, EndsAt, RightLevel, LeftLevel;
    var op := GetBinOpr(First(ts));
    if op.Some? && LeftPriority(op.value) > limit {
      var l := LevelOf(op.value);
      SubExprSound(ts[1..], RightPriority(op.value), level, n);
      var b := SubExpr(ts[1..], RightPriority(op.value), level, n);
      if b.Ok? {
        var k := |ts| - |b.value.rest|;
        LoopStep(before, left, ts, lvl, l, b.value, n);
        OperationAccepts(op.value, l, b.value.rest);
        LoopSound(before + ts[..k], Binary(op.value, left, b.value.e), b.value.rest, l, limit, level, n);
        var r := Loop(Binary(op.value, left, b.value.e), b.value.rest, limit, level, n);
        if r.Ok? { Appended(before, ts, k, r.value, LevelFor(limit), n); }
      }
    } else {
      LoopStops(before, left, ts, lvl, limit, n);
    }
  }

  lemma LoopStops(before: seq<Token>, left: Expr, ts: seq<Token>, lvl: nat, limit: nat, n: int)
    requires limit <= 9 && lvl <= ATOM && Derives(before, left, lvl, n) && lvl >= LevelFor(limit)
    requires First(ts).TOp? ==> LeftPriority(First(ts).op) <= limit
    ensures Takes(before, ts, Parsed(left, ts), LevelFor(limit), n) && EndsAt(ts, limit)
  {
    hide Derives;
    assert before + ts[..0] == before;
    Weaken(before, left, lvl, LevelFor(limit), n);
  }

  // ----- what is derived is parsed -----

  /** Binary operators below this level can follow an expression at level `lvl`. */
  function Below(lvl: nat): nat {
    if lvl == ATOM then ATOM else if lvl >= 6 then UNARY else if lvl == 4 then 4 else lvl + 1
  }

  ghost predicate CanEnd(rest: seq<Token>, lvl: nat) {
    !StartsCall(First(rest)) && forall l: nat :: First(rest).TOp? && AtLevel(First(rest).op, l) ==> l < Below(lvl)
  }

  /** Reading `ts` in front of `rest` brings `subexpr` to its loop with `e` in hand, unless that is too deep. */
  ghost predicate Read(ts: seq<Token>, e: Expr, limit: nat, rest: seq<Token>, level: nat, n: int) {
    var r := SubExpr(ts + rest, limit, level, n);
    r == Loop(e, rest, limit, level + 1, n) || (r == TooDeep && level + |ts| > LUAI_MAXCCALLS)
  }

  lemma LoopEnds(e: Expr, rest: seq<Token>, lvl: nat, limit: nat, level: nat, n: int)
    requires CanEnd(rest, lvl) && limit <= 9 && LevelFor(limit) >= Below(lvl)
    ensures Loop(e, rest, limit, level, n) == Ok(Parsed(e, rest))
  {
    if First(rest).TOp? { var l := LevelOf(First(rest).op); }
  }

  lemma {:induction false} DerivedRead(ts: seq<Token>, e: Expr, lvl: nat, limit: nat, rest: seq<Token>, level: nat, n: int)
    requires 1 <= lvl <= ATOM && limit <= 9 && lvl >= LevelFor(limit)
    requires Derives(ts, e, lvl, n) && CanEnd(rest, lvl)
    ensures Read(ts, e, limit, rest, level, n)
    decreases |ts|, ATOM - lvl
  {
    hide Read, CanEnd, Derives;
    if lvl == ATOM {
      DerivedAtom(ts, e, n);
      if |ts| == 1 {
        AtomRead(ts[0], e, limit, rest, level, n);
      } else {
        var inner := ts[1..|ts| - 1];
        ClosedEnds(rest);
        DerivedRead(inner, e, 1, 0, [TClose] + rest, level + 1, n);
        ParenthesesRead(inner, e, limit, rest, level, n);
      }
    } else if Derives(ts, e, lvl + 1, n) {
      HigherEnds(rest, lvl);
      DerivedRead(ts, e, lvl + 1, limit, rest, level, n);
    } else if e.Unary? {
      DerivedUnary(ts, e, lvl, n);
      DerivedRead(ts[1..], e.arg, UNARY, UNARY_PRIORITY, rest, level + 1, n);
      UnaryRead(ts[0], e.uop, ts[1..], e.arg, limit, rest, level, n);
    } else {
      var i := DerivedBinary(ts, e, lvl, n);
      var op, a, b := e.op, ts[..i], ts[i + 1..];
      var tail := [TOp(op)] + (b + rest);
      OperandsEnd(op, lvl, tail, rest);
      DerivedRead(a, e.left, LeftLevel(op, lvl), limit, tail, level, n);
      DerivedRead(b, e.right, RightLevel(op, lvl), RightPriority(op), rest, level + 1, n);
      BinaryRead(a, op, b, e.left, e.right, lvl, limit, rest, level, n);
    }
  }

  lemma DerivedAtom(ts: seq<Token>, e: Expr, n: int)
    requires Derives(ts, e, ATOM, n)
    ensures if |ts| == 1 then StandsFor(ts[0], e, n) && ts == [ts[0]]
            else |ts| > 2 && Derives(ts[1..|ts| - 1], e, 1, n) && ts == [TOpen] + ts[1..|ts| - 1] + [TClose]
  {
  }

  lemma DerivedUnary(ts: seq<Token>, e: Expr, lvl: nat, n: int)
    requires lvl < ATOM && Derives(ts, e, lvl, n) && !Derives(ts, e, lvl + 1, n) && e.Unary?
    ensures lvl == UNARY && |ts| > 1 && IsUnary(ts[0], e.uop) && Derives(ts[1..], e.arg, UNARY, n) && ts == [ts[0]] + ts[1..]
  {
  }

  lemma DerivedBinary(ts: seq<Token>, e: Expr, lvl: nat, n: int) returns (i: nat)
    requires lvl < ATOM && Derives(ts, e, lvl, n) && !Derives(ts, e, lvl + 1, n) && !e.Unary?
    ensures e.Binary? && AtLevel(e.op, lvl) && 0 < i < |ts| - 1 && ts == ts[..i] + [TOp(e.op)] + ts[i + 1..]
    ensures Derives(ts[..i], e.left, LeftLevel(e.op, lvl), n) && Derives(ts[i + 1..], e.right, RightLevel(e.op, lvl), n)
  {
    i :| 0 < i < |ts| - 1 && ts[i] == TOp(e.op) &&
         Derives(ts[..i], e.left, LeftLevel(e.op, lvl), n) && Derives(ts[i + 1..], e.right, RightLevel(e.op, lvl), n);
  }

  lemma ClosedEnds(rest: seq<Token>)
    ensures CanEnd([TClose] + rest, 1)
  {
  }

  lemma HigherEnds(rest: seq<Token>, lvl: nat)
    requires CanEnd(rest, lvl) && lvl < ATOM
    ensures CanEnd(rest, lvl + 1)
  {
  }

  lemma OperandsEnd(op: BinOpr, lvl: nat, tail: seq<Token>, rest: seq<Token>)
    requires AtLevel(op, lvl) && CanEnd(rest, lvl) && tail != [] && tail[0] == TOp(op)
    ensures CanEnd(tail, LeftLevel(op, lvl)) && CanEnd(rest, RightLevel(op, lvl))
    ensures LeftLevel(op, lvl) >= lvl && LevelFor(RightPriority(op)) == RightLevel(op, lvl) && RightPriority(op) <= 9
    ensures RightLevel(op, lvl) >= Below(lvl)
  {
    var l0 := LevelOf(op);
    LevelUnique(op, lvl, l0);
    forall l: nat | AtLevel(op, l) ensures l == lvl { LevelUnique(op, l, lvl); }
  }

  lemma AtomRead(t: Token, e: Expr, limit: nat, rest: seq<Token>, level: nat, n: int)
    requires StandsFor(t, e, n) && CanEnd(rest, ATOM)
    ensures Read([t], e, limit, rest, level, n)
  {
    var ts := [t] + rest;
    assert ts[1..] == rest;
    assert Operand(ts, level + 1, n) == Ok(Parsed(e, rest));
  }

  lemma ParenthesesRead(a: seq<Token>, e: Expr, limit: nat, rest: seq<Token>, level: nat, n: int)
    requires Read(a, e, 0, [TClose] + rest, level + 1, n) && CanEnd(rest, ATOM)
    ensures Read([TOpen] + a + [TClose], e, limit, rest, level, n)
  {
    var inner := a + ([TClose] + rest);
    assert [TOpen] + a + [TClose] + rest == [TOpen] + inner;
    assert ([TOpen] + inner)[1..] == inner && ([TClose] + rest)[1..] == rest;
    assert Operand([TOpen] + inner, level + 1, n) == SimpleExpr([TOpen] + inner, level + 1, n);
  }

  lemma UnaryRead(t: Token, op: UnOpr, a: seq<Token>, arg: Expr, limit: nat, rest: seq<Token>, level: nat, n: int)
    requires IsUnary(t, op) && Read(a, arg, UNARY_PRIORITY, rest, level + 1, n) && CanEnd(rest, UNARY)
    ensures Read([t] + a, Unary(op, arg), limit, rest, level, n)
  {
    LoopEnds(arg, rest, UNARY, UNARY_PRIORITY, level + 2, n);
    assert [t] + a + rest == [t] + (a + rest);
    assert ([t] + (a + rest))[1..] == a + rest;
  }

  lemma BinaryRead(a: seq<Token>, op: BinOpr, b: seq<Token>, left: Expr, right: Expr, lvl: nat, limit: nat, rest: seq<Token>, level: nat, n: int)
    requires AtLevel(op, lvl) && limit <= 9 && lvl >= LevelFor(limit) && CanEnd(rest, lvl) && a != []
    requires LevelFor(RightPriority(op)) >= Below(lvl) && RightPriority(op) <= 9
    requires Read(a, left, limit, [TOp(op)] + (b + rest), level, n)
    requires Read(b, right, RightPriority(op), rest, level + 1, n)
    ensures Read(a + [TOp(op)] + b, Binary(op, left, right), limit, rest, level, n)
  {
    hide SubExpr;
    var l0 := LevelOf(op);
    LevelUnique(op, lvl, l0);
    LoopEnds(right, rest, lvl, RightPriority(op), level + 2, n);
    var tail := [TOp(op)] + (b + rest);
    assert a + [TOp(op)] + b + rest == a + tail;
    assert tail[1..] == b + rest;
  }

  // ----- what follows -----

  /** Tokens are parsed as an expression exactly when the grammar derives it from them, up to the limit
      on nesting. */
  lemma ParsedIffDerived(ts: seq<Token>, e: Expr, level: nat, n: int)
    ensures SubExpr(ts, 0, level, n) == Ok(Parsed(e, [])) ==> Derives(ts, e, 1, n)
    ensures Derives(ts, e, 1, n) && level + |ts| <= LUAI_MAXCCALLS ==> SubExpr(ts, 0, level, n) == Ok(Parsed(e, []))
  {
    SubExprSound(ts, 0, level, n);
    assert [] + ts[..|ts|] == ts && ts + [] == ts;
    if Derives(ts, e, 1, n) { DerivedRead(ts, e, 1, 0, [], level, n); }
  }

  /** The grammar is not ambiguous. */
  lemma DerivedOnce(ts: seq<Token>, e: Expr, e': Expr, n: int)
    requires Derives(ts, e, 1, n) && Derives(ts, e', 1, n) && |ts| <= LUAI_MAXCCALLS
    ensures e == e'
  {
    ParsedIffDerived(ts, e, 0, n);
    ParsedIffDerived(ts, e', 0, n);
  }

  // ----- three operands -----

  /** Of `o1` and `o2` after it the second takes the operand between them. */
  ghost predicate SecondFirst(o1: BinOpr, o2: BinOpr) {
    exists l1, l2 :: AtLevel(o1, l1) && AtLevel(o2, l2) && (l2 > l1 || (l2 == l1 && RightAssociative(o1)))
  }

  /** `a o1 b o2 c` is `a o1 (b o2 c)` where `o2` has the higher precedence, or the same and both are
      right associative, and `(a o1 b) o2 c` otherwise. */
  lemma ThreeOperands(a: Token, o1: BinOpr, b: Token, o2: BinOpr, c: Token, x: Expr, y: Expr, z: Expr, level: nat, n: int)
    requires StandsFor(a, x, n) && StandsFor(b, y, n) && StandsFor(c, z, n) && level + 5 <= LUAI_MAXCCALLS
    ensures SubExpr([a, TOp(o1), b, TOp(o2), c], 0, level, n) ==
            Ok(Parsed(if SecondFirst(o1, o2) then Binary(o1, x, Binary(o2, y, z)) else Binary(o2, Binary(o1, x, y), z), []))
  {
    hide Derives, StandsFor, SecondFirst, AtLevel, SubExpr;
    var l1 := LevelOf(o1);
    var l2 := LevelOf(o2);
    Order(o1, o2, l1, l2);
    AtomDerived(a, x, n);
    AtomDerived(b, y, n);
    AtomDerived(c, z, n);
    var ts := [a, TOp(o1), b, TOp(o2), c];
    if SecondFirst(o1, o2) {
      RightNested(a, o1, b, o2, c, x, y, z, l1, l2, n);
      ParsedIffDerived(ts, Binary(o1, x, Binary(o2, y, z)), level, n);
    } else {
      LeftNested(a, o1, b, o2, c, x, y, z, l1, l2, n);
      ParsedIffDerived(ts, Binary(o2, Binary(o1, x, y), z), level, n);
    }
  }

  lemma Order(o1: BinOpr, o2: BinOpr, l1: nat, l2: nat)
    requires AtLevel(o1, l1) && AtLevel(o2, l2)
    ensures SecondFirst(o1, o2) <==> (l2 > l1 || (l2 == l1 && RightAssociative(o1)))
  {
    forall l, l' | AtLevel(o1, l) && AtLevel(o2, l') ensures l == l1 && l' == l2 { LevelUnique(o1, l, l1); LevelUnique(o2, l', l2); }
  }

  lemma RightNested(a: Token, o1: BinOpr, b: Token, o2: BinOpr, c: Token, x: Expr, y: Expr, z: Expr, l1: nat, l2: nat, n: int)
    requires Derives([a], x, ATOM, n) && Derives([b], y, ATOM, n) && Derives([c], z, ATOM, n)
    requires AtLevel(o1, l1) && AtLevel(o2, l2) && l1 >= 1 && RightLevel(o1, l1) <= l2
    ensures Derives([a, TOp(o1), b, TOp(o2), c], Binary(o1, x, Binary(o2, y, z)), 1, n)
  {
    hide Derives;
    Pair(b, o2, c, y, z, l2, n);
    Weaken([b, TOp(o2), c], Binary(o2, y, z), l2, RightLevel(o1, l1), n);
    Weaken([a], x, ATOM, LeftLevel(o1, l1), n);
    DeriveBinary([a], o1, [b, TOp(o2), c], x, Binary(o2, y, z), l1, n);
    assert [a] + [TOp(o1)] + [b, TOp(o2), c] == [a, TOp(o1), b, TOp(o2), c];
    Weaken([a, TOp(o1), b, TOp(o2), c], Binary(o1, x, Binary(o2, y, z)), l1, 1, n);
  }

  lemma LeftNested(a: Token, o1: BinOpr, b: Token, o2: BinOpr, c: Token, x: Expr, y: Expr, z: Expr, l1: nat, l2: nat, n: int)
    requires Derives([a], x, ATOM, n) && Derives([b], y, ATOM, n) && Derives([c], z, ATOM, n)
    requires AtLevel(o1, l1) && AtLevel(o2, l2) && l2 >= 1 && LeftLevel(o2, l2) <= l1
    ensures Derives([a, TOp(o1), b, TOp(o2), c], Binary(o2, Binary(o1, x, y), z), 1, n)
  {
    hide Derives;
    Pair(a, o1, b, x, y, l1, n);
    Weaken([a, TOp(o1), b], Binary(o1, x, y), l1, LeftLevel(o2, l2), n);
    Weaken([c], z, ATOM, RightLevel(o2, l2), n);
    DeriveBinary([a, TOp(o1), b], o2, [c], Binary(o1, x, y), z, l2, n);
    assert [a, TOp(o1), b] + [TOp(o2)] + [c] == [a, TOp(o1), b, TOp(o2), c];
    Weaken([a, TOp(o1), b, TOp(o2), c], Binary(o2, Binary(o1, x, y), z), l2, 1, n);
  }

  lemma AtomDerived(t: Token, e: Expr, n: int)
    requires StandsFor(t, e, n)
    ensures Derives([t], e, ATOM, n)
  {
  }

  lemma Pair(a: Token, op: BinOpr, b: Token, x: Expr, y: Expr, lvl: nat, n: int)
    requires Derives([a], x, ATOM, n) && Derives([b], y, ATOM, n) && AtLevel(op, lvl)
    ensures Derives([a, TOp(op), b], Binary(op, x, y), lvl, n)
  {
    hide Derives;
    Weaken([a], x, ATOM, LeftLevel(op, lvl), n);
    Weaken([b], y, ATOM, RightLevel(op, lvl), n);
    DeriveBinary([a], op, [b], x, y, lvl, n);
    assert [a] + [TOp(op)] + [b] == [a, TOp(op), b];
  }

  /** `-a o b` is `-(a o b)` for `^` and `(-a) o b` for every other operator, and so with `not` and `#`. */
  lemma UnaryAndBinary(t: Token, uop: UnOpr, a: Token, op: BinOpr, b: Token, x: Expr, y: Expr, level: nat, n: int)
    requires IsUnary(t, uop) && StandsFor(a, x, n) && StandsFor(b, y, n) && level + 4 <= LUAI_MAXCCALLS
    ensures SubExpr([t, a, TOp(op), b], 0, level, n) ==
            Ok(Parsed(if op.OPR_POW? then Unary(uop, Binary(op, x, y)) else Binary(op, Unary(uop, x), y), []))
  {
    hide Derives, StandsFor, IsUnary;
    var lvl := LevelOf(op);
    AtomDerived(a, x, n);
    AtomDerived(b, y, n);
    var ts := [t, a, TOp(op), b];
    if op.OPR_POW? {
      Pair(a, op, b, x, y, lvl, n);
      Weaken([a, TOp(op), b], Binary(op, x, y), lvl, UNARY, n);
      DeriveUnary(t, uop, [a, TOp(op), b], Binary(op, x, y), n);
      assert [t] + [a, TOp(op), b] == ts;
      Weaken(ts, Unary(uop, Binary(op, x, y)), UNARY, 1, n);
      ParsedIffDerived(ts, Unary(uop, Binary(op, x, y)), level, n);
    } else {
      Weaken([a], x, ATOM, UNARY, n);
      DeriveUnary(t, uop, [a], x, n);
      assert [t] + [a] == [t, a];
      Weaken([t, a], Unary(uop, x), UNARY, LeftLevel(op, lvl), n);
      Weaken([b], y, ATOM, RightLevel(op, lvl), n);
      DeriveBinary([t, a], op, [b], Unary(uop, x), y, lvl, n);
      assert [t, a] + [TOp(op)] + [b] == ts;
      Weaken(ts, Binary(op, Unary(uop, x), y), lvl, 1, n);
      ParsedIffDerived(ts, Binary(op, Unary(uop, x), y), level, n);
    }
  }
}
