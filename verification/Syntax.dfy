/** The grammar as tokens: operator precedence parsing (subexpr, lparser.c:775-858), printing with
    the parentheses that the priorities call for, and statements over locals. */
module Syntax {
  import opened Wrappers
  import opened LuaVM
  import opened Expressions

  /** '-' and '(' are one token each wherever they stand; names are resolved to locals. */
  datatype Token =
    | TNil | TTrue | TFalse
    | TNumber(n: real) | TString(s: string) | TName(local: nat)
    | TOp(op: BinOpr) | TNot | THash
    | TOpen | TClose
    | TLocal | TAssign | TReturn | TSemicolon | TEnd | TOther

  const UNARY_PRIORITY := 8

  function LeftPriority(op: BinOpr): nat {
    match op
    case OPR_ADD | OPR_SUB => 6
    case OPR_MUL | OPR_DIV | OPR_MOD => 7
    case OPR_POW => 10
    case OPR_CONCAT => 5
    case OPR_NE | OPR_EQ => 3
    case OPR_LT | OPR_LE | OPR_GT | OPR_GE => 3
    case OPR_AND => 2
    case OPR_OR => 1
  }

  function RightPriority(op: BinOpr): nat {
    match op
    case OPR_ADD | OPR_SUB => 6
    case OPR_MUL | OPR_DIV | OPR_MOD => 7
    case OPR_POW => 9
    case OPR_CONCAT => 4
    case OPR_NE | OPR_EQ => 3
    case OPR_LT | OPR_LE | OPR_GT | OPR_GE => 3
    case OPR_AND => 2
    case OPR_OR => 1
  }

  function First(ts: seq<Token>): Token {
    if ts == [] then TEnd else ts[0]
  }

  /** How many local statements there can be. */
  function LocalTokens(ts: seq<Token>): nat {
    if ts == [] then 0 else (if ts[0].TLocal? then 1 else 0) + LocalTokens(ts[1..])
  }

  function GetUnOpr(t: Token): Option<UnOpr> {
    match t
    case TNot => Some(OPR_NOT)
    case TOp(OPR_SUB) => Some(OPR_MINUS)
    case THash => Some(OPR_LEN)
    case _ => None
  }

  function GetBinOpr(t: Token): Option<BinOpr> {
    if t.TOp? then Some(t.op) else None
  }

  /** The token begins the arguments of a call, after a name or a closing parenthesis. */
  predicate StartsCall(t: Token) {
    t.TOpen? || t.TString?
  }

  // ----- parsing -----

  datatype Parsed = Parsed(e: Expr, rest: seq<Token>)

  /** The atom a token stands for, where `n` locals are active. */
  function Atom(t: Token, n: int): Option<Expr> {
    match t
    case TNil => Some(Constant(Nil))
    case TTrue => Some(Constant(Bool(true)))
    case TFalse => Some(Constant(Bool(false)))
    case TNumber(x) => Some(Constant(Number(x)))
    case TString(s) => Some(Constant(String(s)))
    case TName(r) => if r < n then Some(Local(r)) else None
    case _ => None
  }

  /** `subexpr`, for `level` calls already nested. */
  function SubExpr(ts: seq<Token>, limit: nat, level: nat, n: int): (r: Result<Parsed>)
    ensures r.Ok? ==> |r.value.rest| < |ts|
    decreases |ts|, 2
  {
    if level + 1 > LUAI_MAXCCALLS then Failed("chunk has too many syntax levels")
    else
      var a :- Operand(ts, level + 1, n);
      Loop(a.e, a.rest, limit, level + 1, n)
  }

  /** What `subexpr` starts with: a unary operator and its operand, or a simple expression. */
  function Operand(ts: seq<Token>, level: nat, n: int): (r: Result<Parsed>)
    ensures r.Ok? ==> |r.value.rest| < |ts|
    decreases |ts|, 1
  {
    var uop := GetUnOpr(First(ts));
    if uop.Some? then
      var a :- SubExpr(ts[1..], UNARY_PRIORITY, level, n);
      Ok(Parsed(Unary(uop.value, a.e), a.rest))
    else SimpleExpr(ts, level, n)
  }

  /** `simpleexp`, restricted to constants, locals and parentheses. */
  function SimpleExpr(ts: seq<Token>, level: nat, n: int): (r: Result<Parsed>)
    ensures r.Ok? ==> |r.value.rest| < |ts|
    decreases |ts|, 0
  {
    var t := First(ts);
    if t.TOpen? then
      var a :- SubExpr(ts[1..], 0, level, n);
      if !First(a.rest).TClose? then Failed("')' expected")
      else if StartsCall(First(a.rest[1..])) then Failed("call")
      else Ok(Parsed(a.e, a.rest[1..]))
    else
      match Atom(t, n)
      case None => Failed("unexpected symbol")
      case Some(e) => if t.TName? && StartsCall(First(ts[1..])) then Failed("call") else Ok(Parsed(e, ts[1..]))
  }

  /** The loop of `subexpr`: operators that bind tighter than `limit` take what was read so far as
      their left operand. */
  function Loop(left: Expr, ts: seq<Token>, limit: nat, level: nat, n: int): (r: Result<Parsed>)
    ensures r.Ok? ==> |r.value.rest| <= |ts|
    decreases |ts|, 0
  {
    var op := GetBinOpr(First(ts));
    if op.Some? && LeftPriority(op.value) > limit then
      var b :- SubExpr(ts[1..], RightPriority(op.value), level, n);
      Loop(Binary(op.value, left, b.e), b.rest, limit, level, n)
    else Ok(Parsed(left, ts))
  }

  // ----- printing -----

  function UnaryToken(op: UnOpr): Token {
    match op
    case OPR_NOT => TNot
    case OPR_MINUS => TOp(OPR_SUB)
    case OPR_LEN => THash
  }

  function AtomToken(e: Expr): Token {
    match e
    case Constant(Nil) => TNil
    case Constant(Bool(b)) => if b then TTrue else TFalse
    case Constant(Number(x)) => TNumber(x)
    case Constant(String(s)) => TString(s)
    case Local(r) => TName(r)
    case _ => TOther
  }

  /** Whether `e` can stand bare where operators must bind tighter than `limit` and an operator of
      left priority `next` follows (0 for none). */
  predicate Bare(e: Expr, limit: nat, next: nat) {
    match e
    case Unary(_, _) => next <= UNARY_PRIORITY
    case Binary(op, _, _) => limit < LeftPriority(op) && next <= RightPriority(op)
    case _ => true
  }

  function Print(e: Expr, limit: nat, next: nat): seq<Token>
    decreases e, if Bare(e, limit, next) then 0 else 1
  {
    if !Bare(e, limit, next) then [TOpen] + Print(e, 0, 0) + [TClose]
    else
      match e
      case Unary(op, a) => [UnaryToken(op)] + Print(a, UNARY_PRIORITY, next)
      case Binary(op, a, b) => Print(a, limit, LeftPriority(op)) + [TOp(op)] + Print(b, RightPriority(op), next)
      case _ => [AtomToken(e)]
  }

  /** How deep `subexpr` calls itself on the printed text. */
  function Levels(e: Expr, limit: nat, next: nat): nat
    decreases e, if Bare(e, limit, next) then 0 else 1
  {
    if !Bare(e, limit, next) then 1 + Levels(e, 0, 0)
    else
      match e
      case Unary(op, a) => 1 + Levels(a, UNARY_PRIORITY, next)
      case Binary(op, a, b) => Max(Levels(a, limit, LeftPriority(op)), 1 + Levels(b, RightPriority(op), next))
      case _ => 1
  }

  /** The priority of the operator that `ts` starts with. */
  function NextPriority(ts: seq<Token>): nat {
    if First(ts).TOp? then LeftPriority(First(ts).op) else 0
  }

  /** What can follow a printed expression. */
  predicate CanFollow(ts: seq<Token>, next: nat) {
    NextPriority(ts) == next && !StartsCall(First(ts))
  }

  const TooDeep: Result<Parsed> := Failed("chunk has too many syntax levels")

  /** Reading the printed `e` brings `subexpr` to its loop with `e` in hand, or goes too deep. */
  ghost predicate Reads(e: Expr, limit: nat, next: nat, rest: seq<Token>, level: nat, n: int) {
    SubExpr(Print(e, limit, next) + rest, limit, level, n) ==
    if level + Levels(e, limit, next) > LUAI_MAXCCALLS then TooDeep else Loop(e, rest, limit, level + 1, n)
  }

  lemma {:induction false} PrintParse(e: Expr, limit: nat, next: nat, rest: seq<Token>, level: nat, n: int)
    requires Scoped(e, n) && CanFollow(rest, next)
    ensures Reads(e, limit, next, rest, level, n)
    decreases e, if Bare(e, limit, next) then 0 else 1
  {
    hide Reads, Loop, SubExpr, Print, Levels;
    if !Bare(e, limit, next) {
      PrintParse(e, 0, 0, [TClose] + rest, level + 1, n);
      ReadsInParentheses(e, limit, next, rest, level, n);
    } else if e.Unary? {
      PrintParse(e.arg, UNARY_PRIORITY, next, rest, level + 1, n);
      ReadsUnary(e.uop, e.arg, limit, next, rest, level, n);
    } else if e.Binary? {
      PrintParse(e.left, limit, LeftPriority(e.op), [TOp(e.op)] + (Print(e.right, RightPriority(e.op), next) + rest), level, n);
      PrintParse(e.right, RightPriority(e.op), next, rest, level + 1, n);
      ReadsBinary(e.op, e.left, e.right, limit, next, rest, level, n);
    } else {
      ReadsAtom(e, limit, next, rest, level, n);
    }
  }

  lemma ReadsAtom(e: Expr, limit: nat, next: nat, rest: seq<Token>, level: nat, n: int)
    requires (e.Constant? || e.Local?) && Scoped(e, n) && CanFollow(rest, next)
    ensures Reads(e, limit, next, rest, level, n)
  {
    var ts := [AtomToken(e)] + rest;
    assert ts[1..] == rest;
    assert Operand(ts, level + 1, n) == Ok(Parsed(e, rest));
  }

  lemma ReadsInParentheses(e: Expr, limit: nat, next: nat, rest: seq<Token>, level: nat, n: int)
    requires !Bare(e, limit, next) && Reads(e, 0, 0, [TClose] + rest, level + 1, n) && CanFollow(rest, next)
    ensures Reads(e, limit, next, rest, level, n)
  {
    var inner := Print(e, 0, 0) + ([TClose] + rest);
    assert Print(e, limit, next) + rest == [TOpen] + inner;
    assert ([TOpen] + inner)[1..] == inner;
    assert ([TClose] + rest)[1..] == rest;
    assert Operand([TOpen] + inner, level + 1, n) == SimpleExpr([TOpen] + inner, level + 1, n);
  }

  lemma ReadsUnary(op: UnOpr, a: Expr, limit: nat, next: nat, rest: seq<Token>, level: nat, n: int)
    requires next <= UNARY_PRIORITY && Reads(a, UNARY_PRIORITY, next, rest, level + 1, n) && CanFollow(rest, next)
    ensures Reads(Unary(op, a), limit, next, rest, level, n)
  {
    var tail := Print(a, UNARY_PRIORITY, next) + rest;
    assert Print(Unary(op, a), limit, next) + rest == [UnaryToken(op)] + tail;
    assert ([UnaryToken(op)] + tail)[1..] == tail;
  }

  lemma ReadsBinary(op: BinOpr, a: Expr, b: Expr, limit: nat, next: nat, rest: seq<Token>, level: nat, n: int)
    requires Bare(Binary(op, a, b), limit, next) && CanFollow(rest, next)
    requires Reads(a, limit, LeftPriority(op), [TOp(op)] + (Print(b, RightPriority(op), next) + rest), level, n)
    requires Reads(b, RightPriority(op), next, rest, level + 1, n)
    ensures Reads(Binary(op, a, b), limit, next, rest, level, n)
  {
    hide SubExpr;
    var right := Print(b, RightPriority(op), next) + rest;
    var tail := [TOp(op)] + right;
    assert Print(Binary(op, a, b), limit, next) + rest == Print(a, limit, LeftPriority(op)) + tail;
    assert tail[1..] == right;
  }

  /** Parsing inverts printing, below the nesting limit and only there. */
  lemma ParsePrint(e: Expr, rest: seq<Token>, level: nat, n: int)
    requires Scoped(e, n) && CanFollow(rest, 0)
    ensures SubExpr(Print(e, 0, 0) + rest, 0, level, n) ==
            if level + Levels(e, 0, 0) > LUAI_MAXCCALLS then TooDeep else Ok(Parsed(e, rest))
  {
    PrintParse(e, 0, 0, rest, level, n);
  }

  /** What is parsed refers to active locals only. */
  lemma {:induction false} SubExprScoped(ts: seq<Token>, limit: nat, level: nat, n: int)
    ensures var r := SubExpr(ts, limit, level, n); r.Ok? ==> Scoped(r.value.e, n)
    decreases |ts|, 2
  {
    if level + 1 <= LUAI_MAXCCALLS {
      OperandScoped(ts, level + 1, n);
      var a := Operand(ts, level + 1, n);
      if a.Ok? { LoopScoped(a.value.e, a.value.rest, limit, level + 1, n); }
    }
  }

  lemma {:induction false} OperandScoped(ts: seq<Token>, level: nat, n: int)
    ensures var r := Operand(ts, level, n); r.Ok? ==> Scoped(r.value.e, n)
    decreases |ts|, 1
  {
    if GetUnOpr(First(ts)).Some? {
      SubExprScoped(ts[1..], UNARY_PRIORITY, level, n);
    } else {
      if First(ts).TOpen? { SubExprScoped(ts[1..], 0, level, n); }
      var s := SimpleExpr(ts, level, n);
      assert s.Ok? ==> Scoped(s.value.e, n);
    }
  }

  lemma {:induction false} LoopScoped(left: Expr, ts: seq<Token>, limit: nat, level: nat, n: int)
    requires Scoped(left, n)
    ensures var r := Loop(left, ts, limit, level, n); r.Ok? ==> Scoped(r.value.e, n)
    decreases |ts|, 0
  {
    var op := GetBinOpr(First(ts));
    if op.Some? && LeftPriority(op.value) > limit {
      SubExprScoped(ts[1..], RightPriority(op.value), level, n);
      var b := SubExpr(ts[1..], RightPriority(op.value), level, n);
      if b.Ok? { LoopScoped(Binary(op.value, left, b.value.e), b.value.rest, limit, level, n); }
    }
  }

  // ----- statements -----

  /** A local is declared as the next free register. */
  datatype Stat = SLocal(init: Option<Expr>) | SAssign(r: nat, value: Expr) | SReturn(result: Option<Expr>)

  datatype ParsedStat = ParsedStat(s: Stat, rest: seq<Token>)

  const LUAI_MAXVARS := 200

  /** `block_follow` or a semicolon. */
  predicate EndsReturn(t: Token) { t.TEnd? || t.TSemicolon? }

  /** `statement`, restricted to declarations and assignments of one local, and `return`. */
  function Statement(ts: seq<Token>, level: nat, n: int): (r: Result<ParsedStat>)
    ensures r.Ok? ==> |r.value.rest| < |ts|
  {
    match First(ts)
    case TLocal =>
      if n + 1 > LUAI_MAXVARS then Failed("too many local variables")
      else if First(ts[1..]).TAssign? then
        var a :- SubExpr(ts[2..], 0, level, n);
        Ok(ParsedStat(SLocal(Some(a.e)), a.rest))
      else Ok(ParsedStat(SLocal(None), ts[1..]))
    case TName(r) =>
      if r >= n || !First(ts[1..]).TAssign? then Failed("syntax error")
      else
        var a :- SubExpr(ts[2..], 0, level, n);
        Ok(ParsedStat(SAssign(r, a.e), a.rest))
    case TReturn =>
      if EndsReturn(First(ts[1..])) then Ok(ParsedStat(SReturn(None), ts[1..]))
      else
        var a :- SubExpr(ts[1..], 0, level, n);
        Ok(ParsedStat(SReturn(Some(a.e)), a.rest))
    case _ => Failed("syntax error")
  }

  function SkipSemicolon(ts: seq<Token>): seq<Token> {
    if First(ts).TSemicolon? then ts[1..] else ts
  }

  /** `chunk`: statements up to the end of the input or a `return`, after those in `done`. */
  function Chunk(done: seq<Stat>, ts: seq<Token>, level: nat, n: int): Result<seq<Stat>>
    decreases |ts|
  {
    if First(ts).TEnd? then (if ts == [] then Ok(done) else Failed("<eof> expected"))
    else
      var s :- Statement(ts, level, n);
      var rest := SkipSemicolon(s.rest);
      if s.s.SReturn? then (if rest == [] then Ok(done + [s.s]) else Failed("<eof> expected"))
      else Chunk(done + [s.s], rest, level, if s.s.SLocal? then n + 1 else n)
  }

  lemma LocalsTail(ts: seq<Token>)
    ensures ts != [] ==> LocalTokens(ts[1..]) <= LocalTokens(ts)
  {
  }

  lemma {:induction false} LocalsInExpr(ts: seq<Token>, limit: nat, level: nat, n: int)
    ensures var r := SubExpr(ts, limit, level, n); r.Ok? ==> LocalTokens(r.value.rest) <= LocalTokens(ts)
    decreases |ts|, 2
  {
    if level + 1 <= LUAI_MAXCCALLS {
      LocalsInOperand(ts, level + 1, n);
      var a := Operand(ts, level + 1, n);
      if a.Ok? { LocalsInLoop(a.value.e, a.value.rest, limit, level + 1, n); }
    }
  }

  lemma {:induction false} LocalsInOperand(ts: seq<Token>, level: nat, n: int)
    ensures var r := Operand(ts, level, n); r.Ok? ==> LocalTokens(r.value.rest) <= LocalTokens(ts)
    decreases |ts|, 1
  {
    LocalsTail(ts);
    if GetUnOpr(First(ts)).Some? {
      LocalsInExpr(ts[1..], UNARY_PRIORITY, level, n);
    } else if First(ts).TOpen? {
      LocalsInExpr(ts[1..], 0, level, n);
      var a := SubExpr(ts[1..], 0, level, n);
      if a.Ok? { LocalsTail(a.value.rest); }
    }
  }

  lemma {:induction false} LocalsInLoop(left: Expr, ts: seq<Token>, limit: nat, level: nat, n: int)
    ensures var r := Loop(left, ts, limit, level, n); r.Ok? ==> LocalTokens(r.value.rest) <= LocalTokens(ts)
    decreases |ts|, 0
  {
    LocalsTail(ts);
    var op := GetBinOpr(First(ts));
    if op.Some? && LeftPriority(op.value) > limit {
      LocalsInExpr(ts[1..], RightPriority(op.value), level, n);
      var b := SubExpr(ts[1..], RightPriority(op.value), level, n);
      if b.Ok? { LocalsInLoop(Binary(op.value, left, b.value.e), b.value.rest, limit, level, n); }
    }
  }

  /** Each local statement takes one of the local tokens. */
  lemma LocalsRead(ts: seq<Token>, level: nat, n: int)
    ensures var r := Statement(ts, level, n);
            r.Ok? ==> LocalTokens(SkipSemicolon(r.value.rest)) + (if r.value.s.SLocal? then 1 else 0) <= LocalTokens(ts)
  {
    hide SubExpr;
    var r := Statement(ts, level, n);
    if r.Ok? {
      LocalsTail(r.value.rest);
      LocalsTail(ts[1..]);
      assert 2 <= |ts| ==> ts[1..][1..] == ts[2..];
      LocalsInExpr(ts[1..], 0, level, n);
      if |ts| >= 2 { LocalsInExpr(ts[2..], 0, level, n); }
    }
  }

  /** What statements do to the locals. */
  datatype Progress = Running(locals: Regs) | Finished(values: seq<Value>) | Raised

  function Count(stats: seq<Stat>): nat {
    if stats == [] then 0 else Count(stats[..|stats| - 1]) + (if stats[|stats| - 1].SLocal? then 1 else 0)
  }

  /** Running `stats` with the arguments in the first `params` registers. */
  function Execute(sem: Semantics, stats: seq<Stat>, params: nat, args: Regs): Progress {
    if stats == [] then Running(args)
    else
      var before := stats[..|stats| - 1];
      match Execute(sem, before, params, args)
      case Running(locals) => ExecuteStat(sem, stats[|stats| - 1], params + Count(before), locals)
      case done => done
  }

  function ExecuteStat(sem: Semantics, s: Stat, n: nat, locals: Regs): Progress {
    match s
    case SLocal(None) => Running(locals[n := Nil])
    case SLocal(Some(e)) => (match Eval(sem, e, locals) case None => Raised case Some(v) => Running(locals[n := v]))
    case SAssign(r, e) => (match Eval(sem, e, locals) case None => Raised case Some(v) => Running(locals[r := v]))
    case SReturn(None) => Finished([])
    case SReturn(Some(e)) => (match Eval(sem, e, locals) case None => Raised case Some(v) => Finished([v]))
  }

  /** A printed expression begins with something that an expression can begin with. */
  lemma {:induction false} PrintStarts(e: Expr, limit: nat, next: nat, n: int)
    requires Scoped(e, n)
    ensures Print(e, limit, next) != [] && !EndsReturn(First(Print(e, limit, next)))
    decreases e, if Bare(e, limit, next) then 0 else 1
  {
    if Bare(e, limit, next) && e.Binary? { PrintStarts(e.left, limit, LeftPriority(e.op), n); }
  }

  /** The text of a function that returns `e` is read as just that. */
  lemma ReturnRead(e: Expr, n: int)
    requires Scoped(e, n) && 1 + Levels(e, 0, 0) <= LUAI_MAXCCALLS
    ensures Chunk([], [TReturn] + Print(e, 0, 0), 1, n) == Ok([SReturn(Some(e))])
  {
    var text := Print(e, 0, 0);
    var ts := [TReturn] + text;
    assert ts[1..] == text && text + [] == text;
    ParsePrint(e, [], 1, n);
    PrintStarts(e, 0, 0, n);
    assert Statement(ts, 1, n) == Ok(ParsedStat(SReturn(Some(e)), []));
    assert [] + [SReturn(Some(e))] == [SReturn(Some(e))];
  }
}
