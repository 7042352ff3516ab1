/** The registers, constants and instructions of a Lua function that the expression compiler
    uses, and what the interpreter does with them (lopcodes.h, lvm.c).

    `Run` also gives a meaning to code that is still being compiled: a jump in `pend` is on some
    patch list, its offset is a link of that list and not a displacement, and taking it ends the
    run with `Exit`. With no pending jumps `Run` is the interpreter's loop. */
module LuaVM {
  import opened Wrappers

  datatype Value = Nil | Bool(b: bool) | Number(n: real) | String(s: string) | Object(id: nat)

  datatype ArithOp = Add | Sub | Mul | Div | Mod | Pow
  datatype CmpOp = Eq | Lt | Le

  /** What the primitives compute. Any interpretation without side effects will do: the numeric
      operations on two numbers, and the outcome of everything else, `None` being an error. */
  datatype Semantics = Semantics(
    num: (ArithOp, real, real) -> real,
    neg: real -> real,
    arithMeta: (ArithOp, Value, Value) -> Option<Value>,
    negMeta: Value -> Option<Value>,
    len: Value -> Option<Value>,
    concat: (Value, Value) -> Option<Value>,
    compare: (CmpOp, Value, Value) -> Option<bool>)

  predicate Truthy(v: Value) {
    v != Nil && v != Bool(false)
  }

  /** `arith_op`: the numeric operation on two numbers, `Arith` on anything else. */
  function Arith(sem: Semantics, op: ArithOp, v: Value, w: Value): Option<Value> {
    if v.Number? && w.Number? then Some(Number(sem.num(op, v.n, w.n))) else sem.arithMeta(op, v, w)
  }

  function Negate(sem: Semantics, v: Value): Option<Value> {
    if v.Number? then Some(Number(sem.neg(v.n))) else sem.negMeta(v)
  }

  function Concat(sem: Semantics, v: Option<Value>, w: Option<Value>): Option<Value> {
    if v.Some? && w.Some? then sem.concat(v.value, w.value) else None
  }

  // ----- instructions -----

  const BITRK := 256
  const MAXINDEXRK := 255
  const MAXARG_sBx := 131071
  const MAXARG_Bx := 262143
  const NO_REG := 255
  const NO_JUMP := -1

  predicate ISK(x: int) { x >= BITRK }

  function RKASK(x: int): int { x + BITRK }

  datatype Instr =
    | MOVE(a: int, b: int)
    | LOADK(a: int, bx: int)
    | LOADBOOL(a: int, val: bool, skip: bool)
    | LOADNIL(a: int, b: int)
    | ARITH(op: ArithOp, a: int, rb: int, rc: int)
    | UNM(a: int, b: int)
    | NOT(a: int, b: int)
    | LEN(a: int, b: int)
    | CONCAT(a: int, b: int, c: int)
    | JMP(sbx: int)
    | COMPARE(cmp: CmpOp, cond: bool, rb: int, rc: int)
    | TEST(a: int, cond: bool)
    | TESTSET(a: int, b: int, cond: bool)
    | RETURN(a: int, b: int)

  type Code = seq<Instr>

  /** `testTMode`: the instructions that are followed by a jump. */
  predicate IsTest(i: Instr) { i.COMPARE? || i.TEST? || i.TESTSET? }

  /** The instructions that compute one value into register A. */
  predicate IsValue(i: Instr) {
    i.MOVE? || i.LOADK? || (i.LOADBOOL? && !i.skip) || i.ARITH? || i.UNM? || i.NOT? || i.LEN? || i.CONCAT?
  }

  function SetA(i: Instr, r: int): Instr
    requires IsValue(i)
  {
    match i
    case MOVE(_, b) => MOVE(r, b)
    case LOADK(_, bx) => LOADK(r, bx)
    case LOADBOOL(_, v, s) => LOADBOOL(r, v, s)
    case ARITH(op, _, b, c) => ARITH(op, r, b, c)
    case UNM(_, b) => UNM(r, b)
    case NOT(_, b) => NOT(r, b)
    case LEN(_, b) => LEN(r, b)
    case CONCAT(_, b, c) => CONCAT(r, b, c)
  }

  // ----- registers -----

  /** The registers that are not nil, or some of the nil ones too. */
  type Regs = map<int, Value>

  function Get(regs: Regs, r: int): Value {
    if r in regs then regs[r] else Nil
  }

  function Const(k: seq<Value>, i: int): Value {
    if 0 <= i < |k| then k[i] else Nil
  }

  function RK(k: seq<Value>, regs: Regs, x: int): Value {
    if ISK(x) then Const(k, x - BITRK) else Get(regs, x)
  }

  function SetNil(regs: Regs, lo: int, hi: int): Regs
    decreases hi - lo
  {
    if hi < lo then regs else SetNil(regs[lo := Nil], lo + 1, hi)
  }

  lemma {:induction false} SetNilGet(regs: Regs, lo: int, hi: int, r: int)
    ensures Get(SetNil(regs, lo, hi), r) == if lo <= r <= hi then Nil else Get(regs, r)
    decreases hi - lo
  {
    if lo <= hi {
      SetNilGet(regs[lo := Nil], lo + 1, hi, r);
    }
  }

  /** `luaV_concat`: registers b to c joined from the right. */
  function Joined(sem: Semantics, regs: Regs, b: int, c: int): Option<Value>
    decreases c - b
  {
    if c <= b then Some(Get(regs, c)) else Concat(sem, Some(Get(regs, b)), Joined(sem, regs, b + 1, c))
  }

  /** What a value instruction computes. */
  function InstrValue(sem: Semantics, k: seq<Value>, i: Instr, regs: Regs): Option<Value>
    requires IsValue(i)
  {
    match i
    case MOVE(_, b) => Some(Get(regs, b))
    case LOADK(_, bx) => Some(Const(k, bx))
    case LOADBOOL(_, v, _) => Some(Bool(v))
    case ARITH(op, _, b, c) => Arith(sem, op, RK(k, regs, b), RK(k, regs, c))
    case UNM(_, b) => Negate(sem, Get(regs, b))
    case NOT(_, b) => Some(Bool(!Truthy(Get(regs, b))))
    case LEN(_, b) => sem.len(Get(regs, b))
    case CONCAT(_, b, c) => Joined(sem, regs, b, c)
  }

  /** Whether a test lets the jump behind it happen. */
  function Taken(sem: Semantics, k: seq<Value>, i: Instr, regs: Regs): Option<bool>
    requires IsTest(i)
  {
    match i
    case COMPARE(op, cond, b, c) =>
      (match sem.compare(op, RK(k, regs, b), RK(k, regs, c))
       case None => None
       case Some(x) => Some(x == cond))
    case TEST(a, cond) => Some(Truthy(Get(regs, a)) == cond)
    case TESTSET(_, b, cond) => Some(Truthy(Get(regs, b)) == cond)
  }

  /** The registers after a test whose jump happens. */
  function Tested(i: Instr, regs: Regs): Regs {
    if i.TESTSET? then regs[i.a := Get(regs, i.b)] else regs
  }

  datatype Outcome = Fall(regs: Regs) | Exit(j: int, regs: Regs) | Returned(values: seq<Value>) | Error | Stuck

  predicate Pending(pend: set<int>, q: int) { q in pend }

  function Target(c: Code, q: int): int
    requires 0 <= q < |c| && c[q].JMP?
  {
    q + 1 + c[q].sbx
  }

  /** `n` registers from `a` on. */
  function Values(regs: Regs, a: int, n: int): seq<Value>
    decreases n
  {
    if n <= 0 then [] else [Get(regs, a)] + Values(regs, a + 1, n - 1)
  }

  datatype Next = Go(pc: int, regs: Regs) | Halt(outcome: Outcome)

  /** One turn of the interpreter's loop. */
  function Step(sem: Semantics, k: seq<Value>, c: Code, pend: set<int>, pc: nat, regs: Regs): Next
    requires pc < |c|
  {
    var i := c[pc];
    if IsTest(i) then
      match Taken(sem, k, i, regs)
      case None => Halt(Error)
      case Some(taken) =>
        if !taken then Go(pc + 2, regs)
        else if Pending(pend, pc + 1) then Halt(Exit(pc + 1, regs))
        else if pc + 1 < |c| && c[pc + 1].JMP? then Go(Target(c, pc + 1), Tested(i, regs))
        else Halt(Stuck)
    else if i.JMP? then
      if Pending(pend, pc) then Halt(Exit(pc, regs)) else Go(Target(c, pc), regs)
    else if i.RETURN? then Halt(Returned(Values(regs, i.a, i.b - 1)))
    else if i.LOADNIL? then Go(pc + 1, SetNil(regs, i.a, i.b))
    else if i.LOADBOOL? && i.skip then Go(pc + 2, regs[i.a := Bool(i.val)])
    else
      match InstrValue(sem, k, i, regs)
      case None => Halt(Error)
      case Some(v) => Go(pc + 1, regs[i.a := v])
  }

  /** Runs to the end of the code. The compiler's jumps all go forward. */
  function Run(sem: Semantics, k: seq<Value>, c: Code, pend: set<int>, pc: nat, regs: Regs): Outcome
    decreases |c| - pc
  {
    if pc >= |c| then Fall(regs)
    else
      match Step(sem, k, c, pend, pc, regs)
      case Halt(o) => o
      case Go(next, regs') => if pc < next then Run(sem, k, c, pend, next, regs') else Stuck
  }

  // ----- well-formed code -----

  /** Register operands are registers and constants exist. */
  predicate OperandsOk(i: Instr, nk: nat) {
    match i
    case LOADK(_, bx) => 0 <= bx < nk
    case ARITH(_, _, b, c) => b - BITRK < nk && c - BITRK < nk
    case COMPARE(_, _, b, c) => b - BITRK < nk && c - BITRK < nk
    case _ => true
  }

  /** A place the interpreter can come to: not the jump of a test. */
  predicate Entry(c: Code, pc: int) {
    0 < pc <= |c| ==> !IsTest(c[pc - 1])
  }

  /** Tests are followed by jumps; resolved jumps and skips go forward, no further than `lim`,
      and not into the middle of a test. */
  ghost predicate InstrOk(nk: nat, c: Code, pend: set<int>, lim: int, q: int)
    requires 0 <= q < |c|
  {
    && OperandsOk(c[q], nk)
    && (IsTest(c[q]) ==> q + 1 < |c| && c[q + 1].JMP?)
    && (c[q].JMP? && !Pending(pend, q) ==> q < Target(c, q) <= lim && Entry(c, Target(c, q)))
    && (c[q].LOADBOOL? && c[q].skip ==> q + 2 <= lim && Entry(c, q + 2))
  }

  ghost predicate CodeOk(nk: nat, c: Code, pend: set<int>, lim: int) {
    && lim <= |c|
    && (forall q :: 0 <= q < |c| ==> InstrOk(nk, c, pend, lim, q))
    && (forall q :: Pending(pend, q) ==> 0 <= q < |c| && c[q].JMP?)
  }

  /** In well-formed code every turn goes forward to an entry. */
  lemma StepGoes(sem: Semantics, k: seq<Value>, c: Code, pend: set<int>, lim: int, pc: nat, regs: Regs)
    requires CodeOk(|k|, c, pend, lim) && pc < |c|
    ensures var s := Step(sem, k, c, pend, pc, regs);
            if s.Go? then pc < s.pc <= |c| && Entry(c, s.pc) else !s.outcome.Fall?
  {
    assert InstrOk(|k|, c, pend, lim, pc);
    if IsTest(c[pc]) { assert InstrOk(|k|, c, pend, lim, pc + 1); }
  }

  lemma StepAppend(sem: Semantics, k: seq<Value>, c: Code, pend: set<int>, lim: int, d: Code, pend': set<int>, pc: nat, regs: Regs)
    requires CodeOk(|k|, c, pend, lim) && pc < |c|
    requires forall q :: 0 <= q < |c| ==> Pending(pend, q) == Pending(pend', q)
    ensures Step(sem, k, c + d, pend', pc, regs) == Step(sem, k, c, pend, pc, regs)
  {
    assert InstrOk(|k|, c, pend, lim, pc);
    if IsTest(c[pc]) { assert (c + d)[pc + 1] == c[pc + 1]; }
  }

  /** Code that is appended is reached where the code before it falls through. */
  lemma {:induction false} RunAppend(sem: Semantics, k: seq<Value>, c: Code, pend: set<int>, lim: int,
                                     d: Code, pend': set<int>, pc: nat, regs: Regs)
    requires CodeOk(|k|, c, pend, lim) && pc <= |c|
    requires forall q :: 0 <= q < |c| ==> Pending(pend, q) == Pending(pend', q)
    ensures var o := Run(sem, k, c, pend, pc, regs);
            Run(sem, k, c + d, pend', pc, regs) == if o.Fall? then Run(sem, k, c + d, pend', |c|, o.regs) else o
    decreases |c| - pc
  {
    hide CodeOk, Step;
    if pc < |c| {
      StepAppend(sem, k, c, pend, lim, d, pend', pc, regs);
      StepGoes(sem, k, c, pend, lim, pc, regs);
      var s := Step(sem, k, c, pend, pc, regs);
      if s.Go? { RunAppend(sem, k, c, pend, lim, d, pend', s.pc, s.regs); }
    }
  }

  lemma StepConstants(sem: Semantics, k: seq<Value>, k': seq<Value>, c: Code, pend: set<int>, lim: int, pc: nat, regs: Regs)
    requires CodeOk(|k|, c, pend, lim) && k <= k' && pc < |c|
    ensures Step(sem, k', c, pend, pc, regs) == Step(sem, k, c, pend, pc, regs)
  {
    assert InstrOk(|k|, c, pend, lim, pc);
    var i := c[pc];
    if IsTest(i) {
      assert Taken(sem, k', i, regs) == Taken(sem, k, i, regs);
    } else if IsValue(i) {
      assert InstrValue(sem, k', i, regs) == InstrValue(sem, k, i, regs);
    }
  }

  /** New constants change nothing. */
  lemma {:induction false} RunConstants(sem: Semantics, k: seq<Value>, k': seq<Value>, c: Code, pend: set<int>, lim: int,
                                        pc: nat, regs: Regs)
    requires CodeOk(|k|, c, pend, lim) && k <= k'
    ensures Run(sem, k', c, pend, pc, regs) == Run(sem, k, c, pend, pc, regs)
    decreases |c| - pc
  {
    hide CodeOk, Step;
    if pc < |c| {
      StepConstants(sem, k, k', c, pend, lim, pc, regs);
      StepGoes(sem, k, c, pend, lim, pc, regs);
      var s := Step(sem, k, c, pend, pc, regs);
      if s.Go? { RunConstants(sem, k, k', c, pend, lim, s.pc, s.regs); }
    }
  }

  // ----- patching -----

  /** The same test, up to the register a TESTSET writes. */
  predicate SameTest(i: Instr, i': Instr) {
    match i
    case TESTSET(_, b, cond) => i' == TEST(b, cond) || (i'.TESTSET? && i'.b == b && i'.cond == cond)
    case _ => i' == i
  }

  /** `c'` is `c` with the pending jumps outside `pend'` resolved; jumps still pending may be
      relinked, and tests before pending jumps may get another register to write. */
  ghost predicate Patches(c: Code, pend: set<int>, c': Code, pend': set<int>) {
    && |c'| == |c|
    && (forall q :: Pending(pend', q) ==> Pending(pend, q))
    && (forall q :: 0 <= q < |c| ==> PatchesAt(c, pend, c', pend', q))
  }

  ghost predicate PatchesAt(c: Code, pend: set<int>, c': Code, pend': set<int>, q: int)
    requires |c'| == |c| && 0 <= q < |c|
  {
    if Pending(pend, q) then
      c[q].JMP? && c'[q].JMP? && (!Pending(pend', q) ==> q < Target(c', q) <= |c| && Entry(c', Target(c', q)))
    else if IsTest(c[q]) && Pending(pend, q + 1) then SameTest(c[q], c'[q])
    else c'[q] == c[q]
  }

  /** The registers after taking jump `j`. */
  function Carry(c: Code, j: int, regs: Regs): Regs {
    if 0 < j <= |c| then Tested(c[j - 1], regs) else regs
  }

  /** Jump `j` was pending and now has a target. */
  predicate Resolved(pend: set<int>, c': Code, pend': set<int>, j: int) {
    Pending(pend, j) && !Pending(pend', j) && 0 <= j < |c'| && c'[j].JMP? && Target(c', j) >= 0
  }

  /** What becomes of an outcome once the jumps of `pend` outside `pend'` are resolved in `c'`. */
  function Resumed(sem: Semantics, k: seq<Value>, pend: set<int>, c': Code, pend': set<int>, o: Outcome): Outcome {
    if o.Exit? && Resolved(pend, c', pend', o.j)
    then Run(sem, k, c', pend', Target(c', o.j), Carry(c', o.j, o.regs))
    else o
  }

  /** A turn after patching: the same, but a jump that was pending may now be taken. */
  lemma StepPatched(sem: Semantics, k: seq<Value>, c: Code, pend: set<int>, lim: int,
                    c': Code, pend': set<int>, pc: nat, regs: Regs)
    requires CodeOk(|k|, c, pend, lim) && Patches(c, pend, c', pend') && pc < |c| && Entry(c, pc)
    ensures var s := Step(sem, k, c, pend, pc, regs);
            Step(sem, k, c', pend', pc, regs) ==
              if s.Halt? && s.outcome.Exit? && Resolved(pend, c', pend', s.outcome.j)
              then Go(Target(c', s.outcome.j), Carry(c', s.outcome.j, s.outcome.regs))
              else s
    ensures var s := Step(sem, k, c, pend, pc, regs);
            s.Halt? && s.outcome.Exit? && Resolved(pend, c', pend', s.outcome.j) ==> pc < Target(c', s.outcome.j)
  {
    var i := c[pc];
    assert InstrOk(|k|, c, pend, lim, pc);
    assert PatchesAt(c, pend, c', pend', pc);
    if IsTest(i) {
      assert PatchesAt(c, pend, c', pend', pc + 1);
      assert Taken(sem, k, c'[pc], regs) == Taken(sem, k, i, regs);
    } else if i.JMP? && Pending(pend, pc) && pc > 0 {
      assert PatchesAt(c, pend, c', pend', pc - 1);
    }
  }

  lemma {:induction false} RunPatched(sem: Semantics, k: seq<Value>, c: Code, pend: set<int>, lim: int,
                                      c': Code, pend': set<int>, pc: nat, regs: Regs)
    requires CodeOk(|k|, c, pend, lim) && Patches(c, pend, c', pend') && pc <= |c| && Entry(c, pc)
    ensures Run(sem, k, c', pend', pc, regs) == Resumed(sem, k, pend, c', pend', Run(sem, k, c, pend, pc, regs))
    decreases |c| - pc
  {
    hide CodeOk, Step;
    if pc < |c| {
      StepPatched(sem, k, c, pend, lim, c', pend', pc, regs);
      StepGoes(sem, k, c, pend, lim, pc, regs);
      var s := Step(sem, k, c, pend, pc, regs);
      if s.Go? { RunPatched(sem, k, c, pend, lim, c', pend', s.pc, s.regs); }
    }
  }
}
