/** Loading what was dumped gives the same prototype. */
module UndumpDump {
  import opened Wrappers
  import opened BinaryChunk

  // ----- what can be dumped -----

  predicate NameOk(s: Name) { s.Some? ==> AllBytes(s.value) && |s.value| + 1 < Power256(8) }

  predicate ConstantOk(c: Constant) {
    match c
    case CNumber(bits) => |bits| == 8 && AllBytes(bits)
    case CString(s) => s.Some? && NameOk(s)
    case _ => true
  }

  predicate LocVarOk(v: LocVar) { NameOk(v.varname) && IsCount(v.startpc) && IsCount(v.endpc) }

  predicate HeadingOk(f: Proto) {
    && f.source.Some? && NameOk(f.source) && IsCount(f.linedefined) && IsCount(f.lastlinedefined)
    && IsByte(f.nups) && IsByte(f.numparams) && IsByte(f.isVararg) && IsByte(f.maxstacksize)
  }

  predicate BodyOk(f: Proto) {
    && IsCount(|f.code|) && (forall i :: 0 <= i < |f.code| ==> 0 <= f.code[i] < TWO32)
    && IsCount(|f.k|) && (forall i :: 0 <= i < |f.k| ==> ConstantOk(f.k[i]))
  }

  predicate DebugOk(f: Proto) {
    && IsCount(|f.lineinfo|) && (forall i :: 0 <= i < |f.lineinfo| ==> IsInt(f.lineinfo[i]))
    && IsCount(|f.locvars|) && (forall i :: 0 <= i < |f.locvars| ==> LocVarOk(f.locvars[i]))
    && IsCount(|f.upvalues|) && (forall i :: 0 <= i < |f.upvalues| ==> NameOk(f.upvalues[i]))
  }

  /** A prototype of a loaded function: its fields fit, every source is known, and the bytecode
      checker accepts it and the functions in it. */
  ghost predicate ProtoOk(check: Proto -> bool, f: Proto)
    decreases f, |f.p| + 1
  {
    HeadingOk(f) && BodyOk(f) && DebugOk(f) && IsCount(|f.p|) && check(f) && ProtosOk(check, f, f.p)
  }

  ghost predicate ProtosOk(check: Proto -> bool, f: Proto, ps: seq<Proto>)
    requires forall i :: 0 <= i < |ps| ==> ps[i] in f.p
    decreases f, |ps|
  {
    ps == [] || (ProtoOk(check, ps[0]) && ProtosOk(check, f, ps[1..]))
  }

  /** How deep functions are nested. */
  function Depth(f: Proto): (d: nat)
    ensures d > 0
    decreases f, |f.p| + 1
  {
    1 + DepthOf(f, f.p)
  }

  function DepthOf(f: Proto, ps: seq<Proto>): nat
    requires forall i :: 0 <= i < |ps| ==> ps[i] in f.p
    decreases f, |ps|
  {
    if ps == [] then 0 else Max(Depth(ps[0]), DepthOf(f, ps[1..]))
  }

  // ----- the parts -----

  lemma BlockRead(a: Bytes, rest: Bytes, n: nat)
    requires |a| == n
    ensures LoadBlock(a + rest, n) == Ok((a, rest))
  {
    assert (a + rest)[..n] == a && (a + rest)[n..] == rest;
  }

  lemma CharRead(c: int, rest: Bytes)
    ensures LoadChar([c] + rest) == Ok((c, rest))
  {
    BlockRead([c], rest, 1);
  }

  lemma IntBytesOk(x: int)
    requires IsInt(x)
    ensures |IntBytes(x)| == 4 && AllBytes(IntBytes(x)) && Signed(Decode(IntBytes(x))) == x
  {
    assert Power256(4) == TWO32;
    DecodeEncode(Unsigned(x), 4);
  }

  lemma IntRead(x: int, rest: Bytes)
    requires IsCount(x)
    ensures LoadInt(IntBytes(x) + rest) == Ok((x, rest))
  {
    IntBytesOk(x);
    BlockRead(IntBytes(x), rest, 4);
  }

  lemma SizeRead(x: nat, rest: Bytes)
    requires x < Power256(8)
    ensures var r := LoadBlock(SizeBytes(x) + rest, 8); r.Ok? && Decode(r.value.0) == x && r.value.1 == rest
  {
    DecodeEncode(x, 8);
    BlockRead(SizeBytes(x), rest, 8);
  }

  lemma StringRead(s: Name, rest: Bytes)
    requires NameOk(s)
    ensures LoadString(DumpString(s, rest)) == Ok((s, rest))
  {
    hide Power256, Decode, SizeBytes, LoadBlock;
    match s
    case None =>
      SizeRead(0, rest);
    case Some(b) =>
      var tail := b + ([0] + rest);
      SizeRead(|b| + 1, tail);
      assert tail == (b + [0]) + rest;
      BlockRead(b + [0], rest, |b| + 1);
      assert (b + [0])[..|b|] == b;
  }

  lemma Append(a: Bytes, b: Bytes, rest: Bytes)
    ensures a + (b + rest) == (a + b) + rest
    ensures (a + b)[..|a|] == a && (a + b)[|a|..] == b
  {
  }

  lemma {:induction false} IntsRead(v: seq<int>, rest: Bytes)
    requires forall i :: 0 <= i < |v| ==> IsInt(v[i])
    ensures var b := DumpInts(v, []); |b| == 4 * |v| && DecodeInts(b, |v|) == v && DumpInts(v, rest) == b + rest
  {
    if v != [] {
      hide IntBytes, Signed, Decode;
      IntsRead(v[1..], rest);
      IntBytesOk(v[0]);
      Append(IntBytes(v[0]), DumpInts(v[1..], []), rest);
    }
  }

  lemma {:induction false} CodeRead(v: seq<int>, rest: Bytes)
    requires forall i :: 0 <= i < |v| ==> 0 <= v[i] < TWO32
    ensures var b := DumpCode(v, []); |b| == 4 * |v| && DecodeCode(b, |v|) == v && DumpCode(v, rest) == b + rest
  {
    if v != [] {
      CodeRead(v[1..], rest);
      assert Power256(4) == TWO32;
      DecodeEncode(v[0], 4);
      hide Encode, Decode, Power256;
      Append(Encode(v[0], 4), DumpCode(v[1..], []), rest);
    }
  }

  lemma ConstantRead(c: Constant, rest: Bytes)
    requires ConstantOk(c)
    ensures LoadConstant(DumpConstant(c, rest)) == Ok((c, rest))
  {
    match c
    case CNil => CharRead(LUA_TNIL, rest);
    case CBool(b) =>
      var x := if b then 1 else 0;
      CharRead(LUA_TBOOLEAN, [x] + rest);
      CharRead(x, rest);
    case CNumber(bits) =>
      CharRead(LUA_TNUMBER, bits + rest);
      BlockRead(bits, rest, 8);
    case CString(s) =>
      CharRead(LUA_TSTRING, DumpString(s, rest));
      StringRead(s, rest);
  }

  lemma {:induction false} ConstantsRead(k: seq<Constant>, rest: Bytes)
    requires forall i :: 0 <= i < |k| ==> ConstantOk(k[i])
    ensures LoadConstantList(DumpConstants(k, rest), |k|) == Ok((k, rest))
  {
    if k != [] {
      ConstantRead(k[0], DumpConstants(k[1..], rest));
      ConstantsRead(k[1..], rest);
      assert [k[0]] + k[1..] == k;
    }
  }

  lemma {:induction false} LocVarsRead(v: seq<LocVar>, rest: Bytes)
    requires forall i :: 0 <= i < |v| ==> LocVarOk(v[i])
    ensures LoadLocVarList(DumpLocVars(v, rest), |v|) == Ok((v, rest))
  {
    if v != [] {
      var r := DumpLocVars(v[1..], rest);
      assert LocVarOk(v[0]);
      StringRead(v[0].varname, IntBytes(v[0].startpc) + (IntBytes(v[0].endpc) + r));
      IntRead(v[0].startpc, IntBytes(v[0].endpc) + r);
      IntRead(v[0].endpc, r);
      LocVarsRead(v[1..], rest);
      assert [v[0]] + v[1..] == v;
    }
  }

  lemma {:induction false} NamesRead(v: seq<Name>, rest: Bytes)
    requires forall i :: 0 <= i < |v| ==> NameOk(v[i])
    ensures LoadNameList(DumpNames(v, rest), |v|) == Ok((v, rest))
  {
    if v != [] {
      StringRead(v[0], DumpNames(v[1..], rest));
      NamesRead(v[1..], rest);
      assert [v[0]] + v[1..] == v;
    }
  }

  // ----- a function -----

  function DumpHeading(f: Proto, parent: Name, rest: Bytes): Bytes {
    DumpString(if f.source == parent then None else f.source, DumpLines(f, rest))
  }

  function DumpLines(f: Proto, rest: Bytes): Bytes {
    IntBytes(f.linedefined) + (IntBytes(f.lastlinedefined) + DumpFlags(f, rest))
  }

  function DumpFlags(f: Proto, rest: Bytes): Bytes {
    [f.nups] + ([f.numparams] + ([f.isVararg] + ([f.maxstacksize] + rest)))
  }

  function DumpBody(f: Proto, rest: Bytes): Bytes {
    IntBytes(|f.code|) + DumpCode(f.code, IntBytes(|f.k|) + DumpConstants(f.k, rest))
  }

  function DumpDebug(f: Proto, rest: Bytes): Bytes {
    IntBytes(|f.lineinfo|) + DumpInts(f.lineinfo,
    IntBytes(|f.locvars|) + DumpLocVars(f.locvars,
    IntBytes(|f.upvalues|) + DumpNames(f.upvalues, rest)))
  }

  lemma FunctionParts(f: Proto, parent: Name, rest: Bytes)
    ensures DumpFunction(f, parent, rest) ==
            DumpHeading(f, parent, DumpBody(f, IntBytes(|f.p|) + DumpProtos(f, f.p, DumpDebug(f, rest))))
  {
  }

  function HeadingOf(f: Proto): Heading {
    Heading(f.source, f.linedefined, f.lastlinedefined, f.nups, f.numparams, f.isVararg, f.maxstacksize)
  }

  lemma HeadingRead(f: Proto, parent: Name, parent': Name, rest: Bytes)
    requires HeadingOk(f) && (parent == None || parent' == parent)
    ensures LoadHeading(DumpHeading(f, parent, rest), parent') == Ok((HeadingOf(f), rest))
  {
    hide LoadInt, LoadString, LoadChar, IntBytes, DumpString;
    var r4 := [f.maxstacksize] + rest;
    var r3 := [f.isVararg] + r4;
    var r2 := [f.numparams] + r3;
    var r1 := [f.nups] + r2;
    var l2 := IntBytes(f.lastlinedefined) + r1;
    var l1 := IntBytes(f.linedefined) + l2;
    StringRead(if f.source == parent then None else f.source, l1);
    IntRead(f.linedefined, l2);
    IntRead(f.lastlinedefined, r1);
    CharRead(f.nups, r2);
    CharRead(f.numparams, r3);
    CharRead(f.isVararg, r4);
    CharRead(f.maxstacksize, rest);
  }

  lemma BodyRead(f: Proto, rest: Bytes)
    requires BodyOk(f)
    ensures LoadBody(DumpBody(f, rest)) == Ok(((f.code, f.k), rest))
  {
    hide LoadInt, IntBytes, LoadConstantList;
    var r2 := DumpConstants(f.k, rest);
    var r1 := IntBytes(|f.k|) + r2;
    IntRead(|f.code|, DumpCode(f.code, r1));
    CodeRead(f.code, r1);
    BlockRead(DumpCode(f.code, []), r1, 4 * |f.code|);
    IntRead(|f.k|, r2);
    ConstantsRead(f.k, rest);
  }

  lemma DebugRead(f: Proto, rest: Bytes)
    requires DebugOk(f)
    ensures LoadDebug(DumpDebug(f, rest)) == Ok((DebugInfo(f.lineinfo, f.locvars, f.upvalues), rest))
  {
    hide LoadInt, IntBytes, LoadLocVarList, LoadNameList;
    var r4 := DumpNames(f.upvalues, rest);
    var r3 := IntBytes(|f.upvalues|) + r4;
    var r2 := DumpLocVars(f.locvars, r3);
    var r1 := IntBytes(|f.locvars|) + r2;
    IntRead(|f.lineinfo|, DumpInts(f.lineinfo, r1));
    IntsRead(f.lineinfo, r1);
    BlockRead(DumpInts(f.lineinfo, []), r1, 4 * |f.lineinfo|);
    IntRead(|f.locvars|, r2);
    LocVarsRead(f.locvars, r3);
    IntRead(|f.upvalues|, r4);
    NamesRead(f.upvalues, rest);
  }

  lemma MakeOf(f: Proto)
    ensures MakeProto(HeadingOf(f), f.code, f.k, f.p, DebugInfo(f.lineinfo, f.locvars, f.upvalues)) == f
    ensures HeadingOf(f).source == f.source
  {
  }

  const TooDeep: Result<(Proto, Bytes)> := Failed("code too deep")

  /** `LoadFunction` puts the parts together. */
  lemma Assembled(check: Proto -> bool, f: Proto, parent: Name, level: nat, z: Bytes, z1: Bytes, z2: Bytes, z3: Bytes, z4: Bytes,
                  rest: Bytes, p: Result<(seq<Proto>, Bytes)>)
    requires level + 1 <= LUAI_MAXCCALLS && check(f)
    requires LoadHeading(z, parent) == Ok((HeadingOf(f), z1)) && LoadBody(z1) == Ok(((f.code, f.k), z2))
    requires LoadInt(z2) == Ok((|f.p|, z3)) && LoadProtos(check, z3, f.source, level + 1, |f.p|) == p
    requires p == Failed("code too deep") || p == Ok((f.p, z4))
    requires LoadDebug(z4) == Ok((DebugInfo(f.lineinfo, f.locvars, f.upvalues), rest))
    ensures LoadFunction(check, z, parent, level) == if p.Failed? then TooDeep else Ok((f, rest))
  {
    hide LoadHeading, LoadBody, LoadDebug, LoadInt, LoadProtos, MakeProto, HeadingOf;
    MakeOf(f);
  }

  /** A function is read, given what becomes of the functions in it. */
  lemma FunctionStep(check: Proto -> bool, f: Proto, parent: Name, parent': Name, rest: Bytes, level: nat, p: Result<(seq<Proto>, Bytes)>)
    requires HeadingOk(f) && BodyOk(f) && DebugOk(f) && IsCount(|f.p|) && check(f)
    requires level + 1 <= LUAI_MAXCCALLS && (parent == None || parent' == parent)
    requires LoadProtos(check, DumpProtos(f, f.p, DumpDebug(f, rest)), f.source, level + 1, |f.p|) == p
    requires p == Failed("code too deep") || p == Ok((f.p, DumpDebug(f, rest)))
    ensures LoadFunction(check, DumpFunction(f, parent, rest), parent', level) == if p.Failed? then TooDeep else Ok((f, rest))
  {
    hide LoadFunction, LoadHeading, LoadBody, LoadDebug, LoadInt, LoadProtos, DumpHeading, DumpBody, DumpDebug, DumpProtos, DumpFunction,
         IntBytes, HeadingOk, BodyOk, DebugOk, MakeProto, HeadingOf;
    var d := DumpDebug(f, rest);
    var z3 := DumpProtos(f, f.p, d);
    var n := IntBytes(|f.p|) + z3;
    var z1 := DumpBody(f, n);
    FunctionParts(f, parent, rest);
    HeadingRead(f, parent, parent', z1);
    BodyRead(f, n);
    IntRead(|f.p|, z3);
    DebugRead(f, rest);
    Assembled(check, f, parent', level, DumpFunction(f, parent, rest), z1, n, z3, d, rest, p);
  }

  /** Loading inverts dumping, also of sources that were left out because they are the enclosing
      function's, as long as functions are not nested too deep; and only then. */
  lemma {:induction false} FunctionRead(check: Proto -> bool, f: Proto, parent: Name, parent': Name, rest: Bytes, level: nat)
    requires ProtoOk(check, f) && (parent == None || parent' == parent)
    ensures LoadFunction(check, DumpFunction(f, parent, rest), parent', level) ==
            if level + Depth(f) > LUAI_MAXCCALLS then TooDeep else Ok((f, rest))
    decreases f, |f.p| + 1
  {
    if level + 1 <= LUAI_MAXCCALLS {
      hide LoadFunction, LoadProtos, DumpFunction, DumpProtos, DumpDebug, HeadingOk, BodyOk, DebugOk;
      ProtosRead(check, f, f.p, DumpDebug(f, rest), level + 1);
      FunctionStep(check, f, parent, parent', rest, level,
                   LoadProtos(check, DumpProtos(f, f.p, DumpDebug(f, rest)), f.source, level + 1, |f.p|));
    } else {
      hide LoadProtos, DumpFunction, LoadHeading, LoadBody, LoadDebug;
    }
  }

  lemma {:induction false} ProtosRead(check: Proto -> bool, f: Proto, ps: seq<Proto>, rest: Bytes, level: nat)
    requires (forall i :: 0 <= i < |ps| ==> ps[i] in f.p) && ProtosOk(check, f, ps)
    ensures LoadProtos(check, DumpProtos(f, ps, rest), f.source, level, |ps|) ==
            if level + DepthOf(f, ps) > LUAI_MAXCCALLS && ps != [] then Failed("code too deep") else Ok((ps, rest))
    decreases f, |ps|
  {
    if ps != [] {
      hide LoadFunction, DumpFunction;
      FunctionRead(check, ps[0], f.source, f.source, DumpProtos(f, ps[1..], rest), level);
      ProtosRead(check, f, ps[1..], rest, level);
      assert [ps[0]] + ps[1..] == ps;
    }
  }

  lemma UndumpsDump(check: Proto -> bool, f: Proto, level: nat)
    requires ProtoOk(check, f)
    ensures Undump(check, Dump(f), level) == if level + Depth(f) > LUAI_MAXCCALLS then TooDeep else Ok((f, []))
  {
    BlockRead(Header, DumpFunction(f, None, []), |Header|);
    FunctionRead(check, f, None, Some(['=' as int, '?' as int]), [], level);
  }
}
