/** Precompiled chunks (ldump.c, lundump.c): the bytes a function prototype is written as, and what
    is read from bytes. Numbers are little-endian; an int has 4 bytes, a size_t and a lua_Number 8. */
module BinaryChunk {
  import opened Wrappers

  /** A number is its representation. */
  datatype Constant = CNil | CBool(b: bool) | CNumber(bits: Bytes) | CString(s: Name)

  /** A name that debug information may lack. */
  type Name = Option<Bytes>

  datatype LocVar = LocVar(varname: Name, startpc: int, endpc: int)

  datatype Proto = Proto(
    source: Name, linedefined: int, lastlinedefined: int, nups: int, numparams: int, isVararg: int, maxstacksize: int,
    code: seq<int>, k: seq<Constant>, p: seq<Proto>,
    lineinfo: seq<int>, locvars: seq<LocVar>, upvalues: seq<Name>)

  const LUA_TNIL := 0
  const LUA_TBOOLEAN := 1
  const LUA_TNUMBER := 3
  const LUA_TSTRING := 4
  const TWO31 := 2147483648
  const TWO32 := 4294967296

  // ----- numbers as bytes -----

  function Power256(n: nat): (p: nat)
    ensures p > 0
  {
    if n == 0 then 1 else 256 * Power256(n - 1)
  }

  function Encode(x: nat, n: nat): Bytes {
    if n == 0 then [] else [x % 256] + Encode(x / 256, n - 1)
  }

  function Decode(b: Bytes): int {
    if b == [] then 0 else b[0] + 256 * Decode(b[1..])
  }

  lemma {:induction false} DecodeEncode(x: nat, n: nat)
    requires x < Power256(n)
    ensures |Encode(x, n)| == n && AllBytes(Encode(x, n)) && Decode(Encode(x, n)) == x
  {
    if n > 0 {
      DecodeEncode(x / 256, n - 1);
      assert Encode(x, n)[1..] == Encode(x / 256, n - 1);
    }
  }

  lemma {:induction false} EncodeLength(x: nat, n: nat)
    ensures |Encode(x, n)| == n && AllBytes(Encode(x, n))
  {
    if n > 0 { EncodeLength(x / 256, n - 1); }
  }

  /** The least significant byte comes first. */
  lemma {:induction false} ByteAt(x: nat, n: nat, i: nat)
    requires i < n
    ensures |Encode(x, n)| == n && Encode(x, n)[i] == x / Power256(i) % 256
  {
    EncodeLength(x, n);
    if i > 0 {
      ByteAt(x / 256, n - 1, i - 1);
      Shifted(x, i - 1);
    }
  }

  lemma Shifted(x: nat, i: nat)
    ensures x / 256 / Power256(i) == x / Power256(i + 1)
  {
    var d := Power256(i);
    var a := x / 256;
    Multiply(a % d + 1, d, 256);
    Quotient(x, 256 * d, a / d, 256 * (a % d) + x % 256);
  }

  lemma Multiply(a: nat, b: nat, d: nat)
    requires a <= b
    ensures a * d <= b * d
  {
  }

  lemma Quotient(x: nat, d: nat, q: nat, r: nat)
    requires d > 0 && x == q * d + r && r < d
    ensures x / d == q
  {
    var k := x / d;
    Multiply(if k < q then k + 1 else q, q, d);
    Multiply(if q < k then q + 1 else k, k, d);
    assert x == k * d + x % d;
  }

  /** Two's complement. */
  function Unsigned(x: int): nat
    requires -TWO31 <= x < TWO31
  {
    if x < 0 then x + TWO32 else x
  }

  function Signed(x: int): int { if x >= TWO31 then x - TWO32 else x }

  predicate IsInt(x: int) { -TWO31 <= x < TWO31 }

  predicate IsCount(x: int) { 0 <= x < TWO31 }

  function IntBytes(x: int): Bytes { if IsInt(x) then Encode(Unsigned(x), 4) else [0, 0, 0, 0] }

  function SizeBytes(x: nat): Bytes { Encode(x, 8) }

  // ----- dumping: the bytes of something, followed by `rest` -----

  function DumpString(s: Name, rest: Bytes): Bytes {
    match s
    case None => SizeBytes(0) + rest
    case Some(b) => SizeBytes(|b| + 1) + (b + ([0] + rest))
  }

  function DumpInts(v: seq<int>, rest: Bytes): Bytes {
    if v == [] then rest else IntBytes(v[0]) + DumpInts(v[1..], rest)
  }

  /** Instructions are unsigned. */
  function DumpCode(v: seq<int>, rest: Bytes): Bytes {
    if v == [] then rest else Encode(if v[0] >= 0 then v[0] else 0, 4) + DumpCode(v[1..], rest)
  }

  function DumpConstant(c: Constant, rest: Bytes): Bytes {
    match c
    case CNil => [LUA_TNIL] + rest
    case CBool(b) => [LUA_TBOOLEAN] + ([if b then 1 else 0] + rest)
    case CNumber(bits) => [LUA_TNUMBER] + (bits + rest)
    case CString(s) => [LUA_TSTRING] + DumpString(s, rest)
  }

  function DumpConstants(k: seq<Constant>, rest: Bytes): Bytes {
    if k == [] then rest else DumpConstant(k[0], DumpConstants(k[1..], rest))
  }

  function DumpLocVars(v: seq<LocVar>, rest: Bytes): Bytes {
    if v == [] then rest
    else DumpString(v[0].varname, IntBytes(v[0].startpc) + (IntBytes(v[0].endpc) + DumpLocVars(v[1..], rest)))
  }

  function DumpNames(v: seq<Name>, rest: Bytes): Bytes {
    if v == [] then rest else DumpString(v[0], DumpNames(v[1..], rest))
  }

  /** `DumpFunction`, without stripping, for a function inside one with source `parent`. */
  function DumpFunction(f: Proto, parent: Name, rest: Bytes): Bytes
    decreases f, |f.p| + 1
  {
    DumpString(if f.source == parent then None else f.source,
    IntBytes(f.linedefined) + (IntBytes(f.lastlinedefined) +
    ([f.nups] + ([f.numparams] + ([f.isVararg] + ([f.maxstacksize] +
    (IntBytes(|f.code|) + DumpCode(f.code,
    IntBytes(|f.k|) + DumpConstants(f.k,
    IntBytes(|f.p|) + DumpProtos(f, f.p,
    IntBytes(|f.lineinfo|) + DumpInts(f.lineinfo,
    IntBytes(|f.locvars|) + DumpLocVars(f.locvars,
    IntBytes(|f.upvalues|) + DumpNames(f.upvalues, rest)))))))))))))
  }

  function DumpProtos(f: Proto, ps: seq<Proto>, rest: Bytes): Bytes
    requires forall i :: 0 <= i < |ps| ==> ps[i] in f.p
    decreases f, |ps|
  {
    if ps == [] then rest else DumpFunction(ps[0], f.source, DumpProtos(f, ps[1..], rest))
  }

  /** `luaU_header`: signature, version, format, endianness, sizes of int, size_t, Instruction and
      lua_Number, and whether the latter is integral. */
  const Header: Bytes := [27, 'L' as int, 'u' as int, 'a' as int, 0x51, 0, 1, 4, 8, 4, 8, 0]

  /** `luaU_dump`. */
  function Dump(f: Proto): Bytes { Header + DumpFunction(f, None, []) }

  /** How a binary chunk begins, byte by byte: the signature and the format, no name for the source,
      the lines (bytes 20 and 24), four bytes of counts and flags, and the number of instructions. */
  lemma ChunkBegins(f: Proto)
    requires f.source == None && IsCount(f.linedefined) && IsCount(f.lastlinedefined) && IsCount(|f.code|)
    ensures var d := Dump(f);
            && |d| >= 36
            && d[..12] == [0x1B, 0x4C, 0x75, 0x61, 0x51, 0, 1, 4, 8, 4, 8, 0]
            && d[12..20] == [0, 0, 0, 0, 0, 0, 0, 0]
            && d[20..24] == Encode(f.linedefined, 4) && d[24..28] == Encode(f.lastlinedefined, 4)
            && d[28..32] == [f.nups, f.numparams, f.isVararg, f.maxstacksize]
            && d[32..36] == Encode(|f.code|, 4)
  {
    hide DumpCode, DumpConstants, DumpProtos, DumpInts, DumpLocVars, DumpNames, Encode;
    EncodeLength(f.linedefined, 4);
    EncodeLength(f.lastlinedefined, 4);
    EncodeLength(|f.code|, 4);
    NoSize();
    var four := [f.nups, f.numparams, f.isVararg, f.maxstacksize];
    var tail := DumpCode(f.code,
                IntBytes(|f.k|) + DumpConstants(f.k,
                IntBytes(|f.p|) + DumpProtos(f, f.p,
                IntBytes(|f.lineinfo|) + DumpInts(f.lineinfo,
                IntBytes(|f.locvars|) + DumpLocVars(f.locvars,
                IntBytes(|f.upvalues|) + DumpNames(f.upvalues, []))))));
    FourBytes(f.nups, f.numparams, f.isVararg, f.maxstacksize, IntBytes(|f.code|) + tail);
    Pieces(Header, SizeBytes(0), IntBytes(f.linedefined), IntBytes(f.lastlinedefined), four, IntBytes(|f.code|), tail);
  }

  lemma FourBytes(a: int, b: int, c: int, d: int, rest: Bytes)
    ensures [a] + ([b] + ([c] + ([d] + rest))) == [a, b, c, d] + rest
  {
  }

  lemma Skip(a: Bytes, t: Bytes, i: nat, j: nat)
    requires i <= j <= |t|
    ensures (a + t)[|a| + i..|a| + j] == t[i..j]
  {
  }

  lemma Pieces(h: Bytes, z: Bytes, a: Bytes, b: Bytes, m: Bytes, c: Bytes, rest: Bytes)
    requires |h| == 12 && |z| == 8 && |a| == |b| == |m| == |c| == 4
    ensures var d := h + (z + (a + (b + (m + (c + rest)))));
            |d| >= 36 && d[..12] == h && d[12..20] == z && d[20..24] == a && d[24..28] == b && d[28..32] == m && d[32..36] == c
  {
    var t5 := c + rest;
    var t4 := m + t5;
    var t3 := b + t4;
    var t2 := a + t3;
    var t1 := z + t2;
    Skip(h, t1, 0, 8);
    Skip(h, t1, 8, 12);
    Skip(z, t2, 0, 4);
    Skip(h, t1, 12, 16);
    Skip(z, t2, 4, 8);
    Skip(a, t3, 0, 4);
    Skip(h, t1, 16, 20);
    Skip(z, t2, 8, 12);
    Skip(a, t3, 4, 8);
    Skip(b, t4, 0, 4);
    Skip(h, t1, 20, 24);
    Skip(z, t2, 12, 16);
    Skip(a, t3, 8, 12);
    Skip(b, t4, 4, 8);
    Skip(m, t5, 0, 4);
  }

  lemma NoSize()
    ensures SizeBytes(0) == [0, 0, 0, 0, 0, 0, 0, 0]
  {
    EncodeLength(0, 8);
    forall i | 0 <= i < 8 ensures SizeBytes(0)[i] == 0 {
      ByteAt(0, 8, i);
    }
  }

  // ----- loading: something and the bytes that follow it -----

  function LoadBlock(z: Bytes, n: nat): (r: Result<(Bytes, Bytes)>)
    ensures r.Ok? ==> |r.value.0| == n && z == r.value.0 + r.value.1
  {
    if |z| < n then Failed("unexpected end") else Ok((z[..n], z[n..]))
  }

  function LoadChar(z: Bytes): Result<(int, Bytes)> {
    var b :- LoadBlock(z, 1);
    Ok((b.0[0], b.1))
  }

  function LoadInt(z: Bytes): Result<(int, Bytes)> {
    var b :- LoadBlock(z, 4);
    var x := Signed(Decode(b.0));
    if x < 0 then Failed("bad integer") else Ok((x, b.1))
  }

  function LoadString(z: Bytes): Result<(Name, Bytes)> {
    var b :- LoadBlock(z, 8);
    var size := Decode(b.0);
    if size <= 0 then Ok((None, b.1))
    else
      var s :- LoadBlock(b.1, size);
      Ok((Some(s.0[..size - 1]), s.1))
  }

  function DecodeInts(b: Bytes, n: nat): seq<int>
    requires |b| == 4 * n
  {
    if n == 0 then [] else [Signed(Decode(b[..4]))] + DecodeInts(b[4..], n - 1)
  }

  function DecodeCode(b: Bytes, n: nat): seq<int>
    requires |b| == 4 * n
  {
    if n == 0 then [] else [Decode(b[..4])] + DecodeCode(b[4..], n - 1)
  }

  function LoadIntVector(z: Bytes, n: nat): Result<(seq<int>, Bytes)> {
    var b :- LoadBlock(z, 4 * n);
    Ok((DecodeInts(b.0, n), b.1))
  }

  function LoadCodeVector(z: Bytes, n: nat): Result<(seq<int>, Bytes)> {
    var b :- LoadBlock(z, 4 * n);
    Ok((DecodeCode(b.0, n), b.1))
  }

  function LoadConstant(z: Bytes): Result<(Constant, Bytes)> {
    var t :- LoadChar(z);
    if t.0 == LUA_TNIL then Ok((CNil, t.1))
    else if t.0 == LUA_TBOOLEAN then
      var b :- LoadChar(t.1);
      Ok((CBool(b.0 != 0), b.1))
    else if t.0 == LUA_TNUMBER then
      var b :- LoadBlock(t.1, 8);
      Ok((CNumber(b.0), b.1))
    else if t.0 == LUA_TSTRING then
      var s :- LoadString(t.1);
      Ok((CString(s.0), s.1))
    else Failed("bad constant")
  }

  function LoadConstantList(z: Bytes, n: nat): Result<(seq<Constant>, Bytes)>
    decreases n
  {
    if n == 0 then Ok(([], z))
    else
      var c :- LoadConstant(z);
      var l :- LoadConstantList(c.1, n - 1);
      Ok(([c.0] + l.0, l.1))
  }

  function LoadLocVar(z: Bytes): Result<(LocVar, Bytes)> {
    var s :- LoadString(z);
    var a :- LoadInt(s.1);
    var b :- LoadInt(a.1);
    Ok((LocVar(s.0, a.0, b.0), b.1))
  }

  function LoadLocVarList(z: Bytes, n: nat): Result<(seq<LocVar>, Bytes)>
    decreases n
  {
    if n == 0 then Ok(([], z))
    else
      var c :- LoadLocVar(z);
      var l :- LoadLocVarList(c.1, n - 1);
      Ok(([c.0] + l.0, l.1))
  }

  function LoadNameList(z: Bytes, n: nat): Result<(seq<Name>, Bytes)>
    decreases n
  {
    if n == 0 then Ok(([], z))
    else
      var c :- LoadString(z);
      var l :- LoadNameList(c.1, n - 1);
      Ok(([c.0] + l.0, l.1))
  }

  /** The fields before the code. */
  datatype Heading = Heading(source: Name, linedefined: int, lastlinedefined: int, nups: int, numparams: int, isVararg: int, maxstacksize: int)

  function LoadHeading(z: Bytes, parent: Name): Result<(Heading, Bytes)> {
    var s :- LoadString(z);
    var l1 :- LoadInt(s.1);
    var l2 :- LoadInt(l1.1);
    var n1 :- LoadChar(l2.1);
    var n2 :- LoadChar(n1.1);
    var n3 :- LoadChar(n2.1);
    var n4 :- LoadChar(n3.1);
    Ok((Heading(if s.0 == None then parent else s.0, l1.0, l2.0, n1.0, n2.0, n3.0, n4.0), n4.1))
  }

  datatype DebugInfo = DebugInfo(lineinfo: seq<int>, locvars: seq<LocVar>, upvalues: seq<Name>)

  function LoadDebug(z: Bytes): Result<(DebugInfo, Bytes)> {
    var n1 :- LoadInt(z);
    var li :- LoadIntVector(n1.1, n1.0);
    var n2 :- LoadInt(li.1);
    var lv :- LoadLocVarList(n2.1, n2.0);
    var n3 :- LoadInt(lv.1);
    var uv :- LoadNameList(n3.1, n3.0);
    Ok((DebugInfo(li.0, lv.0, uv.0), uv.1))
  }

  function LoadBody(z: Bytes): Result<((seq<int>, seq<Constant>), Bytes)> {
    var n1 :- LoadInt(z);
    var code :- LoadCodeVector(n1.1, n1.0);
    var n2 :- LoadInt(code.1);
    var k :- LoadConstantList(n2.1, n2.0);
    Ok(((code.0, k.0), k.1))
  }

  function MakeProto(h: Heading, code: seq<int>, k: seq<Constant>, p: seq<Proto>, d: DebugInfo): Proto {
    Proto(h.source, h.linedefined, h.lastlinedefined, h.nups, h.numparams, h.isVararg, h.maxstacksize,
          code, k, p, d.lineinfo, d.locvars, d.upvalues)
  }

  /** `LoadFunction`, `level` calls deep; `check` is the bytecode checker. */
  function LoadFunction(check: Proto -> bool, z: Bytes, parent: Name, level: nat): Result<(Proto, Bytes)>
    decreases LUAI_MAXCCALLS - level, 0
  {
    if level + 1 > LUAI_MAXCCALLS then Failed("code too deep")
    else
      var h :- LoadHeading(z, parent);
      var b :- LoadBody(h.1);
      var n :- LoadInt(b.1);
      var p :- LoadProtos(check, n.1, h.0.source, level + 1, n.0);
      var d :- LoadDebug(p.1);
      var f := MakeProto(h.0, b.0.0, b.0.1, p.0, d.0);
      if check(f) then Ok((f, d.1)) else Failed("bad code")
  }

  function LoadProtos(check: Proto -> bool, z: Bytes, source: Name, level: nat, n: nat): Result<(seq<Proto>, Bytes)>
    decreases LUAI_MAXCCALLS - level, n + 1
  {
    if n == 0 then Ok(([], z))
    else
      var f :- LoadFunction(check, z, source, level);
      var l :- LoadProtos(check, f.1, source, level, n - 1);
      Ok(([f.0] + l.0, l.1))
  }

  /** `luaU_undump`. */
  function Undump(check: Proto -> bool, z: Bytes, level: nat): Result<(Proto, Bytes)> {
    var h :- LoadBlock(z, |Header|);
    if h.0 != Header then Failed("bad header") else LoadFunction(check, h.1, Some(['=' as int, '?' as int]), level)
  }
}
