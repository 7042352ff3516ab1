/** Writing and reading precompiled chunks: DumpState (ldump.c), the chunked stream (lzio.c) and
    LoadState (lundump.c). */
module ChunkStreams {
  import opened Wrappers
  import opened BinaryChunk
  import opened UndumpDump

  // ----- dumping -----

  /** What is written is followed by `rest` in the end; each method names what it writes together
      with that. */
  class DumpState {
    var out: Bytes

    constructor ()
      ensures out == []
    {
      out := [];
    }

    method DumpBlock(b: Bytes, ghost rest: Bytes)
      modifies this
      ensures out + rest == old(out) + (b + rest)
    {
      Append(out, b, rest);
      out := out + b;
    }

    method DumpChar(c: int, ghost rest: Bytes)
      modifies this
      ensures out + rest == old(out) + ([c] + rest)
    {
      DumpBlock([c], rest);
    }

    method DumpInt(x: int, ghost rest: Bytes)
      modifies this
      ensures out + rest == old(out) + (IntBytes(x) + rest)
    {
      DumpBlock(IntBytes(x), rest);
    }

    method DumpName(s: Name, ghost rest: Bytes)
      modifies this
      ensures out + rest == old(out) + DumpString(s, rest)
    {
      match s {
        case None => DumpBlock(SizeBytes(0), rest);
        case Some(b) =>
          DumpBlock(SizeBytes(|b| + 1), b + ([0] + rest));
          DumpBlock(b, [0] + rest);
          DumpBlock([0], rest);
      }
    }

    method DumpConst(o: Constant, ghost rest: Bytes)
      modifies this
      ensures out + rest == old(out) + DumpConstant(o, rest)
    {
      match o {
        case CNil => DumpChar(LUA_TNIL, rest);
        case CBool(b) =>
          DumpChar(LUA_TBOOLEAN, [if b then 1 else 0] + rest);
          DumpChar(if b then 1 else 0, rest);
        case CNumber(bits) =>
          DumpChar(LUA_TNUMBER, bits + rest);
          DumpBlock(bits, rest);
        case CString(s) =>
          DumpChar(LUA_TSTRING, DumpString(s, rest));
          DumpName(s, rest);
      }
    }

    /** The first loop of `DumpConstants`. */
    method DumpConstantValues(k: seq<Constant>, ghost rest: Bytes)
      modifies this
      ensures out + rest == old(out) + DumpConstants(k, rest)
    {
      hide DumpConstant;
      ghost var out0 := out;
      var i := 0;
      assert k[0..] == k;
      while i < |k|
        invariant 0 <= i <= |k| && out + DumpConstants(k[i..], rest) == out0 + DumpConstants(k, rest)
      {
        assert k[i..][0] == k[i] && k[i..][1..] == k[i + 1..];
        DumpConst(k[i], DumpConstants(k[i + 1..], rest));
        i := i + 1;
      }
      assert k[i..] == [];
    }

    /** The second loop of `DumpConstants`. */
    method DumpFunctions(f: Proto, ghost rest: Bytes)
      modifies this
      decreases f, |f.p| + 1
      ensures out + rest == old(out) + DumpProtos(f, f.p, rest)
    {
      hide DumpFunction;
      ghost var out0 := out;
      var i := 0;
      assert f.p[0..] == f.p;
      while i < |f.p|
        invariant 0 <= i <= |f.p| && out + DumpProtos(f, f.p[i..], rest) == out0 + DumpProtos(f, f.p, rest)
      {
        assert f.p[i..][0] == f.p[i] && f.p[i..][1..] == f.p[i + 1..];
        DumpProto(f.p[i], f.source, DumpProtos(f, f.p[i + 1..], rest));
        i := i + 1;
      }
      assert f.p[i..] == [];
    }

    method DumpLocVarValues(v: seq<LocVar>, ghost rest: Bytes)
      modifies this
      ensures out + rest == old(out) + DumpLocVars(v, rest)
    {
      hide DumpString, IntBytes;
      ghost var out0 := out;
      var i := 0;
      assert v[0..] == v;
      while i < |v|
        invariant 0 <= i <= |v| && out + DumpLocVars(v[i..], rest) == out0 + DumpLocVars(v, rest)
      {
        assert v[i..][0] == v[i] && v[i..][1..] == v[i + 1..];
        ghost var r := DumpLocVars(v[i + 1..], rest);
        DumpName(v[i].varname, IntBytes(v[i].startpc) + (IntBytes(v[i].endpc) + r));
        DumpInt(v[i].startpc, IntBytes(v[i].endpc) + r);
        DumpInt(v[i].endpc, r);
        i := i + 1;
      }
      assert v[i..] == [];
    }

    method DumpNameValues(v: seq<Name>, ghost rest: Bytes)
      modifies this
      ensures out + rest == old(out) + DumpNames(v, rest)
    {
      hide DumpString;
      ghost var out0 := out;
      var i := 0;
      assert v[0..] == v;
      while i < |v|
        invariant 0 <= i <= |v| && out + DumpNames(v[i..], rest) == out0 + DumpNames(v, rest)
      {
        assert v[i..][0] == v[i] && v[i..][1..] == v[i + 1..];
        DumpName(v[i], DumpNames(v[i + 1..], rest));
        i := i + 1;
      }
      assert v[i..] == [];
    }

    /** `DumpDebug`, without stripping. */
    method DumpDebugInfo(f: Proto, ghost rest: Bytes)
      modifies this
      ensures out + rest == old(out) + DumpDebug(f, rest)
    {
      hide DumpInts, DumpLocVars, DumpNames, IntBytes;
      ghost var r4 := DumpNames(f.upvalues, rest);
      ghost var r3 := IntBytes(|f.upvalues|) + r4;
      ghost var r2 := DumpLocVars(f.locvars, r3);
      ghost var r1 := IntBytes(|f.locvars|) + r2;
      IntsAppend(f.lineinfo, r1);
      DumpInt(|f.lineinfo|, DumpInts(f.lineinfo, r1));
      DumpBlock(DumpInts(f.lineinfo, []), r1);
      DumpInt(|f.locvars|, r2);
      DumpLocVarValues(f.locvars, r3);
      DumpInt(|f.upvalues|, r4);
      DumpNameValues(f.upvalues, rest);
    }

    /** `DumpCode` and the constants. */
    method DumpCodeAndConstants(f: Proto, ghost rest: Bytes)
      modifies this
      ensures out + rest == old(out) + DumpBody(f, rest)
    {
      hide DumpCode, DumpConstants, IntBytes;
      ghost var r1 := IntBytes(|f.k|) + DumpConstants(f.k, rest);
      CodeAppend(f.code, r1);
      DumpInt(|f.code|, DumpCode(f.code, r1));
      DumpBlock(DumpCode(f.code, []), r1);
      DumpInt(|f.k|, DumpConstants(f.k, rest));
      DumpConstantValues(f.k, rest);
    }

    /** The beginning of `DumpFunction`. */
    method DumpHead(f: Proto, parent: Name, ghost rest: Bytes)
      modifies this
      ensures out + rest == old(out) + DumpHeading(f, parent, rest)
    {
      hide DumpString, IntBytes;
      ghost var r3 := [f.maxstacksize] + rest;
      ghost var r2 := [f.isVararg] + r3;
      ghost var r1 := [f.numparams] + r2;
      ghost var flags := [f.nups] + r1;
      DumpName(if f.source == parent then None else f.source, DumpLines(f, rest));
      DumpInt(f.linedefined, IntBytes(f.lastlinedefined) + flags);
      DumpInt(f.lastlinedefined, flags);
      DumpChar(f.nups, r1);
      DumpChar(f.numparams, r2);
      DumpChar(f.isVararg, r3);
      DumpChar(f.maxstacksize, rest);
    }

    /** `DumpFunction`. */
    method DumpProto(f: Proto, parent: Name, ghost rest: Bytes)
      modifies this
      decreases f, |f.p| + 2
      ensures out + rest == old(out) + DumpFunction(f, parent, rest)
    {
      hide DumpProtos, DumpDebug, DumpBody, IntBytes, DumpFunction, DumpHeading;
      FunctionParts(f, parent, rest);
      ghost var d := DumpDebug(f, rest);
      ghost var p := DumpProtos(f, f.p, d);
      ghost var n := IntBytes(|f.p|) + p;
      DumpHead(f, parent, DumpBody(f, n));
      DumpCodeAndConstants(f, n);
      DumpInt(|f.p|, p);
      DumpFunctions(f, d);
      DumpDebugInfo(f, rest);
    }

    /** `luaU_dump`. */
    method DumpChunk(f: Proto)
      requires out == []
      modifies this
      ensures out == Dump(f)
    {
      DumpBlock(Header, DumpFunction(f, None, []));
      DumpProto(f, None, []);
      assert out + [] == out && [] + (Header + DumpFunction(f, None, [])) == Dump(f);
    }
  }

  lemma {:induction false} IntsAppend(v: seq<int>, rest: Bytes)
    ensures DumpInts(v, rest) == DumpInts(v, []) + rest
  {
    if v != [] {
      IntsAppend(v[1..], rest);
      Append(IntBytes(v[0]), DumpInts(v[1..], []), rest);
    }
  }

  lemma {:induction false} CodeAppend(v: seq<int>, rest: Bytes)
    ensures DumpCode(v, rest) == DumpCode(v, []) + rest
  {
    if v != [] {
      CodeAppend(v[1..], rest);
      Append(Encode(if v[0] >= 0 then v[0] else 0, 4), DumpCode(v[1..], []), rest);
    }
  }

  // ----- the stream -----

  function Flatten(chunks: seq<Bytes>): Bytes {
    if chunks == [] then [] else chunks[0] + Flatten(chunks[1..])
  }

  /** A buffered stream: what is left of the present chunk, and the chunks that the reader is going to
      deliver. */
  class Zio {
    var p: Bytes
    var reader: seq<Bytes>

    ghost predicate Valid()
      reads this
    {
      && (forall i :: 0 <= i < |p| ==> p[i] != EOZ)
      && forall i :: 0 <= i < |reader| ==> reader[i] != [] && forall j :: 0 <= j < |reader[i]| ==> reader[i][j] != EOZ
    }

    /** What is still to be read, however it is split. */
    ghost function Content(): Bytes
      reads this
    {
      p + Flatten(reader)
    }

    constructor (chunks: seq<Bytes>)
      requires forall i :: 0 <= i < |chunks| ==> chunks[i] != [] && AllBytes(chunks[i])
      ensures Valid() && Content() == Flatten(chunks)
    {
      p := [];
      reader := chunks;
    }

    /** `luaZ_fill`: the first byte of the next chunk. */
    method Fill() returns (c: int)
      requires Valid() && p == []
      modifies this
      ensures Valid()
      ensures c == EOZ <==> old(Content()) == []
      ensures if c == EOZ then Content() == [] && p == [] else old(Content()) == [c] + Content()
    {
      if reader == [] {
        return EOZ;
      }
      c := reader[0][0];
      assert reader[0] == [c] + reader[0][1..];
      p, reader := reader[0][1..], reader[1..];
    }

    /** `luaZ_lookahead`. */
    method Lookahead() returns (c: int)
      requires Valid()
      modifies this
      ensures Valid() && Content() == old(Content())
      ensures if c == EOZ then Content() == [] else p != [] && p[0] == c
    {
      if p == [] {
        c := Fill();
        if c == EOZ {
          return;
        }
        p := [c] + p;
        return;
      }
      return p[0];
    }

    /** Takes bytes from the buffer. */
    method Take(m: nat) returns (b: Bytes)
      requires Valid() && m <= |p|
      modifies this
      ensures Valid() && |b| == m && old(Content()) == b + Content()
    {
      b := p[..m];
      Append(p[..m], p[m..], Flatten(reader));
      assert p == p[..m] + p[m..];
      p := p[m..];
    }

    /** `luaZ_read`: `n0` bytes, or all there are and how many are missing. */
    method Read(n0: nat) returns (missing: nat, b: Bytes)
      requires Valid()
      modifies this
      ensures Valid() && missing <= n0 && |b| == n0 - missing && old(Content()) == b + Content()
      ensures missing > 0 ==> Content() == []
    {
      b := [];
      var n := n0;
      ghost var z := Content();
      while n > 0
        invariant 0 <= n <= n0 && Valid() && |b| == n0 - n && z == b + Content()
        decreases n
      {
        hide Zio.Content;
        var c := Lookahead();
        if c == EOZ {
          return n, b;
        }
        var s := Take(if n <= |p| then n else |p|);
        Append(b, s, Content());
        b := b + s;
        n := n - |s|;
      }
      return 0, b;
    }
  }

  // ----- loading -----

  /** The method's result and the stream are what the function says. */
  ghost predicate Agrees<T(!new)>(r: Result<T>, z: Zio, spec: Result<(T, Bytes)>)
    reads z
  {
    && (r.Ok? <==> spec.Ok?)
    && (r.Ok? ==> z.Valid() && r.value == spec.value.0 && z.Content() == spec.value.1)
    && (r.Failed? ==> r.message == spec.message)
  }

  /** Elements read already, put before those that follow. */
  function Preceded<T>(v: seq<T>, r: Result<(seq<T>, Bytes)>): Result<(seq<T>, Bytes)> {
    if r.Ok? then Ok((v + r.value.0, r.value.1)) else r
  }

  lemma PrecededNone<T>(r: Result<(seq<T>, Bytes)>)
    ensures Preceded([], r) == r
  {
    if r.Ok? { assert [] + r.value.0 == r.value.0; }
  }

  lemma PrecededOne<T>(v: seq<T>, x: T, r: Result<(seq<T>, Bytes)>)
    ensures r.Ok? ==> Preceded(v, Ok(([x] + r.value.0, r.value.1))) == Preceded(v + [x], r)
  {
    if r.Ok? { assert v + ([x] + r.value.0) == v + [x] + r.value.0; }
  }

  lemma PrecededDone<T>(v: seq<T>, z: Bytes)
    ensures Preceded(v, Ok(([], z))) == Ok((v, z))
  {
    assert v + [] == v;
  }

  class LoadState {
    const z: Zio
    const check: Proto -> bool
    var nCcalls: nat

    constructor (z: Zio, check: Proto -> bool, nCcalls: nat)
      ensures this.z == z && this.check == check && this.nCcalls == nCcalls
    {
      this.z, this.check, this.nCcalls := z, check, nCcalls;
    }

    method Block(n: nat) returns (r: Result<Bytes>)
      requires z.Valid()
      modifies z
      ensures Agrees(r, z, LoadBlock(old(z.Content()), n))
    {
      ghost var c := z.Content();
      var missing, b := z.Read(n);
      if missing != 0 {
        return Failed("unexpected end");
      }
      assert c[..n] == b && c[n..] == z.Content();
      return Ok(b);
    }

    method Char() returns (r: Result<int>)
      requires z.Valid()
      modifies z
      ensures Agrees(r, z, LoadChar(old(z.Content())))
    {
      var b :- Block(1);
      return Ok(b[0]);
    }

    method Int() returns (r: Result<int>)
      requires z.Valid()
      modifies z
      ensures Agrees(r, z, LoadInt(old(z.Content()))) && (r.Ok? ==> r.value >= 0)
    {
      var b :- Block(4);
      var x := Signed(Decode(b));
      if x < 0 {
        return Failed("bad integer");
      }
      return Ok(x);
    }

    method Str() returns (r: Result<Name>)
      requires z.Valid()
      modifies z
      ensures Agrees(r, z, LoadString(old(z.Content())))
    {
      var b :- Block(8);
      var size := Decode(b);
      if size <= 0 {
        return Ok(None);
      }
      var s :- Block(size);
      return Ok(Some(s[..size - 1]));
    }

    method Const() returns (r: Result<Constant>)
      requires z.Valid()
      modifies z
      ensures Agrees(r, z, LoadConstant(old(z.Content())))
    {
      hide LoadString, LoadBlock, LoadChar;
      var t :- Char();
      if t == LUA_TNIL {
        return Ok(CNil);
      } else if t == LUA_TBOOLEAN {
        var b :- Char();
        return Ok(CBool(b != 0));
      } else if t == LUA_TNUMBER {
        var b :- Block(8);
        return Ok(CNumber(b));
      } else if t == LUA_TSTRING {
        var s :- Str();
        return Ok(CString(s));
      } else {
        return Failed("bad constant");
      }
    }

    /** The first loop of `LoadConstants`. */
    method ConstantValues(n: nat) returns (r: Result<seq<Constant>>)
      requires z.Valid()
      modifies z
      ensures Agrees(r, z, LoadConstantList(old(z.Content()), n))
    {
      hide LoadConstant;
      ghost var z0 := z.Content();
      var k := [];
      PrecededNone(LoadConstantList(z0, n));
      var i := 0;
      while i < n
        invariant 0 <= i <= n && z.Valid()
        invariant LoadConstantList(z0, n) == Preceded(k, LoadConstantList(z.Content(), n - i))
      {
        var c :- Const();
        PrecededOne(k, c, LoadConstantList(z.Content(), n - i - 1));
        k := k + [c];
        i := i + 1;
      }
      PrecededDone(k, z.Content());
      return Ok(k);
    }

    method LocVarValue() returns (r: Result<LocVar>)
      requires z.Valid()
      modifies z
      ensures Agrees(r, z, LoadLocVar(old(z.Content())))
    {
      hide LoadString, LoadInt;
      var s :- Str();
      var a :- Int();
      var b :- Int();
      return Ok(LocVar(s, a, b));
    }

    method LocVarValues(n: nat) returns (r: Result<seq<LocVar>>)
      requires z.Valid()
      modifies z
      ensures Agrees(r, z, LoadLocVarList(old(z.Content()), n))
    {
      hide LoadLocVar;
      ghost var z0 := z.Content();
      var v := [];
      PrecededNone(LoadLocVarList(z0, n));
      var i := 0;
      while i < n
        invariant 0 <= i <= n && z.Valid()
        invariant LoadLocVarList(z0, n) == Preceded(v, LoadLocVarList(z.Content(), n - i))
      {
        var c :- LocVarValue();
        PrecededOne(v, c, LoadLocVarList(z.Content(), n - i - 1));
        v := v + [c];
        i := i + 1;
      }
      PrecededDone(v, z.Content());
      return Ok(v);
    }

    method NameValues(n: nat) returns (r: Result<seq<Name>>)
      requires z.Valid()
      modifies z
      ensures Agrees(r, z, LoadNameList(old(z.Content()), n))
    {
      hide LoadString;
      ghost var z0 := z.Content();
      var v := [];
      PrecededNone(LoadNameList(z0, n));
      var i := 0;
      while i < n
        invariant 0 <= i <= n && z.Valid()
        invariant LoadNameList(z0, n) == Preceded(v, LoadNameList(z.Content(), n - i))
      {
        var c :- Str();
        PrecededOne(v, c, LoadNameList(z.Content(), n - i - 1));
        v := v + [c];
        i := i + 1;
      }
      PrecededDone(v, z.Content());
      return Ok(v);
    }

    method Debug() returns (r: Result<DebugInfo>)
      requires z.Valid()
      modifies z
      ensures Agrees(r, z, LoadDebug(old(z.Content())))
    {
      hide LoadInt, LoadLocVarList, LoadNameList, LoadBlock;
      var n :- Int();
      var lineinfo :- Block(4 * n);
      var m :- Int();
      var locvars :- LocVarValues(m);
      var l :- Int();
      var upvalues :- NameValues(l);
      return Ok(DebugInfo(DecodeInts(lineinfo, n), locvars, upvalues));
    }

    method Body() returns (r: Result<(seq<int>, seq<Constant>)>)
      requires z.Valid()
      modifies z
      ensures Agrees(r, z, LoadBody(old(z.Content())))
    {
      hide LoadInt, LoadConstantList, LoadBlock;
      var n :- Int();
      var code :- Block(4 * n);
      var m :- Int();
      var k :- ConstantValues(m);
      return Ok((DecodeCode(code, n), k));
    }

    method Head(parent: Name) returns (r: Result<Heading>)
      requires z.Valid()
      modifies z
      ensures Agrees(r, z, LoadHeading(old(z.Content()), parent))
    {
      hide LoadInt, LoadString, LoadChar;
      var s :- Str();
      var line1 :- Int();
      var line2 :- Int();
      var nups :- Char();
      var numparams :- Char();
      var isVararg :- Char();
      var maxstacksize :- Char();
      return Ok(Heading(if s == None then parent else s, line1, line2, nups, numparams, isVararg, maxstacksize));
    }

    /** `LoadFunction`. */
    method Function(parent: Name) returns (r: Result<Proto>)
      requires z.Valid()
      modifies z, this
      decreases LUAI_MAXCCALLS - nCcalls, 0
      ensures Agrees(r, z, LoadFunction(check, old(z.Content()), parent, old(nCcalls))) && (r.Ok? ==> nCcalls == old(nCcalls))
    {
      hide LoadHeading, LoadBody, LoadInt, LoadDebug, LoadProtos, MakeProto;
      nCcalls := nCcalls + 1;
      if nCcalls > LUAI_MAXCCALLS {
        return Failed("code too deep");
      }
      var h :- Head(parent);
      var b :- Body();
      var n :- Int();
      var p :- Functions(h.source, n);
      var d :- Debug();
      var f := MakeProto(h, b.0, b.1, p, d);
      if !check(f) {
        return Failed("bad code");
      }
      nCcalls := nCcalls - 1;
      return Ok(f);
    }

    /** The second loop of `LoadConstants`. */
    method Functions(source: Name, n: nat) returns (r: Result<seq<Proto>>)
      requires z.Valid()
      modifies z, this
      decreases LUAI_MAXCCALLS - nCcalls, 1
      ensures Agrees(r, z, LoadProtos(check, old(z.Content()), source, old(nCcalls), n)) && (r.Ok? ==> nCcalls == old(nCcalls))
    {
      hide LoadFunction;
      ghost var z0, level := z.Content(), nCcalls;
      var p := [];
      PrecededNone(LoadProtos(check, z0, source, level, n));
      var i := 0;
      while i < n
        invariant 0 <= i <= n && z.Valid() && nCcalls == level
        invariant LoadProtos(check, z0, source, level, n) == Preceded(p, LoadProtos(check, z.Content(), source, level, n - i))
      {
        var f :- Function(source);
        PrecededOne(p, f, LoadProtos(check, z.Content(), source, level, n - i - 1));
        p := p + [f];
        i := i + 1;
      }
      PrecededDone(p, z.Content());
      return Ok(p);
    }

    /** `luaU_undump`. */
    method Chunk() returns (r: Result<Proto>)
      requires z.Valid()
      modifies z, this
      ensures Agrees(r, z, Undump(check, old(z.Content()), old(nCcalls)))
    {
      hide LoadBlock, LoadFunction;
      var h :- Block(|Header|);
      if h != Header {
        return Failed("bad header");
      }
      r := Function(Some(['=' as int, '?' as int]));
    }
  }

  // ----- a dump consists of bytes -----

  lemma BytesAppend(a: Bytes, b: Bytes)
    requires AllBytes(a) && AllBytes(b)
    ensures AllBytes(a + b)
  {
  }

  lemma StringBytes(s: Name, rest: Bytes)
    requires NameOk(s) && AllBytes(rest)
    ensures AllBytes(DumpString(s, rest))
  {
    match s
    case None => EncodeLength(0, 8);
    case Some(b) => EncodeLength(|b| + 1, 8);
  }

  lemma {:induction false} IntsBytes(v: seq<int>, rest: Bytes)
    requires AllBytes(rest)
    ensures AllBytes(DumpInts(v, rest))
  {
    if v != [] {
      IntsBytes(v[1..], rest);
      if IsInt(v[0]) { EncodeLength(Unsigned(v[0]), 4); }
    }
  }

  lemma {:induction false} CodeBytes(v: seq<int>, rest: Bytes)
    requires AllBytes(rest)
    ensures AllBytes(DumpCode(v, rest))
  {
    if v != [] {
      CodeBytes(v[1..], rest);
      EncodeLength(if v[0] >= 0 then v[0] else 0, 4);
    }
  }

  lemma {:induction false} ConstantsBytes(k: seq<Constant>, rest: Bytes)
    requires AllBytes(rest) && forall i :: 0 <= i < |k| ==> ConstantOk(k[i])
    ensures AllBytes(DumpConstants(k, rest))
  {
    if k != [] {
      var r := DumpConstants(k[1..], rest);
      ConstantsBytes(k[1..], rest);
      if k[0].CString? { StringBytes(k[0].s, r); } else if k[0].CNumber? { BytesAppend(k[0].bits, r); }
    }
  }

  lemma IntPrefix(x: int, rest: Bytes)
    requires AllBytes(rest)
    ensures AllBytes(IntBytes(x) + rest)
  {
    if IsInt(x) { EncodeLength(Unsigned(x), 4); }
  }

  lemma {:induction false} LocVarsBytes(v: seq<LocVar>, rest: Bytes)
    requires AllBytes(rest) && forall i :: 0 <= i < |v| ==> LocVarOk(v[i])
    ensures AllBytes(DumpLocVars(v, rest))
  {
    if v != [] {
      hide IntBytes, DumpString;
      var r := DumpLocVars(v[1..], rest);
      LocVarsBytes(v[1..], rest);
      IntPrefix(v[0].endpc, r);
      IntPrefix(v[0].startpc, IntBytes(v[0].endpc) + r);
      assert LocVarOk(v[0]);
      StringBytes(v[0].varname, IntBytes(v[0].startpc) + (IntBytes(v[0].endpc) + r));
    }
  }

  lemma {:induction false} NamesBytes(v: seq<Name>, rest: Bytes)
    requires AllBytes(rest) && forall i :: 0 <= i < |v| ==> NameOk(v[i])
    ensures AllBytes(DumpNames(v, rest))
  {
    if v != [] {
      NamesBytes(v[1..], rest);
      StringBytes(v[0], DumpNames(v[1..], rest));
    }
  }

  lemma HeadBytes(f: Proto, parent: Name, rest: Bytes)
    requires HeadingOk(f) && AllBytes(rest)
    ensures AllBytes(DumpHeading(f, parent, rest))
  {
    hide IntBytes, DumpString;
    var flags := DumpFlags(f, rest);
    assert flags == [f.nups, f.numparams, f.isVararg, f.maxstacksize] + rest;
    BytesAppend([f.nups, f.numparams, f.isVararg, f.maxstacksize], rest);
    IntPrefix(f.lastlinedefined, flags);
    IntPrefix(f.linedefined, IntBytes(f.lastlinedefined) + flags);
    StringBytes(if f.source == parent then None else f.source, DumpLines(f, rest));
  }

  lemma BodyBytes(f: Proto, rest: Bytes)
    requires BodyOk(f) && AllBytes(rest)
    ensures AllBytes(DumpBody(f, rest))
  {
    hide IntBytes, DumpCode, DumpConstants;
    ConstantsBytes(f.k, rest);
    IntPrefix(|f.k|, DumpConstants(f.k, rest));
    CodeBytes(f.code, IntBytes(|f.k|) + DumpConstants(f.k, rest));
    IntPrefix(|f.code|, DumpCode(f.code, IntBytes(|f.k|) + DumpConstants(f.k, rest)));
  }

  lemma DebugBytes(f: Proto, rest: Bytes)
    requires DebugOk(f) && AllBytes(rest)
    ensures AllBytes(DumpDebug(f, rest))
  {
    hide IntBytes, DumpInts, DumpLocVars, DumpNames;
    NamesBytes(f.upvalues, rest);
    var r3 := IntBytes(|f.upvalues|) + DumpNames(f.upvalues, rest);
    IntPrefix(|f.upvalues|, DumpNames(f.upvalues, rest));
    LocVarsBytes(f.locvars, r3);
    var r1 := IntBytes(|f.locvars|) + DumpLocVars(f.locvars, r3);
    IntPrefix(|f.locvars|, DumpLocVars(f.locvars, r3));
    IntsBytes(f.lineinfo, r1);
    IntPrefix(|f.lineinfo|, DumpInts(f.lineinfo, r1));
  }

  lemma {:induction false} FunctionBytes(check: Proto -> bool, f: Proto, parent: Name, rest: Bytes)
    requires ProtoOk(check, f) && AllBytes(rest)
    ensures AllBytes(DumpFunction(f, parent, rest))
    decreases f, |f.p| + 1
  {
    hide DumpHeading, DumpBody, DumpDebug, IntBytes, DumpFunction, DumpProtos, HeadingOk, BodyOk, DebugOk;
    FunctionParts(f, parent, rest);
    DebugBytes(f, rest);
    ProtosBytes(check, f, f.p, DumpDebug(f, rest));
    IntPrefix(|f.p|, DumpProtos(f, f.p, DumpDebug(f, rest)));
    BodyBytes(f, IntBytes(|f.p|) + DumpProtos(f, f.p, DumpDebug(f, rest)));
    HeadBytes(f, parent, DumpBody(f, IntBytes(|f.p|) + DumpProtos(f, f.p, DumpDebug(f, rest))));
  }

  lemma {:induction false} ProtosBytes(check: Proto -> bool, f: Proto, ps: seq<Proto>, rest: Bytes)
    requires (forall i :: 0 <= i < |ps| ==> ps[i] in f.p) && ProtosOk(check, f, ps) && AllBytes(rest)
    ensures AllBytes(DumpProtos(f, ps, rest))
    decreases f, |ps|
  {
    if ps != [] {
      hide DumpFunction;
      ProtosBytes(check, f, ps[1..], rest);
      FunctionBytes(check, ps[0], f.source, DumpProtos(f, ps[1..], rest));
    }
  }

  lemma {:induction false} ChunkBytes(chunks: seq<Bytes>)
    requires AllBytes(Flatten(chunks))
    ensures forall i :: 0 <= i < |chunks| ==> AllBytes(chunks[i])
  {
    if chunks != [] {
      var a, b := chunks[0], Flatten(chunks[1..]);
      forall i | 0 <= i < |a| ensures IsByte(a[i]) { assert (a + b)[i] == a[i]; }
      forall i | 0 <= i < |b| ensures IsByte(b[i]) { assert (a + b)[|a| + i] == b[i]; }
      ChunkBytes(chunks[1..]);
    }
  }

  // ----- the round trip -----

  /** Dumping, splitting the bytes anyhow into chunks and undumping give back the prototype. */
  method RoundTrip(check: Proto -> bool, f: Proto, cut: Bytes -> seq<Bytes>) returns (r: Result<Proto>)
    requires ProtoOk(check, f)
    requires forall b :: Flatten(cut(b)) == b && forall i :: 0 <= i < |cut(b)| ==> cut(b)[i] != []
    ensures r == if Depth(f) > LUAI_MAXCCALLS then Failed("code too deep") else Ok(f)
  {
    var d := new DumpState();
    d.DumpChunk(f);
    var bytes := d.out;
    FunctionBytes(check, f, None, []);
    BytesAppend(Header, DumpFunction(f, None, []));
    ChunkBytes(cut(bytes));
    var z := new Zio(cut(bytes));
    var s := new LoadState(z, check, 0);
    r := s.Chunk();
    UndumpsDump(check, f, 0);
  }
}
