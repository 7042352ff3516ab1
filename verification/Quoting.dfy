/** `%q` (addquoted, lstrlib.c:696-723) and the lexer's strings (read_string, inclinenumber, save,
    llex.c): what is quoted is read back. Bytes are numbers below 256. */
module Quoting {
  import opened Wrappers

  const UCHAR_MAX := 255

  function Code(c: char): int { c as int }

  const QUOTE := Code('"')
  const BACKSLASH := Code('\\')
  const NEWLINE := Code('\n')
  const RETURN := Code('\r')

  // ----- quoting -----

  function QuoteByte(c: int): Bytes {
    if c == QUOTE || c == BACKSLASH || c == NEWLINE then [BACKSLASH, c]
    else if c == RETURN then [BACKSLASH, Code('r')]
    else if c == 0 then [BACKSLASH, Code('0'), Code('0'), Code('0')]
    else [c]
  }

  function Quoted(s: Bytes): Bytes {
    if s == [] then [] else QuoteByte(s[0]) + Quoted(s[1..])
  }

  lemma {:induction false} QuotedLast(s: Bytes, i: nat)
    requires i < |s|
    ensures Quoted(s[..i + 1]) == Quoted(s[..i]) + QuoteByte(s[i])
  {
    if i > 0 {
      QuotedLast(s[1..], i - 1);
      assert s[..i + 1][1..] == s[1..][..i] && s[..i][1..] == s[1..][..i - 1];
    } else {
      assert s[..1][1..] == [];
    }
  }

  /** `addquoted`. */
  method AddQuoted(s: Bytes) returns (b: Bytes)
    ensures b == [QUOTE] + Quoted(s) + [QUOTE]
  {
    b := [QUOTE];
    var i := 0;
    while i < |s|
      invariant 0 <= i <= |s| && b == [QUOTE] + Quoted(s[..i])
    {
      QuotedLast(s, i);
      var c := s[i];
      if c == QUOTE || c == BACKSLASH || c == NEWLINE {
        b := b + [BACKSLASH];
        b := b + [c];
      } else if c == RETURN {
        b := b + [BACKSLASH, Code('r')];
      } else if c == 0 {
        b := b + [BACKSLASH, Code('0'), Code('0'), Code('0')];
      } else {
        b := b + [c];
      }
      i := i + 1;
    }
    assert s[..i] == s;
    b := b + [QUOTE];
  }

  // ----- reading -----

  function Peek(z: Bytes): int { if z == [] then EOZ else z[0] }

  predicate IsNewline(c: int) { c == NEWLINE || c == RETURN }

  predicate IsDigit(c: int) { Code('0') <= c <= Code('9') }

  /** What is left after a line break of one or two characters. */
  function SkipNewline(z: Bytes): Bytes
    requires z != []
  {
    if IsNewline(Peek(z[1..])) && Peek(z[1..]) != z[0] then z[2..] else z[1..]
  }

  /** The byte that a letter after a backslash stands for. */
  function Escape(c: int): int {
    if c == Code('a') then 7
    else if c == Code('b') then 8
    else if c == Code('f') then 12
    else if c == Code('n') then 10
    else if c == Code('r') then 13
    else if c == Code('t') then 9
    else if c == Code('v') then 11
    else -1
  }

  /** How many digits `z` begins with, up to `max`. */
  function Digits(z: Bytes, max: nat): (n: nat)
    ensures n <= max && n <= |z| && forall i :: 0 <= i < n ==> IsDigit(z[i])
  {
    if max > 0 && IsDigit(Peek(z)) then 1 + Digits(z[1..], max - 1) else 0
  }

  function Decimal(z: Bytes, n: nat): int
    requires n <= |z|
  {
    if n == 0 then 0 else 10 * Decimal(z, n - 1) + (z[n - 1] - Code('0'))
  }

  datatype Reading = Reading(s: Bytes, rest: Bytes, line: int)

  function Prepend(c: int, r: Result<Reading>): Result<Reading> {
    if r.Ok? then Ok(r.value.(s := [c] + r.value.s)) else r
  }

  /** The string up to delimiter `del`, what follows it, and the line number there. */
  function ReadFrom(z: Bytes, del: int, line: int): Result<Reading>
    decreases |z|
  {
    var c := Peek(z);
    if c == EOZ then Failed("unfinished string")
    else if c == del then Ok(Reading([], z[1..], line))
    else if IsNewline(c) then Failed("unfinished string")
    else if c == BACKSLASH then
      var z1 := z[1..];
      var d := Peek(z1);
      if d == EOZ then Failed("unfinished string")
      else if Escape(d) >= 0 then Prepend(Escape(d), ReadFrom(z1[1..], del, line))
      else if IsNewline(d) then
        if line + 1 >= MAX_INT then Failed("chunk has too many lines")
        else Prepend(NEWLINE, ReadFrom(SkipNewline(z1), del, line + 1))
      else if !IsDigit(d) then Prepend(d, ReadFrom(z1[1..], del, line))
      else
        var n := Digits(z1, 3);
        if Decimal(z1, n) > UCHAR_MAX then Failed("escape sequence too large")
        else Prepend(Decimal(z1, n), ReadFrom(z1[n..], del, line))
    else Prepend(c, ReadFrom(z[1..], del, line))
  }

  class LexState {
    var current: int
    var z: Bytes
    var linenumber: int
    var buff: Bytes

    /** What is still to be read, the current character first. */
    function Input(): Bytes
      reads this
    {
      if current == EOZ then [] else [current] + z
    }

    predicate Valid()
      reads this
    {
      (current == EOZ ==> z == []) && forall i :: 0 <= i < |z| ==> z[i] != EOZ
    }

    constructor (input: Bytes)
      requires AllBytes(input)
      ensures Valid() && Input() == input && linenumber == 1 && buff == []
    {
      current := if input == [] then EOZ else input[0];
      z := if input == [] then [] else input[1..];
      linenumber := 1;
      buff := [];
    }

    method Next()
      requires Valid() && current != EOZ
      modifies this`current, this`z
      ensures Valid() && Input() == old(Input())[1..]
    {
      if z == [] {
        current := EOZ;
      } else {
        current, z := z[0], z[1..];
      }
    }

    method Save(c: int)
      modifies this`buff
      ensures buff == old(buff) + [c]
    {
      buff := buff + [c];
    }

    /** `inclinenumber`. */
    method IncLineNumber() returns (r: Result<()>)
      requires Valid() && IsNewline(current)
      modifies this`current, this`z, this`linenumber
      ensures Valid() && Input() == SkipNewline(old(Input())) && linenumber == old(linenumber) + 1
      ensures r.Failed? <==> linenumber >= MAX_INT
    {
      var was := current;
      Next();
      if IsNewline(current) && current != was {
        Next();
      }
      linenumber := linenumber + 1;
      if linenumber >= MAX_INT {
        return Failed("chunk has too many lines");
      }
      return Ok(());
    }

    /** The digits of a decimal escape. */
    method ReadDecimal() returns (c: int)
      requires Valid() && IsDigit(current)
      modifies this`current, this`z
      ensures Valid() && var n := Digits(old(Input()), 3);
              c == Decimal(old(Input()), n) && Input() == old(Input())[n..]
    {
      ghost var z0 := Input();
      var i := 0;
      c := 0;
      DigitsFrom(z0, 3, 0);
      while i < 3 && IsDigit(current)
        invariant 0 <= i <= 3 && i <= |z0| && Valid() && Input() == z0[i..]
        invariant c == Decimal(z0, i) && Digits(z0, 3) == i + Digits(z0[i..], 3 - i)
      {
        DigitsFrom(z0, 3, i);
        c := 10 * c + (current - Code('0'));
        Next();
        i := i + 1;
      }
    }

    /** The escapes of `read_string`, after the backslash. */
    method ReadEscape() returns (r: Result<()>)
      requires Valid()
      modifies this
      ensures r.Ok? ==> Valid()
      ensures old(current) == EOZ ==> r.Ok? && unchanged(this)
      ensures old(current) != EOZ && r.Ok? ==>
                exists c :: buff == old(buff) + [c] && Escaped(old(Input()), old(linenumber)) == Ok((c, Input(), linenumber))
      ensures old(current) != EOZ && r.Failed? ==> Escaped(old(Input()), old(linenumber)).Failed?
    {
      var c := Escape(current);
      if c >= 0 {
        Save(c);
        Next();
      } else if IsNewline(current) {
        Save(NEWLINE);
        r := IncLineNumber();
        return;
      } else if current == EOZ {
        return Ok(());
      } else if !IsDigit(current) {
        Save(current);
        Next();
      } else {
        c := ReadDecimal();
        if c > UCHAR_MAX {
          return Failed("escape sequence too large");
        }
        Save(c);
      }
      return Ok(());
    }

    /** `read_string`, from the opening delimiter on. */
    method ReadString(del: int) returns (r: Result<Bytes>)
      requires Valid() && current == del && (del == QUOTE || del == Code('\'')) && buff == []
      modifies this
      ensures var spec := ReadFrom(old(Input())[1..], del, old(linenumber));
              (r.Ok? <==> spec.Ok?) &&
              (r.Ok? ==> Valid() && r.value == spec.value.s && Input() == spec.value.rest && linenumber == spec.value.line)
    {
      hide ReadFrom, Escaped, PrependAll, Prepend;
      Save(current);
      Next();
      ghost var z0, line0 := Input(), linenumber;
      NonePrepended(ReadFrom(z0, del, line0));
      assert buff[1..] == [];
      while current != del
        invariant Valid() && |buff| >= 1
        invariant ReadFrom(z0, del, line0) == PrependAll(buff[1..], ReadFrom(Input(), del, linenumber))
        decreases |Input()|
      {
        ghost var b1, z1, line1 := buff[1..], Input(), linenumber;
        PrependFailed(b1, ReadFrom(z1, del, line1));
        if current == EOZ || IsNewline(current) {
          Unfinished(z1, del, line1);
          return Failed("unfinished string");
        } else if current == BACKSLASH {
          Next();
          var step := ReadEscape();
          EscapedStep(z1, del, line1);
          if step.Failed? {
            return Failed(step.message);
          }
          if z1[1..] != [] {
            PrependLast(b1, buff[|buff| - 1], ReadFrom(Input(), del, linenumber));
            assert buff[1..] == b1 + [buff[|buff| - 1]];
          } else {
            PrependFailed(b1, ReadFrom(Input(), del, linenumber));
            BothFailed(b1, ReadFrom(z1, del, line1), ReadFrom(Input(), del, linenumber));
          }
        } else {
          Save(current);
          Next();
          PlainStep(z1, del, line1);
          PrependLast(b1, z1[0], ReadFrom(Input(), del, linenumber));
          assert buff[1..] == b1 + [z1[0]];
        }
      }
      StringEnds(Input(), del, linenumber);
      PrependOk(buff[1..], ReadFrom(Input(), del, linenumber));
      ghost var s := buff[1..];
      Save(current);
      Next();
      assert buff[1..|buff| - 1] == s;
      return Ok(buff[1..|buff| - 1]);
    }
  }

  lemma NonePrepended(r: Result<Reading>)
    ensures PrependAll([], r) == r
  {
    if r.Ok? { assert [] + r.value.s == r.value.s; }
  }

  lemma Unfinished(z: Bytes, del: int, line: int)
    requires Peek(z) != del && (Peek(z) == EOZ || IsNewline(Peek(z)))
    ensures ReadFrom(z, del, line).Failed?
  {
  }

  lemma PlainStep(z: Bytes, del: int, line: int)
    requires z != [] && z[0] != del && z[0] != EOZ && !IsNewline(z[0]) && z[0] != BACKSLASH
    ensures ReadFrom(z, del, line) == Prepend(z[0], ReadFrom(z[1..], del, line))
  {
  }

  lemma StringEnds(z: Bytes, del: int, line: int)
    requires z != [] && z[0] == del != EOZ
    ensures ReadFrom(z, del, line) == Ok(Reading([], z[1..], line))
  {
  }

  lemma BothFailed(s: Bytes, r: Result<Reading>, r': Result<Reading>)
    requires r.Failed? && r'.Failed? && r.message == r'.message
    ensures PrependAll(s, r) == PrependAll(s, r')
  {
  }

  lemma {:induction false} DigitsFrom(z: Bytes, max: nat, i: nat)
    requires i <= max && i <= |z|
    ensures z[0..] == z
    ensures i < max && i < |z| && IsDigit(z[i]) ==> Digits(z[i..], max - i) == 1 + Digits(z[i + 1..], max - i - 1)
    ensures !(i < max && i < |z| && IsDigit(z[i])) ==> Digits(z[i..], max - i) == 0
  {
    if i < |z| { assert z[i..][1..] == z[i + 1..]; }
  }

  /** An escape sequence after its backslash: the byte, what follows, and the line. */
  function Escaped(z: Bytes, line: int): Result<(int, Bytes, int)>
    requires z != []
  {
    var d := z[0];
    if Escape(d) >= 0 then Ok((Escape(d), z[1..], line))
    else if IsNewline(d) then
      if line + 1 >= MAX_INT then Failed("chunk has too many lines") else Ok((NEWLINE, SkipNewline(z), line + 1))
    else if !IsDigit(d) then Ok((d, z[1..], line))
    else
      var n := Digits(z, 3);
      if Decimal(z, n) > UCHAR_MAX then Failed("escape sequence too large") else Ok((Decimal(z, n), z[n..], line))
  }

  lemma EscapedStep(z: Bytes, del: int, line: int)
    requires z != [] && z[0] == BACKSLASH && del != BACKSLASH && forall i :: 0 <= i < |z| ==> z[i] != EOZ
    ensures var z1 := z[1..];
            if z1 == [] then ReadFrom(z, del, line) == ReadFrom(z1, del, line) == Failed("unfinished string")
            else if Escaped(z1, line).Failed? then ReadFrom(z, del, line).Failed?
            else
              var e := Escaped(z1, line).value;
              ReadFrom(z, del, line) == Prepend(e.0, ReadFrom(e.1, del, e.2)) && |e.1| < |z|
  {
  }

  function PrependAll(s: Bytes, r: Result<Reading>): Result<Reading> {
    if r.Ok? then Ok(r.value.(s := s + r.value.s)) else r
  }

  lemma PrependFailed(s: Bytes, r: Result<Reading>)
    ensures r.Failed? ==> PrependAll(s, r).Failed?
  {
  }

  lemma PrependLast(s: Bytes, c: int, r: Result<Reading>)
    ensures PrependAll(s, Prepend(c, r)) == PrependAll(s + [c], r)
  {
    if r.Ok? { assert s + ([c] + r.value.s) == s + [c] + r.value.s; }
  }

  lemma PrependOk(s: Bytes, r: Result<Reading>)
    ensures r.Ok? && r.value.s == [] ==> PrependAll(s, r) == Ok(r.value.(s := s))
  {
    assert s + [] == s;
  }

  // ----- the round trip -----

  /** How many line breaks `s` contains. */
  function Lines(s: Bytes): nat {
    if s == [] then 0 else (if s[0] == NEWLINE then 1 else 0) + Lines(s[1..])
  }

  lemma ThreeZeros(z1: Bytes, z: Bytes)
    requires z1 == [Code('0'), Code('0'), Code('0')] + z
    ensures Digits(z1, 3) == 3 && Decimal(z1, 3) == 0 && z1[3..] == z
  {
    assert z1[1..] == [Code('0'), Code('0')] + z;
    assert z1[1..][1..] == [Code('0')] + z;
    assert Digits(z1[1..][1..], 1) == 1;
    assert Digits(z1[1..], 2) == 2;
    assert Decimal(z1, 1) == 0;
    assert Decimal(z1, 2) == 0;
  }

  /** The quoted form of one byte is read as that byte, whatever follows. */
  lemma QuoteByteRead(c: int, z: Bytes, line: int)
    requires IsByte(c) && AllBytes(z) && z != [] && z[0] != RETURN
    ensures if c == NEWLINE && line + 1 >= MAX_INT then ReadFrom(QuoteByte(c) + z, QUOTE, line).Failed?
            else ReadFrom(QuoteByte(c) + z, QUOTE, line) == Prepend(c, ReadFrom(z, QUOTE, if c == NEWLINE then line + 1 else line))
  {
    var w := QuoteByte(c) + z;
    if c == 0 {
      var z1 := w[1..];
      assert z1 == [Code('0'), Code('0'), Code('0')] + z;
      ThreeZeros(z1, z);
    } else if c == QUOTE || c == BACKSLASH || c == NEWLINE || c == RETURN {
      assert w[1..][1..] == z;
    } else {
      assert w[1..] == z;
    }
  }

  lemma QuotedStarts(s: Bytes, rest: Bytes)
    requires AllBytes(s) && AllBytes(rest)
    ensures var z := Quoted(s) + [QUOTE] + rest; z != [] && z[0] != RETURN && AllBytes(z)
    decreases s
  {
    if s != [] {
      QuotedStarts(s[1..], rest);
      assert Quoted(s) + [QUOTE] + rest == QuoteByte(s[0]) + (Quoted(s[1..]) + [QUOTE] + rest);
    }
  }

  lemma QuotedFirst(s: Bytes, rest: Bytes)
    requires s != []
    ensures Quoted(s) + [QUOTE] + rest == QuoteByte(s[0]) + (Quoted(s[1..]) + [QUOTE] + rest)
  {
  }

  lemma BytesTail(s: Bytes)
    requires AllBytes(s) && s != []
    ensures IsByte(s[0]) && AllBytes(s[1..])
  {
  }

  /** Every byte string, quoted, is read back as itself, and the line number counts its breaks; only
      too many of them make the reading fail. */
  lemma {:induction false} QuotedRead(s: Bytes, rest: Bytes, line: int)
    requires AllBytes(s) && AllBytes(rest) && line < MAX_INT
    ensures var r := ReadFrom(Quoted(s) + [QUOTE] + rest, QUOTE, line);
            if line + Lines(s) < MAX_INT then r == Ok(Reading(s, rest, line + Lines(s))) else r.Failed?
  {
    if s == [] {
      assert ([QUOTE] + rest)[1..] == rest && Quoted(s) + [QUOTE] + rest == [QUOTE] + rest;
    } else {
      hide ReadFrom, QuoteByte, AllBytes, Quoted;
      BytesTail(s);
      var z := Quoted(s[1..]) + [QUOTE] + rest;
      QuotedFirst(s, rest);
      QuotedStarts(s[1..], rest);
      QuoteByteRead(s[0], z, line);
      if s[0] != NEWLINE || line + 1 < MAX_INT {
        QuotedRead(s[1..], rest, if s[0] == NEWLINE then line + 1 else line);
      }
      assert [s[0]] + s[1..] == s;
    }
  }

  /** `%q` and the lexer, put together. */
  method RoundTrip(s: Bytes) returns (back: Result<Bytes>)
    requires AllBytes(s)
    ensures if 1 + Lines(s) < MAX_INT then back == Ok(s) else back.Failed?
  {
    var text := AddQuoted(s);
    QuotedStarts(s, []);
    assert text == [QUOTE] + (Quoted(s) + [QUOTE] + []);
    var ls := new LexState(text);
    back := ls.ReadString(QUOTE);
    QuotedRead(s, [], 1);
  }
}
