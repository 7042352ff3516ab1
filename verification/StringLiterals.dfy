/** What the pieces of a string literal stand for (Lua 5.1 Reference Manual, section 2.1; read_string,
    llex.c:278-331), by a table of escapes and the way each piece is written. In ASCII the
    quotes are 34 and 39, the backslash 92, the line breaks 10 and 13, the digits 48 to 57. */
module StringLiterals {
  import opened Wrappers
  import opened Quoting

  const ESCAPES: map<char, int> := map['a' := 7, 'b' := 8, 'f' := 12, 'n' := 10, 'r' := 13, 't' := 9, 'v' := 11]

  datatype Piece =
    | Plain(byte: int)
    | Letter(letter: char)
    /** A backslash before any other character that is no digit or line break. */
    | Itself(byte: int)
    | Number(n: nat)
    /** A backslash before a line break of one or two characters. */
    | Break(chars: Bytes)

  predicate IsBreak(chars: Bytes) { chars in {[10], [13], [10, 13], [13, 10]} }

  predicate Written(p: Piece, del: int) {
    match p
    case Plain(b) => IsByte(b) && b != del && b != 92 && b != 10 && b != 13
    case Letter(l) => l in ESCAPES
    case Itself(b) => IsByte(b) && !(48 <= b <= 57) && b != 10 && b != 13 && forall l :: l in ESCAPES ==> b != l as int
    case Number(n) => n <= 255
    case Break(cs) => IsBreak(cs)
  }

  function Spelled(p: Piece): Bytes {
    match p
    case Plain(b) => [b]
    case Letter(l) => [92, l as int]
    case Itself(b) => [92, b]
    case Number(n) => [92, 48 + n / 100, 48 + n / 10 % 10, 48 + n % 10]
    case Break(cs) => [92] + cs
  }

  /** The byte that a piece stands for; any line break is a newline. */
  function Value(p: Piece): int {
    match p
    case Plain(b) => b
    case Letter(l) => if l in ESCAPES then ESCAPES[l] else 0
    case Itself(b) => b
    case Number(n) => n
    case Break(_) => 10
  }

  function Text(ps: seq<Piece>): Bytes {
    if ps == [] then [] else Spelled(ps[0]) + Text(ps[1..])
  }

  function Denoted(ps: seq<Piece>): Bytes {
    if ps == [] then [] else [Value(ps[0])] + Denoted(ps[1..])
  }

  function Breaks(ps: seq<Piece>): nat {
    if ps == [] then 0 else (if ps[0].Break? then 1 else 0) + Breaks(ps[1..])
  }

  /** A literal written piece by piece is read as the bytes that the pieces stand for. */
  lemma {:induction false} LiteralRead(ps: seq<Piece>, del: int, rest: Bytes, line: int)
    requires del == 34 || del == 39
    requires (forall i :: 0 <= i < |ps| ==> Written(ps[i], del)) && line + Breaks(ps) < MAX_INT
    ensures ReadFrom(Text(ps) + [del] + rest, del, line) == Ok(Reading(Denoted(ps), rest, line + Breaks(ps)))
  {
    hide ReadFrom, Written, Spelled, Value;
    if ps == [] {
      assert ([del] + rest)[1..] == rest && Text(ps) + [del] + rest == [del] + rest;
      StringEnds([del] + rest, del, line);
    } else {
      var tail := Text(ps[1..]) + [del] + rest;
      TextTail(ps, del, rest);
      LiteralRead(ps[1..], del, rest, line + if ps[0].Break? then 1 else 0);
      NoBreak(ps[1..], del, rest);
      PieceRead(ps[0], tail, del, line);
    }
  }

  lemma TextTail(ps: seq<Piece>, del: int, rest: Bytes)
    requires ps != []
    ensures Text(ps) + [del] + rest == Spelled(ps[0]) + (Text(ps[1..]) + [del] + rest)
  {
    assert Text(ps) == Spelled(ps[0]) + Text(ps[1..]);
  }

  lemma NoBreak(ps: seq<Piece>, del: int, rest: Bytes)
    requires del == 34 || del == 39
    requires forall i :: 0 <= i < |ps| ==> Written(ps[i], del)
    ensures var t := Text(ps) + [del] + rest; t != [] && t[0] != 10 && t[0] != 13
  {
    if ps != [] { assert (Text(ps) + [del] + rest)[0] == Spelled(ps[0])[0]; }
  }

  /** One piece is read, whatever follows. */
  lemma PieceRead(p: Piece, tail: Bytes, del: int, line: int)
    requires (del == 34 || del == 39) && Written(p, del) && tail != [] && tail[0] != 10 && tail[0] != 13
    requires line + (if p.Break? then 1 else 0) < MAX_INT
    ensures ReadFrom(Spelled(p) + tail, del, line) ==
            Prepend(Value(p), ReadFrom(tail, del, line + if p.Break? then 1 else 0))
  {
    var z := Spelled(p) + tail;
    match p
    case Plain(b) => assert z[1..] == tail;
    case Letter(l) => assert z[1..] == [l as int] + tail && z[1..][1..] == tail;
    case Itself(b) => assert z[1..] == [b] + tail && z[1..][1..] == tail; NoEscape(b);
    case Number(n) => NumberRead(n, tail, del, line);
    case Break(cs) => BreakRead(cs, tail, del, line);
  }

  lemma NoEscape(b: int)
    requires forall l :: l in ESCAPES ==> b != l as int
    ensures Escape(b) < 0
  {
    assert 'a' in ESCAPES && 'b' in ESCAPES && 'f' in ESCAPES && 'n' in ESCAPES && 'r' in ESCAPES && 't' in ESCAPES && 'v' in ESCAPES;
  }

  lemma NumberRead(n: nat, tail: Bytes, del: int, line: int)
    requires n <= 255 && del != 92
    ensures ReadFrom(Spelled(Number(n)) + tail, del, line) == Prepend(n, ReadFrom(tail, del, line))
  {
    hide ReadFrom;
    var a, b, c := 48 + n / 100, 48 + n / 10 % 10, 48 + n % 10;
    DecimalRead(a, b, c, tail, del, line);
  }

  lemma DecimalRead(a: int, b: int, c: int, tail: Bytes, del: int, line: int)
    requires IsDigit(a) && IsDigit(b) && IsDigit(c) && del != 92 && 100 * (a - 48) + 10 * (b - 48) + (c - 48) <= 255
    ensures ReadFrom([92, a, b, c] + tail, del, line) ==
            Prepend(100 * (a - 48) + 10 * (b - 48) + (c - 48), ReadFrom(tail, del, line))
  {
    hide Digits, Decimal;
    var z := [92, a, b, c] + tail;
    DigitsOf(a, b, c, tail);
    assert z[1..] == [a, b, c] + tail && z[1..][3..] == tail;
    assert Escape(z[1]) < 0;
  }

  lemma DigitsOf(a: int, b: int, c: int, tail: Bytes)
    requires IsDigit(a) && IsDigit(b) && IsDigit(c)
    ensures var z := [a, b, c] + tail; Digits(z, 3) == 3 && Decimal(z, 3) == 100 * (a - 48) + 10 * (b - 48) + (c - 48)
  {
    var z := [a, b, c] + tail;
    assert z[1..] == [b, c] + tail && z[1..][1..] == [c] + tail;
    assert Digits(z[1..][1..], 1) == 1;
    assert Digits(z[1..], 2) == 2;
    assert Decimal(z, 1) == 10 * Decimal(z, 0) + (a - 48);
    assert Decimal(z, 2) == 10 * Decimal(z, 1) + (b - 48);
  }

  lemma BreakRead(cs: Bytes, tail: Bytes, del: int, line: int)
    requires IsBreak(cs) && (del == 34 || del == 39) && tail != [] && tail[0] != 10 && tail[0] != 13 && line + 1 < MAX_INT
    ensures ReadFrom([92] + cs + tail, del, line) == Prepend(10, ReadFrom(tail, del, line + 1))
  {
    hide IsBreak;
    var z := [92] + cs + tail;
    BreakSkipped(cs, tail);
    assert z[1..] == cs + tail;
    assert z[1] == cs[0];
  }

  lemma BreakSkipped(cs: Bytes, tail: Bytes)
    requires IsBreak(cs) && tail != [] && tail[0] != 10 && tail[0] != 13
    ensures cs != [] && IsNewline(cs[0]) && Escape(cs[0]) < 0 && SkipNewline(cs + tail) == tail
  {
    assert (cs + tail)[|cs|..] == tail && (cs + tail)[1..] == cs[1..] + tail;
  }
}
