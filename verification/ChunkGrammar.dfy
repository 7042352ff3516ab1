/** The grammar of a function's body: statements over locals, optional semicolons, and `return` only
    at the end (chunk, statement, lparser.c:1230-1337). */
module ChunkGrammar {
  import opened Wrappers
  import opened Expressions
  import opened Syntax
  import opened Precedence

  // ----- the grammar -----

  /** `ts` is the statement `s` where `n` locals are active. */
  ghost predicate IsStat(ts: seq<Token>, s: Stat, n: int) {
    match s
    case SLocal(None) => ts == [TLocal] && n < LUAI_MAXVARS
    case SLocal(Some(e)) => |ts| > 2 && ts[0] == TLocal && ts[1] == TAssign && n < LUAI_MAXVARS && Derives(ts[2..], e, 1, n)
    case SAssign(r, e) => |ts| > 2 && ts[0] == TName(r) && ts[1] == TAssign && r < n && Derives(ts[2..], e, 1, n)
    case SReturn(None) => ts == [TReturn]
    case SReturn(Some(e)) => |ts| > 1 && ts[0] == TReturn && Derives(ts[1..], e, 1, n)
  }

  function After(s: Stat, n: int): int { if s.SLocal? then n + 1 else n }

  /** `ts` is the statements `stats`, with or without semicolons behind them. */
  ghost predicate IsChunk(ts: seq<Token>, stats: seq<Stat>, n: int)
    decreases |stats|
  {
    if stats == [] then ts == []
    else
      exists i :: 0 < i <= |ts| && IsStat(ts[..i], stats[0], n) &&
                  (stats[0].SReturn? ==> |stats| == 1) &&
                  (IsChunk(ts[i..], stats[1..], After(stats[0], n)) ||
                   (i < |ts| && ts[i] == TSemicolon && IsChunk(ts[i + 1..], stats[1..], After(stats[0], n))))
  }

  // ----- what is read is in the grammar -----

  lemma ReadTaken(ts: seq<Token>, from: nat, level: nat, n: int)
    requires from <= |ts|
    ensures var r := SubExpr(ts[from..], 0, level, n);
            r.Ok? ==> var k := |ts| - |r.value.rest|;
                      from < k <= |ts| && r.value.rest == ts[k..] && Derives(ts[..k][from..], r.value.e, 1, n)
  {
    hide Derives;
    SubExprSound(ts[from..], 0, level, n);
    var r := SubExpr(ts[from..], 0, level, n);
    if r.Ok? {
      var k := |ts| - |r.value.rest|;
      assert [] + ts[from..][..k - from] == ts[..k][from..];
    }
  }

  lemma StatementSound(ts: seq<Token>, level: nat, n: int)
    ensures var r := Statement(ts, level, n);
            r.Ok? ==> var k := |ts| - |r.value.rest|; 0 < k <= |ts| && r.value.rest == ts[k..] && IsStat(ts[..k], r.value.s, n)
  {
    hide Derives, SubExpr;
    if |ts| > 1 {
      assert ts[1..][0] == ts[1];
      ReadTaken(ts, if ts[0].TReturn? then 1 else 2, level, n);
    }
  }

  lemma {:induction false} ChunkSound(done: seq<Stat>, ts: seq<Token>, level: nat, n: int) returns (stats: seq<Stat>)
    ensures var r := Chunk(done, ts, level, n); r.Ok? ==> r.value == done + stats && IsChunk(ts, stats, n)
    decreases |ts|
  {
    hide IsStat, Statement, IsChunk;
    stats := [];
    assert IsChunk([], [], n) by { NoChunk(n); }
    if !First(ts).TEnd? {
      StatementSound(ts, level, n);
      var s := Statement(ts, level, n);
      if s.Ok? {
        var k := |ts| - |s.value.rest|;
        var rest := SkipSemicolon(s.value.rest);
        var tail := [];
        if !s.value.s.SReturn? {
          tail := ChunkSound(done + [s.value.s], rest, level, After(s.value.s, n));
        }
        stats := [s.value.s] + tail;
        assert stats[1..] == tail;
        assert done + [s.value.s] + tail == done + stats;
        assert s.value.rest != [] ==> s.value.rest[1..] == ts[k + 1..] && s.value.rest[0] == ts[k];
        if Chunk(done, ts, level, n).Ok? { Extended(ts, stats, k, n); }
      }
    }
  }

  lemma NoChunk(n: int)
    ensures IsChunk([], [], n)
  {
  }

  lemma Extended(ts: seq<Token>, stats: seq<Stat>, k: nat, n: int)
    requires stats != [] && 0 < k <= |ts| && IsStat(ts[..k], stats[0], n) && (stats[0].SReturn? ==> |stats| == 1)
    requires IsChunk(SkipSemicolon(ts[k..]), stats[1..], After(stats[0], n))
    ensures IsChunk(ts, stats, n)
  {
    if First(ts[k..]).TSemicolon? { assert ts[k] == TSemicolon && ts[k..][1..] == ts[k + 1..]; }
  }

  // ----- what is in the grammar is read -----

  /** What can come after a statement. */
  predicate StatEnds(ts: seq<Token>) {
    First(ts).TEnd? || First(ts).TSemicolon? || First(ts).TLocal? || First(ts).TName? || First(ts).TReturn?
  }

  lemma {:induction false} DerivedStarts(ts: seq<Token>, e: Expr, lvl: nat, n: int)
    requires lvl <= ATOM && Derives(ts, e, lvl, n)
    ensures ts != [] && !EndsReturn(ts[0])
    decreases |ts|, ATOM - lvl
  {
    NotEmpty(ts, e, lvl, n);
    if lvl < ATOM {
      if Derives(ts, e, lvl + 1, n) {
        DerivedStarts(ts, e, lvl + 1, n);
      } else if !e.Unary? {
        var i := DerivedBinary(ts, e, lvl, n);
        DerivedStarts(ts[..i], e.left, LeftLevel(e.op, lvl), n);
      }
    }
  }

  lemma DerivedExpr(ts: seq<Token>, e: Expr, rest: seq<Token>, level: nat, n: int)
    requires Derives(ts, e, 1, n) && StatEnds(rest) && level + |ts| <= LUAI_MAXCCALLS
    ensures SubExpr(ts + rest, 0, level, n) == Ok(Parsed(e, rest)) && !EndsReturn(First(ts + rest))
  {
    DerivedRead(ts, e, 1, 0, rest, level, n);
    DerivedStarts(ts, e, 1, n);
  }

  lemma StatementComplete(ts: seq<Token>, s: Stat, rest: seq<Token>, level: nat, n: int)
    requires IsStat(ts, s, n) && level + |ts| <= LUAI_MAXCCALLS && StatEnds(rest)
    requires s.SReturn? ==> EndsReturn(First(rest))
    ensures Statement(ts + rest, level, n) == Ok(ParsedStat(s, rest)) && StatEnds(ts + rest) && ts != []
  {
    hide Derives, SubExpr;
    assert |ts| == 1 ==> (ts + rest)[1..] == rest;
    if |ts| > 1 {
      assert (ts + rest)[1..] == ts[1..] + rest;
      assert |ts| > 2 ==> (ts + rest)[2..] == ts[2..] + rest;
      match s
      case SLocal(Some(e)) => DerivedExpr(ts[2..], e, rest, level, n);
      case SAssign(r, e) => DerivedExpr(ts[2..], e, rest, level, n);
      case SReturn(Some(e)) => DerivedExpr(ts[1..], e, rest, level, n);
      case _ =>
    }
  }

  lemma {:induction false} ChunkComplete(done: seq<Stat>, ts: seq<Token>, stats: seq<Stat>, level: nat, n: int)
    requires IsChunk(ts, stats, n) && level + |ts| <= LUAI_MAXCCALLS
    ensures Chunk(done, ts, level, n) == Ok(done + stats) && StatEnds(ts) && !First(ts).TSemicolon?
    decreases |stats|
  {
    hide IsStat, Statement;
    if stats == [] {
      assert done + stats == done;
    } else {
      var s := stats[0];
      var i :| 0 < i <= |ts| && IsStat(ts[..i], s, n) &&
               (IsChunk(ts[i..], stats[1..], After(s, n)) ||
                (i < |ts| && ts[i] == TSemicolon && IsChunk(ts[i + 1..], stats[1..], After(s, n))));
      var rest := if IsChunk(ts[i..], stats[1..], After(s, n)) then ts[i..] else ts[i + 1..];
      ChunkComplete(done + [s], rest, stats[1..], level, After(s, n));
      assert stats == [s] + stats[1..] && done + [s] + stats[1..] == done + stats;
      assert ts == ts[..i] + ts[i..];
      assert i < |ts| && ts[i] == TSemicolon ==> ts[i..][1..] == ts[i + 1..];
      StatementComplete(ts[..i], s, ts[i..], level, n);
      StatStarts(ts[..i], s, n);
    }
  }

  lemma StatStarts(ts: seq<Token>, s: Stat, n: int)
    requires IsStat(ts, s, n)
    ensures ts != [] && (ts[0].TLocal? || ts[0].TName? || ts[0].TReturn?)
  {
  }

  /** Tokens are read as a chunk exactly when they are one, up to the limit on nesting. */
  lemma ReadIffChunk(ts: seq<Token>, stats: seq<Stat>, level: nat, n: int)
    ensures Chunk([], ts, level, n) == Ok(stats) ==> IsChunk(ts, stats, n)
    ensures IsChunk(ts, stats, n) && level + |ts| <= LUAI_MAXCCALLS ==> Chunk([], ts, level, n) == Ok(stats)
  {
    var read := ChunkSound([], ts, level, n);
    assert [] + read == read && [] + stats == stats;
    if IsChunk(ts, stats, n) && level + |ts| <= LUAI_MAXCCALLS { ChunkComplete([], ts, stats, level, n); }
  }
}
