/** `match` and its helpers (lstrlib.c:186-440) on a match state that is changed and, where a way of
    matching fails, changed back. */
module PatternMatcher {
  import opened Wrappers
  import opened Patterns
  import opened PatternSearch

  class MatchState {
    const m: Subject
    var level: nat
    const capture: array<Capture>

    constructor (src: string, pat: string)
      ensures Valid() && Caps() == [] && m == Subject(src, pat) && fresh(capture)
    {
      m := Subject(src, pat);
      level := 0;
      capture := new Capture[LUA_MAXCAPTURES](_ => Capture(0, 0));
    }

    ghost predicate Valid()
      reads this
    {
      level <= capture.Length == LUA_MAXCAPTURES
    }

    /** The captures so far. */
    ghost function Caps(): seq<Capture>
      requires Valid()
      reads this, capture
    {
      capture[..level]
    }

    /** The match state and the result are those of outcome `o`; where there is no match, the
        captures are `caps` as before. */
    ghost predicate Reports(o: Outcome, caps: seq<Capture>, r: Result<Option<int>>)
      reads this, capture
    {
      match o
      case Found(e, caps') => r == Ok(Some(e)) && Valid() && Caps() == caps'
      case Fail => r == Ok(None) && Valid() && Caps() == caps
      case Bad(_) => r.Failed?
    }

    // ----- reading the pattern -----

    /** `classend`. */
    method FindClassEnd(p0: nat) returns (r: Result<nat>)
      requires p0 < |m.pat|
      ensures r.Ok? ==> ClassEnd(m.pat, p0) == Some(r.value)
      ensures r.Failed? ==> ClassEnd(m.pat, p0) == None
    {
      var p := p0 + 1;
      if m.pat[p0] == ESC {
        if At(m.pat, p) == ZERO {
          return Failed("malformed pattern (ends with '%')");
        }
        return Ok(p + 1);
      } else if m.pat[p0] == '[' {
        if At(m.pat, p) == '^' {
          p := p + 1;
        }
        ghost var start := p;
        while true
          invariant p0 < p <= |m.pat| && SetEnd(m.pat, p) == SetEnd(m.pat, start)
          decreases |m.pat| - p
        {
          if At(m.pat, p) == ZERO {
            return Failed("malformed pattern (missing ']')");
          }
          p := p + 1;
          if m.pat[p - 1] == ESC && At(m.pat, p) != ZERO {
            p := p + 1;
          }
          if At(m.pat, p) == ']' {
            break;
          }
        }
        return Ok(p + 1);
      }
      return Ok(p);
    }

    /** `matchbracketclass`. */
    method MatchBracketClass(c: char, p0: nat, ec: nat) returns (b: bool)
      ensures b == MatchSet(m.pat, c, p0, ec)
    {
      var sig, p := true, p0;
      if At(m.pat, p + 1) == '^' {
        sig := false;
        p := p + 1;
      }
      ghost var start := p + 1;
      p := p + 1;
      while p < ec
        invariant InSet(m.pat, c, p, ec) == InSet(m.pat, c, start, ec)
        decreases ec - p
      {
        if At(m.pat, p) == ESC {
          p := p + 1;
          if MatchClass(c, At(m.pat, p)) {
            return sig;
          }
        } else if At(m.pat, p + 1) == '-' && p + 2 < ec {
          p := p + 2;
          if At(m.pat, p - 2) <= c <= At(m.pat, p) {
            return sig;
          }
        } else if At(m.pat, p) == c {
          return sig;
        }
        p := p + 1;
      }
      return !sig;
    }

    /** `singlematch`, where there is a character. */
    method SingleMatch(s: nat, p: nat, ep: nat) returns (b: bool)
      requires p < |m.pat| && ep > 0
      ensures b == SingleAt(m, s, p, ep)
    {
      if s >= |m.src| {
        return false;
      }
      var c := m.src[s];
      match m.pat[p] {
        case '.' => b := true;
        case '%' => b := MatchClass(c, At(m.pat, p + 1));
        case '[' => b := MatchBracketClass(c, p, ep - 1);
        case x => b := x == c;
      }
    }

    /** `matchbalance`. */
    method MatchBalance(s0: nat, p: nat) returns (r: Result<Option<nat>>)
      requires s0 <= |m.src|
      ensures r.Failed? <==> At(m.pat, p) == ZERO || At(m.pat, p + 1) == ZERO
      ensures r.Ok? ==>
                (if At(m.src, s0) != At(m.pat, p) then r.value == None
                 else match BalanceFrom(m.src, s0 + 1, At(m.pat, p), At(m.pat, p + 1), 1)
                      case None => r.value == None
                      case Some(q) => q >= 0 && r.value == Some(q) && q <= |m.src|)
    {
      if At(m.pat, p) == ZERO || At(m.pat, p + 1) == ZERO {
        return Failed("unbalanced pattern");
      }
      if At(m.src, s0) != At(m.pat, p) {
        return Ok(None);
      }
      var b, e := At(m.pat, p), At(m.pat, p + 1);
      var cont, s := 1, s0 + 1;
      while s < |m.src|
        invariant s0 < s && (s <= |m.src| || s == s0 + 1)
        invariant BalanceFrom(m.src, s, b, e, cont) == BalanceFrom(m.src, s0 + 1, b, e, 1)
        decreases |m.src| - s
      {
        if m.src[s] == e {
          cont := cont - 1;
          if cont == 0 {
            return Ok(Some(s + 1));
          }
        } else if m.src[s] == b {
          cont := cont + 1;
        }
        s := s + 1;
      }
      return Ok(None);
    }

    /** `capture_to_close`. */
    method CaptureToClose() returns (r: Result<nat>)
      requires Valid()
      ensures r.Ok? ==> r.value == LastOpen(Caps()) && r.value < level
      ensures r.Failed? ==> LastOpen(Caps()) < 0
    {
      var l: int := level - 1;
      while l >= 0
        invariant -1 <= l < level
        invariant forall i :: l < i < level ==> !Unfinished(capture[i])
      {
        if Unfinished(capture[l]) {
          return Ok(l);
        }
        l := l - 1;
      }
      return Failed("invalid pattern capture");
    }

    /** `check_capture` and `match_capture`. */
    method MatchCapture(s: nat, digit: char) returns (r: Result<Option<nat>>)
      requires Valid() && IsDigit(digit) && s <= |m.src|
      ensures var l := digit as int - '1' as int;
              (r.Failed? <==> !ValidBack(Caps(), l)) &&
              (r.Ok? ==> r.value == if Repeats(m.src, Caps()[l], s) then Some(s + Caps()[l].len) else None)
      ensures r.Ok? && r.value.Some? ==>
                var c := Caps()[digit as int - '1' as int];
                m.src[s..r.value.value] == m.src[c.init..c.init + c.len]
      ensures r.Ok? && r.value.None? ==>
                var c := Caps()[digit as int - '1' as int];
                c.len < 0 || c.init < 0 || c.init + c.len > |m.src| || s + c.len > |m.src| ||
                m.src[s..s + c.len] != m.src[c.init..c.init + c.len]
    {
      var l := digit as int - '1' as int;
      if l < 0 || l >= level || capture[l].len == CAP_UNFINISHED {
        return Failed("invalid capture index");
      }
      var c := capture[l];
      assert Caps()[l] == c;
      if 0 <= c.len && 0 <= c.init && c.init + c.len <= |m.src| && |m.src| - s >= c.len &&
         m.src[c.init..c.init + c.len] == m.src[s..s + c.len] {
        return Ok(Some(s + c.len));
      }
      return Ok(None);
    }

    // ----- matching -----

    /** `start_capture`. */
    method StartCapture(s: nat, p: nat, what: int) returns (r: Result<Option<int>>)
      requires Valid() && s <= |m.src|
      modifies this, capture
      decreases |m.pat| - p, 3
      ensures old(level) >= LUA_MAXCAPTURES ==> r.Failed?
      ensures old(level) < LUA_MAXCAPTURES ==> Reports(Search(m, p, s, old(Caps()) + [Capture(s, what)]), old(Caps()), r)
    {
      ghost var caps := Caps();
      if level >= LUA_MAXCAPTURES {
        return Failed("too many captures");
      }
      capture[level] := Capture(s, what);
      level := level + 1;
      assert Caps() == caps + [Capture(s, what)];
      var res :- Match(s, p);
      if res == None {
        assert Caps()[..level - 1] == caps;
        level := level - 1;
      }
      return Ok(res);
    }

    /** `end_capture`. */
    method EndCapture(s: nat, p: nat) returns (r: Result<Option<int>>)
      requires Valid() && s <= |m.src|
      modifies this, capture
      decreases |m.pat| - p, 3
      ensures var caps := old(Caps()); var l := LastOpen(caps);
              if l < 0 then r.Failed?
              else Reports(Search(m, p, s, caps[l := Capture(caps[l].init, s - caps[l].init)]), caps, r)
    {
      ghost var caps := Caps();
      var l :- CaptureToClose();
      var init := capture[l].init;
      capture[l] := Capture(init, s - init);
      ghost var closed := caps[l := Capture(init, s - init)];
      assert Caps() == closed;
      var res :- Match(s, p);
      if res == None {
        assert capture[l] == Caps()[l];
        capture[l] := Capture(capture[l].init, CAP_UNFINISHED);
        assert caps[l] == Capture(init, CAP_UNFINISHED);
        assert Caps() == closed[l := caps[l]] == caps;
      }
      return Ok(res);
    }

    /** `max_expand`. */
    method MaxExpand(s: nat, p: nat, ep: nat) returns (r: Result<Option<int>>)
      requires Valid() && s <= |m.src| && p < |m.pat| && 0 < ep < |m.pat|
      modifies this, capture
      decreases |m.pat| - (ep + 1), 3
      ensures Reports(Longest(m, ep + 1, s, MaxRun(m, s, p, ep), old(Caps())), old(Caps()), r)
    {
      ghost var caps := Caps();
      var i: int := 0;
      var more := SingleMatch(s, p, ep);
      while more
        invariant 0 <= i && s + i <= |m.src| && more == SingleAt(m, s + i, p, ep) && Valid() && Caps() == caps
        invariant MaxRun(m, s, p, ep) == i + MaxRun(m, s + i, p, ep)
        decreases |m.src| - (s + i), more
      {
        i := i + 1;
        more := SingleMatch(s + i, p, ep);
      }
      while i >= 0
        invariant -1 <= i && s + i <= |m.src| && Valid() && Caps() == caps
        invariant i >= 0 ==> Longest(m, ep + 1, s, MaxRun(m, s, p, ep), caps) == Longest(m, ep + 1, s, i, caps)
        invariant i < 0 ==> Longest(m, ep + 1, s, MaxRun(m, s, p, ep), caps) == Fail
      {
        var res :- Match(s + i, ep + 1);
        if res != None {
          return Ok(res);
        }
        i := i - 1;
      }
      return Ok(None);
    }

    /** `min_expand`. */
    method MinExpand(s0: nat, p: nat, ep: nat) returns (r: Result<Option<int>>)
      requires Valid() && s0 <= |m.src| && p < |m.pat| && 0 < ep < |m.pat|
      modifies this, capture
      decreases |m.pat| - (ep + 1), 3
      ensures Reports(Shortest(m, ep + 1, s0, p, ep, old(Caps())), old(Caps()), r)
    {
      ghost var caps := Caps();
      var s := s0;
      while true
        invariant 0 <= s <= |m.src| && Valid() && Caps() == caps
        invariant Shortest(m, ep + 1, s, p, ep, caps) == Shortest(m, ep + 1, s0, p, ep, caps)
        decreases |m.src| - s
      {
        var res :- Match(s, ep + 1);
        if res != None {
          return Ok(res);
        }
        var more := SingleMatch(s, p, ep);
        if !more {
          return Ok(None);
        }
        s := s + 1;
      }
    }

    /** `match`: finds what the search finds, and leaves the captures of that, or those before. */
    method Match(s0: nat, p0: nat) returns (r: Result<Option<int>>)
      requires Valid() && s0 <= |m.src|
      modifies this, capture
      decreases |m.pat| - p0, 2
      ensures Reports(Search(m, p0, s0, old(Caps())), old(Caps()), r)
    {
      ghost var caps := Caps();
      var s: nat, p: nat := s0, p0;
      while true
        invariant p0 <= p && 0 <= s <= |m.src| && Valid() && Caps() == caps
        invariant Search(m, p, s, caps) == Search(m, p0, s0, caps)
        decreases |m.pat| - p
      {
        var c, d := At(m.pat, p), At(m.pat, p + 1);
        if c == '(' {
          if d == ')' {
            r := StartCapture(s, p + 2, CAP_POSITION);
          } else {
            r := StartCapture(s, p + 1, CAP_UNFINISHED);
          }
          return;
        } else if c == ')' {
          r := EndCapture(s, p + 1);
          return;
        } else if c == ESC && (d == 'b' || d == 'f' || IsDigit(d)) {
          var q :- MatchEscape(s, p);
          if q == None {
            return Ok(None);
          }
          s, p := q.value.0, q.value.1;
        } else if c == ZERO {
          return Ok(Some(s));
        } else if c == '$' && d == ZERO {
          return Ok(if s == |m.src| then Some(s) else None);
        } else {
          var done, s', p';
          done, r, s', p' := MatchItem(s, p);
          if done {
            return;
          }
          s, p := s', p';
        }
      }
    }

    /** The cases `%b`, `%f` and `%1` of `match`: where to go on, if anywhere. */
    method MatchEscape(s: nat, p: nat) returns (r: Result<Option<(nat, nat)>>)
      requires Valid() && s <= |m.src| && At(m.pat, p) == ESC
      requires At(m.pat, p + 1) == 'b' || At(m.pat, p + 1) == 'f' || IsDigit(At(m.pat, p + 1))
      ensures r.Failed? ==> Search(m, p, s, Caps()).Bad?
      ensures r.Ok? && r.value.None? ==> Search(m, p, s, Caps()) == Fail
      ensures r.Ok? && r.value.Some? ==>
                var (s', p') := r.value.value;
                p < p' && s' <= |m.src| && Search(m, p, s, Caps()) == Search(m, p', s', Caps())
    {
      var d := At(m.pat, p + 1);
      if d == 'b' {
        var q :- MatchBalance(s, p + 2);
        return Ok(if q == None then None else Some((q.value, p + 4)));
      } else if d == 'f' {
        if At(m.pat, p + 2) != '[' {
          return Failed("missing '[' after '%f' in pattern");
        }
        var ep :- FindClassEnd(p + 2);
        var before := MatchBracketClass(At(m.src, s - 1), p + 2, ep - 1);
        var here := MatchBracketClass(At(m.src, s), p + 2, ep - 1);
        return Ok(if before || !here then None else Some((s, ep)));
      } else {
        var q :- MatchCapture(s, d);
        return Ok(if q == None then None else Some((q.value, p + 2)));
      }
    }

    /** The default case of `match`: the result, or where to go on. */
    method MatchItem(s: nat, p: nat) returns (done: bool, r: Result<Option<int>>, s': nat, p': nat)
      requires Valid() && s <= |m.src| && IsItem(m.pat, p)
      modifies this, capture
      decreases |m.pat| - p, 1
      ensures done ==> Reports(Search(m, p, s, old(Caps())), old(Caps()), r)
      ensures !done ==> p < p' <= |m.pat| && s' <= |m.src| && Valid() && Caps() == old(Caps())
      ensures !done ==> Search(m, p, s, old(Caps())) == Search(m, p', s', old(Caps()))
    {
      ghost var caps := Caps();
      s', p' := s, p;
      r := Ok(None);
      assert p < |m.pat|;
      var end := FindClassEnd(p);
      if end.Failed? {
        return true, Failed(end.message), s, p;
      }
      var ep := end.value;
      var matched := SingleMatch(s, p, ep);
      var what := At(m.pat, ep);
      if what == '?' {
        if matched {
          var res := Match(s + 1, ep + 1);
          if res.Failed? || res.value != None {
            return true, res, s, p;
          }
        }
        return false, r, s, ep + 1;
      } else if what == '*' {
        r := MaxExpand(s, p, ep);
        return true, r, s, p;
      } else if what == '+' {
        if matched {
          r := MaxExpand(s + 1, p, ep);
        }
        return true, r, s, p;
      } else if what == '-' {
        r := MinExpand(s, p, ep);
        return true, r, s, p;
      } else if !matched {
        return true, r, s, p;
      } else {
        return false, r, s + 1, ep;
      }
    }

    /** The loop of `str_find_aux`: the leftmost match at or after `init`. */
    method Find(init: nat) returns (r: Result<Option<(nat, int)>>)
      requires Valid() && init <= |m.src|
      modifies this, capture
      ensures r.Ok? && r.value.Some? ==>
                var anchor := At(m.pat, 0) == '^'; var p := if anchor then 1 else 0;
                var (s, e) := r.value.value;
                Valid() && init <= s <= |m.src| && (anchor ==> s == init) && First(m, p, s, [], e, Caps()) &&
                forall s' :: init <= s' < s ==> NoMatch(m, p, s', [])
      ensures r.Ok? && r.value.None? ==>
                var anchor := At(m.pat, 0) == '^'; var p := if anchor then 1 else 0;
                forall s :: init <= s <= (if anchor then init else |m.src|) ==> NoMatch(m, p, s, [])
      ensures r.Failed? ==>
                var anchor := At(m.pat, 0) == '^'; var p := if anchor then 1 else 0;
                Defective(m.pat, p, []) &&
                exists s :: init <= s <= (if anchor then init else |m.src|) && Stuck(m, p, s, []) &&
                            forall s' :: init <= s' < s ==> NoMatch(m, p, s', [])
      ensures r.Ok? ==>
                var anchor := At(m.pat, 0) == '^'; var p := if anchor then 1 else 0;
                forall s :: init <= s <= (if r.value.Some? then r.value.value.0 else if anchor then init else |m.src|) ==>
                              !Stuck(m, p, s, [])
    {
      var anchor := At(m.pat, 0) == '^';
      var p := if anchor then 1 else 0;
      var s: nat := init;
      while s <= |m.src|
        invariant init <= s <= |m.src| + 1 && Valid() && (anchor ==> s == init)
        invariant forall s' :: init <= s' < s ==> NoMatch(m, p, s', []) && !Stuck(m, p, s', [])
      {
        level := 0;
        assert Caps() == [];
        SearchOk(m, p, s, []);
        MalformedExactly(m, p, s, []);
        var res :- Match(s, p);
        if res != None {
          return Ok(Some((s, res.value)));
        }
        if anchor {
          return Ok(None);
        }
        s := s + 1;
      }
      return Ok(None);
    }
  }
}
