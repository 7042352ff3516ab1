/** The search of `match` is sound and complete, and takes the first way of matching. */
module PatternSearch {
  import opened Wrappers
  import opened Patterns

  ghost predicate NoMatch(m: Subject, p: int, s: int, caps: seq<Capture>)
    requires 0 <= p
  {
    forall e, caps' :: !Matches(m, p, s, caps, e, caps')
  }

  ghost predicate NoneAfter(m: Subject, q: int, s: int, k: int, caps: seq<Capture>)
    requires 0 <= q
  {
    NoMatch(m, q, s + k, caps)
  }

  predicate IsRepeat(c: char) { c == '?' || c == '*' || c == '+' || c == '-' }

  function Least(c: char): nat { if c == '+' then 1 else 0 }

  /** The numbers of repetitions that an item allows. */
  ghost predicate Allowed(m: Subject, c: char, s: int, k: int, p: int, ep: int) {
    Least(c) <= k && (c == '?' ==> k <= 1) && Run(m, s, k, p, ep)
  }

  /** What is tried before `k` repetitions: fewer for '-', more otherwise. */
  predicate Before(c: char, k': int, k: int) { if c == '-' then k' < k else k < k' }

  /** The first of all ways of matching, in the order that prefers more repetitions, or fewer with
      '-', for earlier items before later ones. */
  ghost predicate First(m: Subject, p: int, s: int, caps: seq<Capture>, e: int, caps': seq<Capture>)
    requires 0 <= p
    decreases |m.pat| - p
  {
    var c := At(m.pat, p);
    var d := At(m.pat, p + 1);
    if c == ZERO then e == s && caps' == caps
    else if c == '(' then
      |caps| < LUA_MAXCAPTURES &&
      (if d == ')' then First(m, p + 2, s, caps + [Capture(s, CAP_POSITION)], e, caps')
       else First(m, p + 1, s, caps + [Capture(s, CAP_UNFINISHED)], e, caps'))
    else if c == ')' then
      var l := LastOpen(caps);
      l >= 0 && First(m, p + 1, s, caps[l := Capture(caps[l].init, s - caps[l].init)], e, caps')
    else if c == ESC && d == 'b' then
      var b, x := At(m.pat, p + 2), At(m.pat, p + 3);
      b != ZERO && x != ZERO && exists q :: Balanced(m.src, s, b, x, q) && First(m, p + 4, q, caps, e, caps')
    else if c == ESC && d == 'f' then
      At(m.pat, p + 2) == '[' && ClassEnd(m.pat, p + 2).Some? &&
      var ep := ClassEnd(m.pat, p + 2).value;
      !MatchSet(m.pat, At(m.src, s - 1), p + 2, ep - 1) && MatchSet(m.pat, At(m.src, s), p + 2, ep - 1) &&
      First(m, ep, s, caps, e, caps')
    else if c == ESC && IsDigit(d) then
      var l := d as int - '1' as int;
      ValidBack(caps, l) && Repeats(m.src, caps[l], s) && First(m, p + 2, s + caps[l].len, caps, e, caps')
    else if c == '$' && d == ZERO then s == |m.src| && e == s && caps' == caps
    else
      ClassEnd(m.pat, p).Some? &&
      var ep := ClassEnd(m.pat, p).value;
      var r := At(m.pat, ep);
      if IsRepeat(r) then
        exists k :: Allowed(m, r, s, k, p, ep) && First(m, ep + 1, s + k, caps, e, caps') &&
                    forall k' :: Allowed(m, r, s, k', p, ep) && Before(r, k', k) ==> NoneAfter(m, ep + 1, s, k', caps)
      else Run(m, s, 1, p, ep) && First(m, ep, s + 1, caps, e, caps')
  }

  // ----- malformed patterns -----

  /** Some way of matching from `p` and `s` on comes to a defect of the pattern, and what is tried
      before it does not match. The defects are a set or '%' that does not end, `%b` without two
      characters, `%f` without a set, a ')' with no open capture, a reference to a capture that is
      missing or open, and one capture too many. */
  ghost predicate Stuck(m: Subject, p: int, s: int, caps: seq<Capture>)
    requires 0 <= p
    decreases |m.pat| - p
  {
    var c := At(m.pat, p);
    var d := At(m.pat, p + 1);
    if c == ZERO then false
    else if c == '(' then
      |caps| >= LUA_MAXCAPTURES ||
      (if d == ')' then Stuck(m, p + 2, s, caps + [Capture(s, CAP_POSITION)])
       else Stuck(m, p + 1, s, caps + [Capture(s, CAP_UNFINISHED)]))
    else if c == ')' then
      var l := LastOpen(caps);
      l < 0 || Stuck(m, p + 1, s, caps[l := Capture(caps[l].init, s - caps[l].init)])
    else if c == ESC && d == 'b' then
      var b, x := At(m.pat, p + 2), At(m.pat, p + 3);
      b == ZERO || x == ZERO || exists q :: Balanced(m.src, s, b, x, q) && Stuck(m, p + 4, q, caps)
    else if c == ESC && d == 'f' then
      At(m.pat, p + 2) != '[' || ClassEnd(m.pat, p + 2).None? ||
      var ep := ClassEnd(m.pat, p + 2).value;
      !MatchSet(m.pat, At(m.src, s - 1), p + 2, ep - 1) && MatchSet(m.pat, At(m.src, s), p + 2, ep - 1) && Stuck(m, ep, s, caps)
    else if c == ESC && IsDigit(d) then
      var l := d as int - '1' as int;
      !ValidBack(caps, l) || (Repeats(m.src, caps[l], s) && Stuck(m, p + 2, s + caps[l].len, caps))
    else if c == '$' && d == ZERO then false
    else
      ClassEnd(m.pat, p).None? ||
      var ep := ClassEnd(m.pat, p).value;
      var r := At(m.pat, ep);
      if IsRepeat(r) then
        exists k :: Allowed(m, r, s, k, p, ep) && Stuck(m, ep + 1, s + k, caps) &&
                    forall k' :: Allowed(m, r, s, k', p, ep) && Before(r, k', k) ==> NoneAfter(m, ep + 1, s, k', caps)
      else Run(m, s, 1, p, ep) && Stuck(m, ep, s + 1, caps)
  }

  ghost predicate StuckAfter(m: Subject, q: nat, s: nat, k: int, caps: seq<Capture>) {
    Stuck(m, q, s + k, caps)
  }

  /** Which captures are open. */
  function Shape(caps: seq<Capture>): seq<bool> {
    seq(|caps|, i requires 0 <= i < |caps| => Unfinished(caps[i]))
  }

  /** The pattern has a defect behind `p`, where captures are open as in `shape`. No subject is involved. */
  ghost predicate Defective(pat: string, p: int, shape: seq<bool>)
    requires 0 <= p
    decreases |pat| - p
  {
    var c := At(pat, p);
    var d := At(pat, p + 1);
    if c == ZERO || (c == '$' && d == ZERO) then false
    else if c == '(' then
      |shape| >= LUA_MAXCAPTURES ||
      (if d == ')' then Defective(pat, p + 2, shape + [false]) else Defective(pat, p + 1, shape + [true]))
    else if c == ')' then
      forall l :: IsLastOpen(shape, l) ==> Defective(pat, p + 1, shape[l := false])
    else if c == ESC && d == 'b' then
      At(pat, p + 2) == ZERO || At(pat, p + 3) == ZERO || Defective(pat, p + 4, shape)
    else if c == ESC && d == 'f' then
      At(pat, p + 2) != '[' || ClassEnd(pat, p + 2).None? || Defective(pat, ClassEnd(pat, p + 2).value, shape)
    else if c == ESC && IsDigit(d) then
      var l := d as int - '1' as int;
      !(0 <= l < |shape| && !shape[l]) || Defective(pat, p + 2, shape)
    else
      ClassEnd(pat, p).None? ||
      var ep := ClassEnd(pat, p).value;
      Defective(pat, if IsRepeat(At(pat, ep)) then ep + 1 else ep, shape)
  }

  /** Capture `l` is open and no later one is. */
  predicate IsLastOpen(shape: seq<bool>, l: int) {
    0 <= l < |shape| && shape[l] && forall i :: l < i < |shape| ==> !shape[i]
  }

  // ----- balanced strings -----

  lemma {:induction false} BalanceOk(src: string, s: nat, i: nat, b: char, e: char, cont: int)
    requires s < i <= |src| && At(src, s) == b && cont == Open(src, s, i, b, e)
    requires forall j :: s < j <= i ==> Open(src, s, j, b, e) > 0
    ensures var r := BalanceFrom(src, i, b, e, cont);
            if r.Some? then s < r.value <= |src| && Balanced(src, s, b, e, r.value)
            else forall q :: !Balanced(src, s, b, e, q)
    decreases |src| - i
  {
    if i < |src| {
      assert Open(src, s, i + 1, b, e) == cont + (if src[i] == e then -1 else if src[i] == b then 1 else 0);
      if src[i] == e && cont - 1 == 0 {
        assert Balanced(src, s, b, e, i + 1);
      } else {
        BalanceOk(src, s, i + 1, b, e, Open(src, s, i + 1, b, e));
      }
    }
  }

  lemma BalanceUnique(src: string, s: int, b: char, e: char, q: int, q': int)
    requires Balanced(src, s, b, e, q) && Balanced(src, s, b, e, q')
    ensures q == q'
  {
    assert s < q < q' ==> Open(src, s, q, b, e) > 0;
    assert s < q' < q ==> Open(src, s, q', b, e) > 0;
  }

  // ----- repetitions -----

  lemma {:induction false} RunMax(m: Subject, s: int, p: int, ep: int, k: int)
    requires 0 <= s <= |m.src|
    ensures Run(m, s, k, p, ep) <==> 0 <= k <= MaxRun(m, s, p, ep)
  {
    var n := MaxRun(m, s, p, ep);
    assert Run(m, s, k, p, ep) && k > n ==> SingleAt(m, s + n, p, ep);
  }

  /** The result of the search is the first match, or that there is none, or that the pattern is
      malformed where the search got stuck. */
  ghost predicate Decides(m: Subject, p: nat, s: nat, caps: seq<Capture>, o: Outcome) {
    match o
    case Found(e, caps') => First(m, p, s, caps, e, caps') && e <= |m.src|
    case Fail => NoMatch(m, p, s, caps)
    case Bad(_) => Stuck(m, p, s, caps)
  }

  ghost predicate FirstAfter(m: Subject, q: nat, s: nat, k: int, caps: seq<Capture>, e: int, caps': seq<Capture>) {
    First(m, q, s + k, caps, e, caps')
  }

  /** What a loop over repetitions finds, between `lo` and `hi`. */
  ghost predicate LoopDecides(m: Subject, q: nat, s: nat, lo: int, hi: int, r: char, caps: seq<Capture>, o: Outcome) {
    match o
    case Found(e, caps') =>
      e <= |m.src| &&
      exists k :: lo <= k <= hi && FirstAfter(m, q, s, k, caps, e, caps') &&
                  forall k' :: lo <= k' <= hi && Before(r, k', k) ==> NoneAfter(m, q, s, k', caps)
    case Fail => forall k :: lo <= k <= hi ==> NoneAfter(m, q, s, k, caps)
    case Bad(_) =>
      exists k :: lo <= k <= hi && StuckAfter(m, q, s, k, caps) &&
                  forall k' :: lo <= k' <= hi && Before(r, k', k) ==> NoneAfter(m, q, s, k', caps)
  }

  // ----- the theorem -----

  /** A repeated item is decided by deciding between its numbers of repetitions. */
  lemma RepeatDecided(m: Subject, p: nat, s: nat, caps: seq<Capture>, ep: nat, hi: int, o: Outcome)
    requires s <= |m.src| && p < |m.pat| && ClassEnd(m.pat, p) == Some(ep) && IsRepeat(At(m.pat, ep)) && IsItem(m.pat, p)
    requires forall k :: Allowed(m, At(m.pat, ep), s, k, p, ep) <==> Least(At(m.pat, ep)) <= k <= hi
    requires LoopDecides(m, ep + 1, s, Least(At(m.pat, ep)), hi, At(m.pat, ep), caps, o)
    ensures Decides(m, p, s, caps, o)
  {
    var r := At(m.pat, ep);
    match o
    case Found(e, caps') =>
      var k :| Least(r) <= k <= hi && FirstAfter(m, ep + 1, s, k, caps, e, caps') &&
               forall k' :: Least(r) <= k' <= hi && Before(r, k', k) ==> NoneAfter(m, ep + 1, s, k', caps);
      assert Allowed(m, r, s, k, p, ep);
    case Fail =>
      forall e, caps' ensures !Matches(m, p, s, caps, e, caps') {
        if Matches(m, p, s, caps, e, caps') {
          var k := Repetitions(m, p, s, caps, ep, e, caps');
        }
      }
    case Bad(_) =>
      var k :| Least(r) <= k <= hi && StuckAfter(m, ep + 1, s, k, caps) &&
               forall k' :: Least(r) <= k' <= hi && Before(r, k', k) ==> NoneAfter(m, ep + 1, s, k', caps);
      assert Allowed(m, r, s, k, p, ep);
  }

  /** The item at `p` is one that the default case of `match` treats. */
  predicate IsItem(pat: string, p: int) {
    var c, d := At(pat, p), At(pat, p + 1);
    c != ZERO && c != '(' && c != ')' && !(c == ESC && (d == 'b' || d == 'f' || IsDigit(d))) && !(c == '$' && d == ZERO)
  }

  lemma Repetitions(m: Subject, p: nat, s: nat, caps: seq<Capture>, ep: nat, e: int, caps': seq<Capture>) returns (k: int)
    requires p < |m.pat| && ClassEnd(m.pat, p) == Some(ep) && IsRepeat(At(m.pat, ep)) && IsItem(m.pat, p)
    requires Matches(m, p, s, caps, e, caps')
    ensures Allowed(m, At(m.pat, ep), s, k, p, ep) && !NoneAfter(m, ep + 1, s, k, caps)
  {
    var r := At(m.pat, ep);
    if r == '?' {
      k :| 0 <= k <= 1 && Run(m, s, k, p, ep) && Matches(m, ep + 1, s + k, caps, e, caps');
    } else if r == '+' {
      k :| 1 <= k && Run(m, s, k, p, ep) && Matches(m, ep + 1, s + k, caps, e, caps');
    } else {
      k :| 0 <= k && Run(m, s, k, p, ep) && Matches(m, ep + 1, s + k, caps, e, caps');
    }
  }

  lemma {:induction false} LongestOk(m: Subject, q: nat, s: nat, lo: nat, i: nat, r: char, caps: seq<Capture>)
    requires lo <= i && s + i <= |m.src| && r != '-'
    ensures LoopDecides(m, q, s, lo, i, r, caps, Longest(m, q, s + lo, i - lo, caps))
    decreases |m.pat| - q, i + 1, 0
  {
    SearchOk(m, q, s + i, caps);
    var o := Search(m, q, s + i, caps);
    if o.Found? {
      assert FirstAfter(m, q, s, i, caps, o.e, o.caps);
    } else if o.Fail? {
      assert NoneAfter(m, q, s, i, caps);
      if i > lo { LongestOk(m, q, s, lo, i - 1, r, caps); }
    } else {
      assert StuckAfter(m, q, s, i, caps);
    }
  }

  /** The loop of `min_expand`, after `j` repetitions. */
  lemma {:induction false} ShortestOk(m: Subject, q: nat, s: nat, j: nat, p: int, ep: int, caps: seq<Capture>)
    requires s + j <= |m.src| && j <= MaxRun(m, s, p, ep)
    requires forall k :: 0 <= k < j ==> NoneAfter(m, q, s, k, caps)
    ensures LoopDecides(m, q, s, 0, MaxRun(m, s, p, ep), '-', caps, Shortest(m, q, s + j, p, ep, caps))
    decreases |m.pat| - q, |m.src| - (s + j) + 1, 0
  {
    SearchOk(m, q, s + j, caps);
    var o := Search(m, q, s + j, caps);
    RunMax(m, s, p, ep, j);
    RunMax(m, s, p, ep, j + 1);
    if o.Found? {
      assert FirstAfter(m, q, s, j, caps, o.e, o.caps);
    } else if o.Fail? {
      assert NoneAfter(m, q, s, j, caps);
      assert SingleAt(m, s + j, p, ep) <==> Run(m, s, j + 1, p, ep);
      if SingleAt(m, s + j, p, ep) { ShortestOk(m, q, s, j + 1, p, ep, caps); }
    } else {
      assert StuckAfter(m, q, s, j, caps);
    }
  }

  /** The search is sound and complete: unless it gets stuck at a defect of the pattern, it returns
      the first match in its order exactly when there is a match. */
  lemma {:induction false} SearchOk(m: Subject, p: nat, s: nat, caps: seq<Capture>)
    requires s <= |m.src|
    ensures Decides(m, p, s, caps, Search(m, p, s, caps))
    decreases |m.pat| - p, 0, 2
  {
    if IsItem(m.pat, p) {
      ItemOk(m, p, s, caps);
    } else {
      SpecialOk(m, p, s, caps);
    }
  }

  lemma {:induction false} ItemOk(m: Subject, p: nat, s: nat, caps: seq<Capture>)
    requires s <= |m.src| && IsItem(m.pat, p)
    ensures Decides(m, p, s, caps, Search(m, p, s, caps))
    decreases |m.pat| - p, 0, 1
  {
    assert p < |m.pat|;
    var end := ClassEnd(m.pat, p);
    if end.Some? {
      var ep := end.value;
      var r := At(m.pat, ep);
      var n := MaxRun(m, s, p, ep);
      forall k ensures Run(m, s, k, p, ep) <==> 0 <= k <= n { RunMax(m, s, p, ep, k); }
      if r == '*' {
        LongestOk(m, ep + 1, s, 0, n, r, caps);
        RepeatDecided(m, p, s, caps, ep, n, Search(m, p, s, caps));
      } else if r == '+' {
        if SingleAt(m, s, p, ep) {
          LongestOk(m, ep + 1, s, 1, n, r, caps);
        }
        RepeatDecided(m, p, s, caps, ep, n, Search(m, p, s, caps));
      } else if r == '?' {
        OptionalOk(m, p, s, caps, ep);
      } else if r == '-' {
        ShortestOk(m, ep + 1, s, 0, p, ep, caps);
        RepeatDecided(m, p, s, caps, ep, n, Search(m, p, s, caps));
      } else {
        if SingleAt(m, s, p, ep) { SearchOk(m, ep, s + 1, caps); }
      }
    }
  }

  lemma {:induction false} OptionalOk(m: Subject, p: nat, s: nat, caps: seq<Capture>, ep: nat)
    requires s <= |m.src| && IsItem(m.pat, p) && p < |m.pat| && ClassEnd(m.pat, p) == Some(ep) && At(m.pat, ep) == '?'
    requires forall k :: Run(m, s, k, p, ep) <==> 0 <= k <= MaxRun(m, s, p, ep)
    ensures Decides(m, p, s, caps, Search(m, p, s, caps))
    decreases |m.pat| - p, 0, 0
  {
    SearchOk(m, ep + 1, s, caps);
    var o0 := Search(m, ep + 1, s, caps);
    if o0.Found? { assert FirstAfter(m, ep + 1, s, 0, caps, o0.e, o0.caps); }
    if o0.Fail? { assert NoneAfter(m, ep + 1, s, 0, caps); }
    if o0.Bad? { assert StuckAfter(m, ep + 1, s, 0, caps); }
    if SingleAt(m, s, p, ep) {
      SearchOk(m, ep + 1, s + 1, caps);
      var o1 := Search(m, ep + 1, s + 1, caps);
      if o1.Found? { assert FirstAfter(m, ep + 1, s, 1, caps, o1.e, o1.caps); }
      if o1.Fail? { assert NoneAfter(m, ep + 1, s, 1, caps); }
      if o1.Bad? { assert StuckAfter(m, ep + 1, s, 1, caps); }
    }
    RepeatDecided(m, p, s, caps, ep, if SingleAt(m, s, p, ep) then 1 else 0, Search(m, p, s, caps));
  }

  lemma {:induction false} SpecialOk(m: Subject, p: nat, s: nat, caps: seq<Capture>)
    requires s <= |m.src| && !IsItem(m.pat, p)
    ensures Decides(m, p, s, caps, Search(m, p, s, caps))
    decreases |m.pat| - p, 0, 1
  {
    var c, d := At(m.pat, p), At(m.pat, p + 1);
    if c == '(' {
      if |caps| < LUA_MAXCAPTURES {
        if d == ')' { SearchOk(m, p + 2, s, caps + [Capture(s, CAP_POSITION)]); }
        else { SearchOk(m, p + 1, s, caps + [Capture(s, CAP_UNFINISHED)]); }
      }
    } else if c == ')' {
      var l := LastOpen(caps);
      if l >= 0 { SearchOk(m, p + 1, s, caps[l := Capture(caps[l].init, s - caps[l].init)]); }
    } else if c == ESC && d == 'b' {
      BalanceSearchOk(m, p, s, caps);
    } else if c == ESC && d == 'f' {
      if At(m.pat, p + 2) == '[' && ClassEnd(m.pat, p + 2).Some? { SearchOk(m, ClassEnd(m.pat, p + 2).value, s, caps); }
    } else if c == ESC && IsDigit(d) {
      var l := d as int - '1' as int;
      if ValidBack(caps, l) && Repeats(m.src, caps[l], s) { SearchOk(m, p + 2, s + caps[l].len, caps); }
    }
  }

  lemma {:induction false} BalanceSearchOk(m: Subject, p: nat, s: nat, caps: seq<Capture>)
    requires s <= |m.src| && At(m.pat, p) == ESC && At(m.pat, p + 1) == 'b'
    ensures Decides(m, p, s, caps, Search(m, p, s, caps))
    decreases |m.pat| - p, 0, 0
  {
    var b, x := At(m.pat, p + 2), At(m.pat, p + 3);
    if b != ZERO && x != ZERO && At(m.src, s) == b {
      assert Open(m.src, s, s + 1, b, x) == 1;
      BalanceOk(m.src, s, s + 1, b, x, 1);
      var r := BalanceFrom(m.src, s + 1, b, x, 1);
      if r.Some? {
        SearchOk(m, p + 4, r.value, caps);
        forall q | Balanced(m.src, s, b, x, q) ensures q == r.value { BalanceUnique(m.src, s, b, x, q, r.value); }
      }
    }
  }

  // ----- malformed patterns: the search is stuck there and only there -----

  lemma ShapeClosed(caps: seq<Capture>, s: int)
    requires LastOpen(caps) >= 0 && s >= caps[LastOpen(caps)].init
    ensures var l := LastOpen(caps);
            IsLastOpen(Shape(caps), l) && Shape(caps[l := Capture(caps[l].init, s - caps[l].init)]) == Shape(caps)[l := false]
    ensures forall l' :: IsLastOpen(Shape(caps), l') ==> l' == LastOpen(caps)
  {
  }

  lemma ShapeOpened(caps: seq<Capture>, c: Capture)
    ensures Shape(caps + [c]) == Shape(caps) + [Unfinished(c)]
  {
  }

  /** Captures begin at places of the subject that have been passed. */
  ghost predicate Behind(caps: seq<Capture>, s: int) {
    forall i :: 0 <= i < |caps| ==> caps[i].init <= s
  }

  /** The search gets stuck only where the pattern has a defect: one without is never malformed. */
  lemma {:induction false} StuckDefective(m: Subject, p: nat, s: int, caps: seq<Capture>)
    requires Stuck(m, p, s, caps) && Behind(caps, s)
    ensures Defective(m.pat, p, Shape(caps))
    decreases |m.pat| - p, 1
  {
    var c, d := At(m.pat, p), At(m.pat, p + 1);
    if IsItem(m.pat, p) {
      StuckItemDefective(m, p, s, caps);
    } else if c == '(' {
      var cap := Capture(s, if d == ')' then CAP_POSITION else CAP_UNFINISHED);
      ShapeOpened(caps, cap);
      if |caps| < LUA_MAXCAPTURES { StuckDefective(m, if d == ')' then p + 2 else p + 1, s, caps + [cap]); }
    } else if c == ')' {
      var l := LastOpen(caps);
      if l >= 0 {
        ShapeClosed(caps, s);
        StuckDefective(m, p + 1, s, caps[l := Capture(caps[l].init, s - caps[l].init)]);
      }
    } else if c == ESC && d == 'b' {
      var b, x := At(m.pat, p + 2), At(m.pat, p + 3);
      if b != ZERO && x != ZERO {
        var q :| Balanced(m.src, s, b, x, q) && Stuck(m, p + 4, q, caps);
        StuckDefective(m, p + 4, q, caps);
      }
    } else if c == ESC && d == 'f' {
      if At(m.pat, p + 2) == '[' && ClassEnd(m.pat, p + 2).Some? { StuckDefective(m, ClassEnd(m.pat, p + 2).value, s, caps); }
    } else if c == ESC && IsDigit(d) {
      var l := d as int - '1' as int;
      if ValidBack(caps, l) { StuckDefective(m, p + 2, s + caps[l].len, caps); }
    }
  }

  lemma {:induction false} StuckItemDefective(m: Subject, p: nat, s: int, caps: seq<Capture>)
    requires Stuck(m, p, s, caps) && Behind(caps, s) && IsItem(m.pat, p)
    ensures Defective(m.pat, p, Shape(caps))
    decreases |m.pat| - p, 0
  {
    if ClassEnd(m.pat, p).Some? {
      var ep := ClassEnd(m.pat, p).value;
      var r := At(m.pat, ep);
      if IsRepeat(r) {
        var k :| Allowed(m, r, s, k, p, ep) && Stuck(m, ep + 1, s + k, caps);
        StuckDefective(m, ep + 1, s + k, caps);
      } else {
        StuckDefective(m, ep, s + 1, caps);
      }
    }
  }

  /** Where nothing matches the search finds nothing. */
  lemma NotFound(m: Subject, q: nat, s: nat, k: int, caps: seq<Capture>)
    requires NoneAfter(m, q, s, k, caps) && 0 <= s + k <= |m.src|
    ensures !Search(m, q, s + k, caps).Found?
  {
    SearchOk(m, q, s + k, caps);
    var o := Search(m, q, s + k, caps);
    if o.Found? { FirstMatches(m, q, s + k, caps, o.e, o.caps); }
  }

  lemma {:induction false} LongestBad(m: Subject, q: nat, s: nat, i: nat, k: nat, caps: seq<Capture>)
    requires s + i <= |m.src| && k <= i
    requires Search(m, q, s + k, caps).Bad?
    requires forall j :: k < j <= i ==> NoneAfter(m, q, s, j, caps)
    ensures Longest(m, q, s, i, caps).Bad?
    decreases i
  {
    if k < i {
      NotFound(m, q, s, i, caps);
      LongestBad(m, q, s, i - 1, k, caps);
    }
  }

  lemma {:induction false} ShortestBad(m: Subject, q: nat, s: nat, k: nat, p: int, ep: int, caps: seq<Capture>)
    requires s + k <= |m.src| && Run(m, s, k, p, ep) && Search(m, q, s + k, caps).Bad?
    requires forall j :: 0 <= j < k ==> NoneAfter(m, q, s, j, caps)
    ensures Shortest(m, q, s, p, ep, caps).Bad?
    decreases k
  {
    hide NoneAfter, SingleAt;
    if k > 0 {
      assert SingleAt(m, s, p, ep);
      NotFound(m, q, s, 0, caps);
      var t := s + 1;
      forall j | 0 <= j < k - 1 ensures NoneAfter(m, q, t, j, caps) { OneFewer(m, q, s, j, caps); }
      ShortestBad(m, q, t, k - 1, p, ep, caps);
    }
  }

  /** The search reports every defect that it gets stuck at. */
  lemma {:induction false} StuckBad(m: Subject, p: nat, s: nat, caps: seq<Capture>)
    requires s <= |m.src| && Stuck(m, p, s, caps)
    ensures Search(m, p, s, caps).Bad?
    decreases |m.pat| - p, 1
  {
    var c, d := At(m.pat, p), At(m.pat, p + 1);
    if IsItem(m.pat, p) {
      StuckItemBad(m, p, s, caps);
    } else if c == '(' {
      if |caps| < LUA_MAXCAPTURES {
        if d == ')' { StuckBad(m, p + 2, s, caps + [Capture(s, CAP_POSITION)]); }
        else { StuckBad(m, p + 1, s, caps + [Capture(s, CAP_UNFINISHED)]); }
      }
    } else if c == ')' {
      var l := LastOpen(caps);
      if l >= 0 { StuckBad(m, p + 1, s, caps[l := Capture(caps[l].init, s - caps[l].init)]); }
    } else if c == ESC && d == 'b' {
      StuckBalanceBad(m, p, s, caps);
    } else if c == ESC && d == 'f' {
      if At(m.pat, p + 2) == '[' && ClassEnd(m.pat, p + 2).Some? { StuckBad(m, ClassEnd(m.pat, p + 2).value, s, caps); }
    } else if c == ESC && IsDigit(d) {
      var l := d as int - '1' as int;
      if ValidBack(caps, l) { StuckBad(m, p + 2, s + caps[l].len, caps); }
    }
  }

  lemma {:induction false} StuckBalanceBad(m: Subject, p: nat, s: nat, caps: seq<Capture>)
    requires s <= |m.src| && At(m.pat, p) == ESC && At(m.pat, p + 1) == 'b' && Stuck(m, p, s, caps)
    ensures Search(m, p, s, caps).Bad?
    decreases |m.pat| - p, 0
  {
    var b, x := At(m.pat, p + 2), At(m.pat, p + 3);
    if b != ZERO && x != ZERO {
      var q :| Balanced(m.src, s, b, x, q) && Stuck(m, p + 4, q, caps);
      assert Open(m.src, s, s + 1, b, x) == 1;
      BalanceOk(m.src, s, s + 1, b, x, 1);
      BalanceUnique(m.src, s, b, x, q, BalanceFrom(m.src, s + 1, b, x, 1).value);
      StuckBad(m, p + 4, q, caps);
    }
  }

  lemma {:induction false} StuckItemBad(m: Subject, p: nat, s: nat, caps: seq<Capture>)
    requires s <= |m.src| && IsItem(m.pat, p) && Stuck(m, p, s, caps)
    ensures Search(m, p, s, caps).Bad?
    decreases |m.pat| - p, 0
  {
    hide NoneAfter, Run, Before;
    assert p < |m.pat|;
    if ClassEnd(m.pat, p).Some? {
      var ep := ClassEnd(m.pat, p).value;
      var r := At(m.pat, ep);
      if IsRepeat(r) {
        var k := StuckRepeat(m, p, s, caps, ep);
        StuckBad(m, ep + 1, s + k, caps);
        RepeatBad(m, p, s, caps, ep, ep + 1, k);
      } else {
        RunMax(m, s, p, ep, 1);
        StuckBad(m, ep, s + 1, caps);
      }
    }
  }

  /** The number of repetitions after which the search gets stuck. */
  lemma StuckRepeat(m: Subject, p: nat, s: nat, caps: seq<Capture>, ep: nat) returns (k: nat)
    requires s <= |m.src| && p < |m.pat| && ClassEnd(m.pat, p) == Some(ep) && IsRepeat(At(m.pat, ep)) && IsItem(m.pat, p)
    requires Stuck(m, p, s, caps)
    ensures var r := At(m.pat, ep);
            Least(r) <= k <= Most(m, r, s, p, ep) && Stuck(m, ep + 1, s + k, caps) && s + k <= |m.src| &&
            forall j :: Least(r) <= j <= Most(m, r, s, p, ep) && Before(r, j, k) ==> NoneAfter(m, ep + 1, s, j, caps)
  {
    hide NoneAfter, Before;
    var r := At(m.pat, ep);
    forall j ensures Allowed(m, r, s, j, p, ep) <==> Least(r) <= j <= Most(m, r, s, p, ep) { RunMax(m, s, p, ep, j); }
    k :| Allowed(m, r, s, k, p, ep) && Stuck(m, ep + 1, s + k, caps) &&
         forall k' :: Allowed(m, r, s, k', p, ep) && Before(r, k', k) ==> NoneAfter(m, ep + 1, s, k', caps);
  }

  /** The largest number of repetitions that an item allows. */
  function Most(m: Subject, c: char, s: int, p: int, ep: int): nat {
    if c == '?' then (if SingleAt(m, s, p, ep) then 1 else 0) else MaxRun(m, s, p, ep)
  }

  lemma RepeatBad(m: Subject, p: nat, s: nat, caps: seq<Capture>, ep: nat, q: nat, k: nat)
    requires s <= |m.src| && p < |m.pat| && q == ep + 1 && ClassEnd(m.pat, p) == Some(ep) && IsRepeat(At(m.pat, ep)) && IsItem(m.pat, p)
    requires var r := At(m.pat, ep);
             Least(r) <= k <= Most(m, r, s, p, ep) &&
             forall j :: Least(r) <= j <= Most(m, r, s, p, ep) && Before(r, j, k) ==> NoneAfter(m, q, s, j, caps)
    requires s + k <= |m.src| && Search(m, q, s + k, caps).Bad?
    ensures Search(m, p, s, caps).Bad?
  {
    hide NoneAfter, SingleAt, ClassEnd;
    var r, n := At(m.pat, ep), MaxRun(m, s, p, ep);
    RunMax(m, s, p, ep, n);
    if r == '-' {
      RunMax(m, s, p, ep, k);
      ShortestBad(m, q, s, k, p, ep, caps);
    } else if r == '?' {
      if k == 0 && SingleAt(m, s, p, ep) { NotFound(m, q, s, 1, caps); }
    } else if r == '*' {
      LongestBad(m, q, s, n, k, caps);
    } else {
      var t := s + 1;
      forall j | k - 1 < j <= n - 1 ensures NoneAfter(m, q, t, j, caps) { OneFewer(m, q, s, j, caps); }
      LongestBad(m, q, t, n - 1, k - 1, caps);
    }
  }

  lemma OneFewer(m: Subject, q: nat, s: nat, j: int, caps: seq<Capture>)
    ensures NoneAfter(m, q, s + 1, j, caps) <==> NoneAfter(m, q, s, j + 1, caps)
  {
  }

  /** The search reports a malformed pattern exactly where it gets stuck, and only for a pattern
      with a defect. */
  lemma MalformedExactly(m: Subject, p: nat, s: nat, caps: seq<Capture>)
    requires s <= |m.src| && Behind(caps, s)
    ensures Search(m, p, s, caps).Bad? <==> Stuck(m, p, s, caps)
    ensures Stuck(m, p, s, caps) ==> Defective(m.pat, p, Shape(caps))
  {
    SearchOk(m, p, s, caps);
    if Stuck(m, p, s, caps) {
      StuckBad(m, p, s, caps);
      StuckDefective(m, p, s, caps);
    }
  }

  // ----- what the order means -----

  /** The first match is a match. */
  lemma {:induction false} FirstMatches(m: Subject, p: nat, s: int, caps: seq<Capture>, e: int, caps': seq<Capture>)
    requires First(m, p, s, caps, e, caps')
    ensures Matches(m, p, s, caps, e, caps')
    decreases |m.pat| - p, 1
  {
    var c, d := At(m.pat, p), At(m.pat, p + 1);
    if IsItem(m.pat, p) {
      FirstItemMatches(m, p, s, caps, e, caps');
    } else if c == '(' {
      if d == ')' { FirstMatches(m, p + 2, s, caps + [Capture(s, CAP_POSITION)], e, caps'); }
      else { FirstMatches(m, p + 1, s, caps + [Capture(s, CAP_UNFINISHED)], e, caps'); }
    } else if c == ')' {
      var l := LastOpen(caps);
      FirstMatches(m, p + 1, s, caps[l := Capture(caps[l].init, s - caps[l].init)], e, caps');
    } else if c == ESC && d == 'b' {
      var q :| Balanced(m.src, s, At(m.pat, p + 2), At(m.pat, p + 3), q) && First(m, p + 4, q, caps, e, caps');
      FirstMatches(m, p + 4, q, caps, e, caps');
    } else if c == ESC && d == 'f' {
      FirstMatches(m, ClassEnd(m.pat, p + 2).value, s, caps, e, caps');
    } else if c == ESC && IsDigit(d) {
      FirstMatches(m, p + 2, s + caps[d as int - '1' as int].len, caps, e, caps');
    }
  }

  lemma {:induction false} FirstItemMatches(m: Subject, p: nat, s: int, caps: seq<Capture>, e: int, caps': seq<Capture>)
    requires First(m, p, s, caps, e, caps') && IsItem(m.pat, p)
    ensures Matches(m, p, s, caps, e, caps')
    decreases |m.pat| - p, 0
  {
    var ep := ClassEnd(m.pat, p).value;
    var r := At(m.pat, ep);
    if IsRepeat(r) {
      var k :| Allowed(m, r, s, k, p, ep) && First(m, ep + 1, s + k, caps, e, caps');
      FirstMatches(m, ep + 1, s + k, caps, e, caps');
    } else {
      FirstMatches(m, ep, s + 1, caps, e, caps');
    }
  }
}
