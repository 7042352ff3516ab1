/** What Lua patterns mean (lstrlib.c:186-440). Strings end in a zero that is not counted, as in C. */
module Patterns {
  import opened Wrappers

  const CAP_UNFINISHED := -1
  const CAP_POSITION := -2
  const LUA_MAXCAPTURES := 32
  const ZERO: char := '\0'
  const ESC: char := '%'

  /** Where a capture starts and how long it is, or that it is open or only a position. */
  datatype Capture = Capture(init: int, len: int)

  datatype Subject = Subject(src: string, pat: string)

  function At(s: string, i: int): char {
    if 0 <= i < |s| then s[i] else ZERO
  }

  // ----- single characters -----

  predicate IsLower(c: char) { 'a' <= c <= 'z' }
  predicate IsUpper(c: char) { 'A' <= c <= 'Z' }
  predicate IsDigit(c: char) { '0' <= c <= '9' }
  predicate IsAlpha(c: char) { IsLower(c) || IsUpper(c) }
  predicate IsAlnum(c: char) { IsAlpha(c) || IsDigit(c) }
  predicate IsSpace(c: char) { c == ' ' || '\t' <= c <= '\r' }
  predicate IsCntrl(c: char) { c < ' ' || c as int == 127 }
  predicate IsPunct(c: char) { '!' <= c <= '~' && !IsAlnum(c) }
  predicate IsXDigit(c: char) { IsDigit(c) || 'a' <= c <= 'f' || 'A' <= c <= 'F' }

  function ToLower(c: char): char {
    if IsUpper(c) then ((c as int) + 32) as char else c
  }

  /** `match_class`: an upper-case letter is the complement of the lower-case one. */
  predicate MatchClass(c: char, cl: char) {
    var l := ToLower(cl);
    if l in {'a', 'c', 'd', 'l', 'p', 's', 'u', 'w', 'x', 'z'} then
      var res :=
        if l == 'a' then IsAlpha(c)
        else if l == 'c' then IsCntrl(c)
        else if l == 'd' then IsDigit(c)
        else if l == 'l' then IsLower(c)
        else if l == 'p' then IsPunct(c)
        else if l == 's' then IsSpace(c)
        else if l == 'u' then IsUpper(c)
        else if l == 'w' then IsAlnum(c)
        else if l == 'x' then IsXDigit(c)
        else c == ZERO;
      if IsLower(cl) then res else !res
    else cl == c
  }

  /** Whether `c` is one of the elements of a set that lie in pat[p..ec). */
  predicate InSet(pat: string, c: char, p: int, ec: int)
    decreases ec - p
  {
    if p >= ec then false
    else if At(pat, p) == ESC then MatchClass(c, At(pat, p + 1)) || InSet(pat, c, p + 2, ec)
    else if At(pat, p + 1) == '-' && p + 2 < ec then At(pat, p) <= c <= At(pat, p + 2) || InSet(pat, c, p + 3, ec)
    else At(pat, p) == c || InSet(pat, c, p + 1, ec)
  }

  /** `matchbracketclass`: a set from its '[' at `p` to its ']' at `ec`. */
  predicate MatchSet(pat: string, c: char, p: int, ec: int) {
    if At(pat, p + 1) == '^' then !InSet(pat, c, p + 2, ec) else InSet(pat, c, p + 1, ec)
  }

  /** `singlematch`. */
  predicate Single(pat: string, c: char, p: int, ep: int) {
    match At(pat, p)
    case '.' => true
    case '%' => MatchClass(c, At(pat, p + 1))
    case '[' => MatchSet(pat, c, p, ep - 1)
    case x => x == c
  }

  /** The place of the ']' that ends a set whose elements begin at `p`: not an escaped one, and not
      the first element. */
  function SetEnd(pat: string, p: int): (r: Option<int>)
    requires 0 <= p
    ensures r.Some? ==> p < r.value < |pat|
    decreases |pat| - p
  {
    if At(pat, p) == ZERO then None
    else
      var q := if At(pat, p) == ESC && At(pat, p + 1) != ZERO then p + 2 else p + 1;
      if At(pat, q) == ']' then Some(q) else SetEnd(pat, q)
  }

  /** `classend`: where the item at `p` ends, if it does. */
  function ClassEnd(pat: string, p: int): (r: Option<int>)
    requires 0 <= p < |pat|
    ensures r.Some? ==> p < r.value <= |pat|
  {
    match pat[p]
    case '%' => if At(pat, p + 1) == ZERO then None else Some(p + 2)
    case '[' =>
      (match SetEnd(pat, if At(pat, p + 1) == '^' then p + 2 else p + 1)
       case None => None
       case Some(q) => Some(q + 1))
    case _ => Some(p + 1)
  }

  // ----- balanced strings -----

  /** How many more `b` than `e` there are in src[s..i), an `e` counting first if both are the same. */
  function Depth(src: string, s: int, i: int, b: char, e: char): int
    decreases i - s
  {
    if i <= s then 0
    else Depth(src, s, i - 1, b, e) + (if At(src, i - 1) == e then -1 else if At(src, i - 1) == b then 1 else 0)
  }

  /** How many `b` are open in src[s..i), which begins with one. */
  function Open(src: string, s: int, i: int, b: char, e: char): int { 1 + Depth(src, s + 1, i, b, e) }

  /** src[s..end) begins with `b`, and `end` is the first place where that is balanced by `e`. */
  ghost predicate Balanced(src: string, s: int, b: char, e: char, end: int) {
    && At(src, s) == b && s < end <= |src|
    && Open(src, s, end, b, e) == 0
    && forall i :: s < i < end ==> Open(src, s, i, b, e) > 0
  }

  // ----- captures -----

  predicate Unfinished(c: Capture) { c.len == CAP_UNFINISHED }

  /** `capture_to_close`: the last open capture, or -1. */
  function LastOpen(caps: seq<Capture>): (l: int)
    ensures -1 <= l < |caps|
    ensures l >= 0 ==> Unfinished(caps[l]) && forall i :: l < i < |caps| ==> !Unfinished(caps[i])
    ensures l < 0 ==> forall i :: 0 <= i < |caps| ==> !Unfinished(caps[i])
  {
    if caps == [] then -1
    else if Unfinished(caps[|caps| - 1]) then |caps| - 1
    else LastOpen(caps[..|caps| - 1])
  }

  predicate ValidBack(caps: seq<Capture>, l: int) {
    0 <= l < |caps| && !Unfinished(caps[l])
  }

  /** `match_capture`: src[s..] begins with the text of capture `c`; a position has no text. */
  predicate Repeats(src: string, c: Capture, s: int) {
    && 0 <= c.len && 0 <= c.init && c.init + c.len <= |src| && 0 <= s && s + c.len <= |src|
    && src[s..s + c.len] == src[c.init..c.init + c.len]
  }

  // ----- the meaning of a pattern -----

  /** `singlematch` of character `i` of the subject. */
  predicate SingleAt(m: Subject, i: int, p: int, ep: int) { 0 <= i < |m.src| && Single(m.pat, m.src[i], p, ep) }

  /** `k` characters from `s` on match the item pat[p..ep). */
  ghost predicate Run(m: Subject, s: int, k: int, p: int, ep: int) {
    0 <= k && s + k <= |m.src| && forall i :: s <= i < s + k ==> SingleAt(m, i, p, ep)
  }

  /** The pattern from `p` on can match src[s..e), turning the captures `caps` into `caps'`. Nothing
      is said about which of several ways is taken. */
  ghost predicate Matches(m: Subject, p: int, s: int, caps: seq<Capture>, e: int, caps': seq<Capture>)
    requires 0 <= p
    decreases |m.pat| - p
  {
    var c := At(m.pat, p);
    var d := At(m.pat, p + 1);
    if c == ZERO then e == s && caps' == caps
    else if c == '(' then
      |caps| < LUA_MAXCAPTURES &&
      (if d == ')' then Matches(m, p + 2, s, caps + [Capture(s, CAP_POSITION)], e, caps')
       else Matches(m, p + 1, s, caps + [Capture(s, CAP_UNFINISHED)], e, caps'))
    else if c == ')' then
      var l := LastOpen(caps);
      l >= 0 && Matches(m, p + 1, s, caps[l := Capture(caps[l].init, s - caps[l].init)], e, caps')
    else if c == ESC && d == 'b' then
      var b, x := At(m.pat, p + 2), At(m.pat, p + 3);
      b != ZERO && x != ZERO && exists q :: Balanced(m.src, s, b, x, q) && Matches(m, p + 4, q, caps, e, caps')
    else if c == ESC && d == 'f' then
      At(m.pat, p + 2) == '[' &&
      (match ClassEnd(m.pat, p + 2)
       case None => false
       case Some(ep) =>
         !MatchSet(m.pat, At(m.src, s - 1), p + 2, ep - 1) && MatchSet(m.pat, At(m.src, s), p + 2, ep - 1) &&
         Matches(m, ep, s, caps, e, caps'))
    else if c == ESC && IsDigit(d) then
      var l := d as int - '1' as int;
      ValidBack(caps, l) && Repeats(m.src, caps[l], s) && Matches(m, p + 2, s + caps[l].len, caps, e, caps')
    else if c == '$' && d == ZERO then s == |m.src| && e == s && caps' == caps
    else
      match ClassEnd(m.pat, p)
      case None => false
      case Some(ep) =>
        match At(m.pat, ep)
        case '?' => exists k :: 0 <= k <= 1 && Run(m, s, k, p, ep) && Matches(m, ep + 1, s + k, caps, e, caps')
        case '*' => exists k :: 0 <= k && Run(m, s, k, p, ep) && Matches(m, ep + 1, s + k, caps, e, caps')
        case '+' => exists k :: 1 <= k && Run(m, s, k, p, ep) && Matches(m, ep + 1, s + k, caps, e, caps')
        case '-' => exists k :: 0 <= k && Run(m, s, k, p, ep) && Matches(m, ep + 1, s + k, caps, e, caps')
        case _ => Run(m, s, 1, p, ep) && Matches(m, ep, s + 1, caps, e, caps')
  }

  // ----- the order of search -----

  datatype Outcome = Found(e: int, caps: seq<Capture>) | Fail | Bad(message: string)

  /** How many characters from `s` on match the item. */
  function MaxRun(m: Subject, s: int, p: int, ep: int): (k: nat)
    ensures Run(m, s, k, p, ep) || s > |m.src|
    ensures !SingleAt(m, s + k, p, ep)
    decreases |m.src| - s
  {
    if SingleAt(m, s, p, ep) then 1 + MaxRun(m, s + 1, p, ep) else 0
  }

  /** `matchbalance`, after the first character: `cont` are open before place `i`. */
  function BalanceFrom(src: string, i: nat, b: char, e: char, cont: int): Option<int>
    decreases |src| - i
  {
    if i >= |src| then None
    else if src[i] == e then (if cont - 1 == 0 then Some(i + 1) else BalanceFrom(src, i + 1, b, e, cont - 1))
    else BalanceFrom(src, i + 1, b, e, if src[i] == b then cont + 1 else cont)
  }

  /** What `match` finds first, trying the ways of matching in its order. */
  function Search(m: Subject, p: nat, s: nat, caps: seq<Capture>): Outcome
    decreases |m.pat| - p, 0
  {
    var c := At(m.pat, p);
    var d := At(m.pat, p + 1);
    if c == ZERO then Found(s, caps)
    else if c == '(' then
      if |caps| >= LUA_MAXCAPTURES then Bad("too many captures")
      else if d == ')' then Search(m, p + 2, s, caps + [Capture(s, CAP_POSITION)])
      else Search(m, p + 1, s, caps + [Capture(s, CAP_UNFINISHED)])
    else if c == ')' then
      var l := LastOpen(caps);
      if l < 0 then Bad("invalid pattern capture")
      else Search(m, p + 1, s, caps[l := Capture(caps[l].init, s - caps[l].init)])
    else if c == ESC && d == 'b' then
      if At(m.pat, p + 2) == ZERO || At(m.pat, p + 3) == ZERO then Bad("unbalanced pattern")
      else if At(m.src, s) != At(m.pat, p + 2) then Fail
      else
        match BalanceFrom(m.src, s + 1, At(m.pat, p + 2), At(m.pat, p + 3), 1)
        case None => Fail
        case Some(q) => if q >= 0 then Search(m, p + 4, q, caps) else Fail
    else if c == ESC && d == 'f' then
      if At(m.pat, p + 2) != '[' then Bad("missing '[' after '%f' in pattern")
      else
        match ClassEnd(m.pat, p + 2)
        case None => Bad("malformed pattern")
        case Some(ep) =>
          if MatchSet(m.pat, At(m.src, s - 1), p + 2, ep - 1) || !MatchSet(m.pat, At(m.src, s), p + 2, ep - 1) then Fail
          else Search(m, ep, s, caps)
    else if c == ESC && IsDigit(d) then
      var l := d as int - '1' as int;
      if !ValidBack(caps, l) then Bad("invalid capture index")
      else if Repeats(m.src, caps[l], s) then Search(m, p + 2, s + caps[l].len, caps)
      else Fail
    else if c == '$' && d == ZERO then (if s == |m.src| then Found(s, caps) else Fail)
    else
      match ClassEnd(m.pat, p)
      case None => Bad("malformed pattern")
      case Some(ep) =>
        match At(m.pat, ep)
        case '?' =>
          (if SingleAt(m, s, p, ep) then
             match Search(m, ep + 1, s + 1, caps)
             case Fail => Search(m, ep + 1, s, caps)
             case o => o
           else Search(m, ep + 1, s, caps))
        case '*' => Longest(m, ep + 1, s, MaxRun(m, s, p, ep), caps)
        case '+' => if SingleAt(m, s, p, ep) then Longest(m, ep + 1, s + 1, MaxRun(m, s + 1, p, ep), caps) else Fail
        case '-' => Shortest(m, ep + 1, s, p, ep, caps)
        case _ => if SingleAt(m, s, p, ep) then Search(m, ep, s + 1, caps) else Fail
  }

  /** `max_expand`: from `i` repetitions down to none. */
  function Longest(m: Subject, q: nat, s: nat, i: nat, caps: seq<Capture>): Outcome
    decreases |m.pat| - q, i + 1
  {
    match Search(m, q, s + i, caps)
    case Fail => if i == 0 then Fail else Longest(m, q, s, i - 1, caps)
    case o => o
  }

  /** `min_expand`: from no repetition up. */
  function Shortest(m: Subject, q: nat, s: nat, p: int, ep: int, caps: seq<Capture>): Outcome
    decreases |m.pat| - q, if s <= |m.src| then |m.src| - s + 1 else 1
  {
    match Search(m, q, s, caps)
    case Fail => if SingleAt(m, s, p, ep) then Shortest(m, q, s + 1, p, ep, caps) else Fail
    case o => o
  }
}
