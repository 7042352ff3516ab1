/** What the items of a pattern stand for (lstrlib.c:202-279), by lists of character codes and by
    the elements that a set is written with. */
module PatternItems {
  import opened Wrappers
  import opened Patterns

  // ----- classes -----

  /** The ASCII codes that each class letter stands for, as ranges. */
  const CLASSES: map<char, seq<(int, int)>> := map[
    'a' := [(65, 90), (97, 122)],
    'c' := [(0, 31), (127, 127)],
    'd' := [(48, 57)],
    'l' := [(97, 122)],
    'p' := [(33, 47), (58, 64), (91, 96), (123, 126)],
    's' := [(9, 13), (32, 32)],
    'u' := [(65, 90)],
    'w' := [(48, 57), (65, 90), (97, 122)],
    'x' := [(48, 57), (65, 70), (97, 102)],
    'z' := [(0, 0)]]

  predicate InRanges(rs: seq<(int, int)>, c: char) {
    exists i :: 0 <= i < |rs| && rs[i].0 <= c as int <= rs[i].1
  }

  /** `match_class`: a lower-case class letter stands for its codes, the upper-case letter for all others, and any
      other character for itself. */
  lemma ClassTable(c: char, cl: char)
    ensures cl in CLASSES ==> (MatchClass(c, cl) <==> InRanges(CLASSES[cl], c))
    ensures forall l :: l in CLASSES && cl as int == l as int - 32 ==> (MatchClass(c, cl) <==> !InRanges(CLASSES[l], c))
    ensures cl !in CLASSES && (forall l :: l in CLASSES ==> cl as int != l as int - 32) ==> (MatchClass(c, cl) <==> c == cl)
  {
    var n := c as int;
    if cl in CLASSES { RangesOf(c, cl); }
    forall l | l in CLASSES && cl as int == l as int - 32
      ensures MatchClass(c, cl) <==> !InRanges(CLASSES[l], c)
    {
      RangesOf(c, l);
      assert ToLower(cl) == l;
    }
    if cl !in CLASSES && (forall l :: l in CLASSES ==> cl as int != l as int - 32) {
      assert ToLower(cl) !in CLASSES;
    }
  }

  lemma RangesOf(c: char, l: char)
    requires l in CLASSES
    ensures IsLower(l) && (MatchClass(c, l) <==> InRanges(CLASSES[l], c))
  {
    var rs, n := CLASSES[l], c as int;
    assert MatchClass(c, l) ==>
        (rs[0].0 <= n <= rs[0].1) || (|rs| > 1 && rs[1].0 <= n <= rs[1].1) ||
        (|rs| > 2 && rs[2].0 <= n <= rs[2].1) || (|rs| > 3 && rs[3].0 <= n <= rs[3].1);
  }

  /** Outside sets: '.' matches any character, an escape what its class does, and other characters
      match themselves. */
  lemma ItemMeans(pat: string, p: nat, c: char)
    requires p < |pat| && pat[p] != '['
    ensures pat[p] == '.' ==> ClassEnd(pat, p) == Some(p + 1) && Single(pat, c, p, p + 1)
    ensures pat[p] == '%' && p + 1 < |pat| && pat[p + 1] != ZERO ==>
              ClassEnd(pat, p) == Some(p + 2) && (Single(pat, c, p, p + 2) <==> MatchClass(c, pat[p + 1]))
    ensures pat[p] == '%' && p + 1 == |pat| ==> ClassEnd(pat, p) == None
    ensures pat[p] != '.' && pat[p] != '%' ==> ClassEnd(pat, p) == Some(p + 1) && (Single(pat, c, p, p + 1) <==> c == pat[p])
  {
  }

  // ----- sets -----

  /** How the elements of a set are written: a character, an escape and a range. */
  datatype Element = Plain(c: char) | Escape(c: char) | Span(lo: char, hi: char)

  /** The characters that stand for themselves in a set. */
  predicate Ordinary(c: char) { c !in {'%', ']', '^', '-', ZERO} }

  predicate Written(e: Element) {
    match e
    case Plain(c) => Ordinary(c)
    case Escape(c) => c != ZERO
    case Span(lo, hi) => Ordinary(lo) && Ordinary(hi)
  }

  function Spelled(e: Element): string {
    match e
    case Plain(c) => [c]
    case Escape(c) => ['%', c]
    case Span(lo, hi) => [lo, '-', hi]
  }

  function Text(es: seq<Element>): string {
    if es == [] then [] else Spelled(es[0]) + Text(es[1..])
  }

  predicate Stands(e: Element, c: char) {
    match e
    case Plain(d) => c == d
    case Escape(d) => MatchClass(c, d)
    case Span(lo, hi) => lo <= c <= hi
  }

  /** The text of `es` and a ']' are in the pattern at `p`. A ']' may be the first element of a set. */
  ghost predicate SetAt(pat: string, p: nat, es: seq<Element>, first: bool) {
    var ec := p + |Text(es)|;
    ec < |pat| && pat[p..ec] == Text(es) && pat[ec] == ']' &&
    forall i :: 0 <= i < |es| ==> Written(es[i]) || (first && i == 0 && es[i] == Plain(']'))
  }

  lemma SetTail(pat: string, p: nat, es: seq<Element>, first: bool)
    requires SetAt(pat, p, es, first) && es != []
    ensures var n := |Spelled(es[0])|;
            n + |Text(es[1..])| == |Text(es)| && SetAt(pat, p + n, es[1..], false) && pat[p..p + n] == Spelled(es[0])
  {
    hide Written, Spelled, Text;
    TextHead(es);
    Halves(pat, p, Spelled(es[0]), Text(es[1..]));
    WrittenTail(es, first);
  }

  lemma TextHead(es: seq<Element>)
    requires es != []
    ensures Text(es) == Spelled(es[0]) + Text(es[1..])
  {
  }

  lemma WrittenTail(es: seq<Element>, first: bool)
    requires es != [] && forall i :: 0 <= i < |es| ==> Written(es[i]) || (first && i == 0 && es[i] == Plain(']'))
    ensures forall i :: 0 <= i < |es[1..]| ==> Written(es[1..][i])
  {
    hide Written;
    forall i | 0 <= i < |es[1..]| ensures Written(es[1..][i]) { assert es[1..][i] == es[i + 1]; }
  }

  lemma Halves(pat: string, p: nat, a: string, b: string)
    requires p + |a + b| <= |pat| && pat[p..p + |a + b|] == a + b
    ensures pat[p..p + |a|] == a && pat[p + |a|..p + |a| + |b|] == b
  {
    assert pat[p..p + |a|] == pat[p..p + |a + b|][..|a|];
    assert pat[p + |a|..p + |a| + |b|] == pat[p..p + |a + b|][|a|..];
  }

  /** What follows an element is no '-', and a ']' only where the set ends. */
  lemma NotRange(pat: string, p: nat, es: seq<Element>)
    requires SetAt(pat, p, es, false)
    ensures pat[p] != '-' && pat[p] != ZERO && (es != [] ==> pat[p] != ']')
  {
    if es != [] {
      SetTail(pat, p, es, false);
      assert pat[p] == pat[p..p + |Spelled(es[0])|][0];
    }
  }

  /** What the elements of a set match, and where it ends. */
  lemma {:induction false} ElementsMean(pat: string, p: nat, es: seq<Element>, c: char, first: bool)
    requires SetAt(pat, p, es, first)
    ensures InSet(pat, c, p, p + |Text(es)|) <==> exists i :: 0 <= i < |es| && Stands(es[i], c)
    ensures es != [] ==> SetEnd(pat, p) == Some(p + |Text(es)|)
    decreases |es|
  {
    hide InSet, SetEnd, Stands, Written, Spelled;
    if es == [] {
      assert !InSet(pat, c, p, p) by { NothingInSet(pat, c, p); }
    } else {
      SetTail(pat, p, es, first);
      var n := |Spelled(es[0])|;
      ElementsMean(pat, p + n, es[1..], c, false);
      NotRange(pat, p + n, es[1..]);
      ElementMeans(pat, p, es[0], p + |Text(es)|, c);
      AnyStands(es, c);
    }
  }

  lemma NothingInSet(pat: string, c: char, p: nat)
    ensures !InSet(pat, c, p, p)
  {
  }

  lemma AnyStands(es: seq<Element>, c: char)
    requires es != []
    ensures (exists i :: 0 <= i < |es| && Stands(es[i], c)) <==> Stands(es[0], c) || exists i :: 0 <= i < |es[1..]| && Stands(es[1..][i], c)
  {
    hide Stands;
    assert es == [es[0]] + es[1..];
  }

  /** One element of a set that ends at `ec`. */
  lemma ElementMeans(pat: string, p: nat, e: Element, ec: nat, c: char)
    requires Written(e) || e == Plain(']')
    requires p + |Spelled(e)| <= ec < |pat| && pat[p..p + |Spelled(e)|] == Spelled(e)
    requires pat[p + |Spelled(e)|] != '-' && pat[p + |Spelled(e)|] != ZERO
    ensures InSet(pat, c, p, ec) <==> Stands(e, c) || InSet(pat, c, p + |Spelled(e)|, ec)
    ensures var q := p + |Spelled(e)|; SetEnd(pat, p) == if pat[q] == ']' then Some(q) else SetEnd(pat, q)
  {
    var here := pat[p..p + |Spelled(e)|];
    assert pat[p] == here[0] && (|here| > 1 ==> pat[p + 1] == here[1]) && (|here| > 2 ==> pat[p + 2] == here[2]);
    if e.Span? { assert SetEnd(pat, p) == SetEnd(pat, p + 1) == SetEnd(pat, p + 2); }
  }

  /** A set, from its '[' at `p`, is the disjunction of its elements or, after '^', the complement. */
  lemma SetMeans(pat: string, p: nat, es: seq<Element>, complement: bool, c: char)
    requires p + 1 < |pat| && pat[p] == '[' && (complement ==> pat[p + 1] == '^') && es != []
    requires SetAt(pat, if complement then p + 2 else p + 1, es, true)
    ensures var end := (if complement then p + 2 else p + 1) + |Text(es)| + 1;
            ClassEnd(pat, p) == Some(end) &&
            (Single(pat, c, p, end) <==> ((exists i :: 0 <= i < |es| && Stands(es[i], c)) != complement))
  {
    hide SetEnd, InSet, Text, SetAt, Stands;
    var q := if complement then p + 2 else p + 1;
    ElementsMean(pat, q, es, c, true);
    SetBegins(pat, q, es);
  }

  lemma SetBegins(pat: string, q: nat, es: seq<Element>)
    requires SetAt(pat, q, es, true) && es != []
    ensures q < |pat| && pat[q] != '^'
  {
    SetTail(pat, q, es, true);
    assert pat[q] == pat[q..q + |Spelled(es[0])|][0];
  }
}
