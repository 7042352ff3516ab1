/**
  The collectable heap of the Lua state: object bodies, mark colours, the references an
  object holds, and reachability.  Pointers are ids; freed ids are never handed out again.
 */
module LuaHeap {
  import opened Wrappers

  type Id = int

  /** A tagged value.  Only `Ref` is collectable. */
  datatype Value = Nil | Bool(b: bool) | Num(n: int) | Ref(id: Id)

  /** `White(t)` is one of the two whites, `Gray` has no colour bit set. */
  datatype Color = White(tint: bool) | Gray | Black

  datatype Mark = Mark(color: Color, fixed: bool)

  /** Where an upvalue's value lives: in a stack slot of a thread, or in the upvalue. */
  datatype Box = Open(th: Id, level: nat) | Closed(value: Value)

  datatype Body =
    | Str(chars: string)
    | Udata(udMeta: Option<Id>, udEnv: Id)
    | Upval(box: Box)
    | LClosure(lenv: Id, proto: Id, upvals: seq<Id>)
    | CClosure(cenv: Id, cvals: seq<Value>)
    | Table(meta: Option<Id>, entries: map<Value, Value>)
    | Thread(gt: Value, stack: seq<Value>, openupval: seq<Id>)
    | Proto(k: seq<Value>, nested: seq<Id>)

  type Heap = map<Id, Body>
  type Marks = map<Id, Mark>

  predicate IsOpen(b: Body) {
    b.Upval? && b.box.Open?
  }

  predicate IsContainer(b: Body) {
    b.LClosure? || b.CClosure? || b.Table? || b.Thread? || b.Proto?
  }

  // ----- string hashing -----

  function Xor(a: nat, b: nat): nat {
    if a == 0 then b
    else if b == 0 then a
    else (a % 2 + b % 2) % 2 + 2 * Xor(a / 2, b / 2)
  }

  /** The string hash on 32-bit words: characters are taken from the end, every `step`-th one. */
  function HashFrom(s: string, l1: nat, step: nat, h: nat): nat
    requires step > 0 && l1 <= |s|
  {
    if l1 < step then h
    else HashFrom(s, l1 - step, step, Xor(h, (h * 32 + h / 4 + s[l1 - 1] as int) % 0x1_0000_0000))
  }

  function Hash(s: string): nat {
    HashFrom(s, |s|, |s| / 32 + 1, |s| % 0x1_0000_0000)
  }

  function Bucket(s: string, size: nat): nat
    requires size > 0
    ensures Bucket(s, size) < size
  {
    Hash(s) % size
  }

  // ----- weak mode of a table -----

  /** `strchr(s, c) != NULL`: the search stops at the first NUL. */
  predicate HasFlag(s: string, c: char) {
    s != [] && s[0] != '\0' && (s[0] == c || HasFlag(s[1..], c))
  }

  /** The string under `__mode` in the metatable of `t`, or "" when there is none. */
  function Mode(objs: Heap, modeName: Id, t: Id): string {
    if t in objs && objs[t].Table? && objs[t].meta.Some? then
      var m := objs[t].meta.value;
      if m in objs && objs[m].Table? && Ref(modeName) in objs[m].entries then
        var v := objs[m].entries[Ref(modeName)];
        if v.Ref? && v.id in objs && objs[v.id].Str? then objs[v.id].chars else ""
      else ""
    else ""
  }

  predicate WeakKey(objs: Heap, modeName: Id, t: Id) {
    HasFlag(Mode(objs, modeName, t), 'k')
  }

  predicate WeakValue(objs: Heap, modeName: Id, t: Id) {
    HasFlag(Mode(objs, modeName, t), 'v')
  }

  predicate IsWeak(objs: Heap, modeName: Id, t: Id) {
    WeakKey(objs, modeName, t) || WeakValue(objs, modeName, t)
  }

  predicate NoWeak(objs: Heap, modeName: Id) {
    forall t :: t in objs ==> !IsWeak(objs, modeName, t)
  }

  // ----- references -----

  /** The value an upvalue currently denotes. */
  function BoxValue(objs: Heap, box: Box): Value {
    match box
    case Closed(v) => v
    case Open(th, level) =>
      if th in objs && objs[th].Thread? && level < |objs[th].stack| then objs[th].stack[level] else Nil
  }

  /** Object `a` holds a reference to `b`. */
  ghost predicate Edge(objs: Heap, a: Id, b: Id) {
    a in objs &&
    match objs[a]
    case Str(_) => false
    case Udata(m, e) => m == Some(b) || e == b
    case Upval(box) => BoxValue(objs, box) == Ref(b)
    case LClosure(e, p, us) => e == b || p == b || b in us
    case CClosure(e, vs) => e == b || Ref(b) in vs
    case Table(m, es) => m == Some(b) || (exists k :: k in es && (k == Ref(b) || es[k] == Ref(b)))
    case Thread(g, st, _) => g == Ref(b) || Ref(b) in st
    case Proto(k, ps) => Ref(b) in k || b in ps
  }

  /** As `Edge`, without the weak half of the entries of a weak table. */
  ghost predicate StrongEdge(objs: Heap, modeName: Id, a: Id, b: Id) {
    Edge(objs, a, b) &&
    (objs[a].Table? ==>
       objs[a].meta == Some(b)
       || (exists k :: k in objs[a].entries &&
                       ((k == Ref(b) && !WeakKey(objs, modeName, a))
                        || (objs[a].entries[k] == Ref(b) && !WeakValue(objs, modeName, a)))))
  }

  lemma StrongIsEdge(objs: Heap, modeName: Id, a: Id, b: Id)
    requires Edge(objs, a, b) && !IsWeak(objs, modeName, a)
    ensures StrongEdge(objs, modeName, a, b)
  {
    if objs[a].Table? && objs[a].meta != Some(b) {
      var k :| k in objs[a].entries && (k == Ref(b) || objs[a].entries[k] == Ref(b));
    }
  }

  /** What an object other than a table, closure, thread or prototype refers to. */
  lemma MarkEdges(objs: Heap, modeName: Id, o: Id)
    requires o in objs
    ensures objs[o].Str? ==> forall b :: !Edge(objs, o, b)
    ensures objs[o].Udata? ==> forall b :: Edge(objs, o, b) <==> objs[o].udMeta == Some(b) || objs[o].udEnv == b
    ensures objs[o].Upval? ==> forall b :: Edge(objs, o, b) <==> BoxValue(objs, objs[o].box) == Ref(b)
    ensures forall b :: StrongEdge(objs, modeName, o, b) ==> Edge(objs, o, b)
    ensures !objs[o].Table? ==> forall b :: StrongEdge(objs, modeName, o, b) <==> Edge(objs, o, b)
  {
  }

  lemma TableEdges(objs: Heap, modeName: Id, h: Id)
    requires h in objs && objs[h].Table?
    ensures objs[h].meta.Some? ==> Edge(objs, h, objs[h].meta.value)
    ensures forall k :: k in objs[h].entries && k.Ref? ==> Edge(objs, h, k.id)
    ensures forall k :: k in objs[h].entries && objs[h].entries[k].Ref? ==> Edge(objs, h, objs[h].entries[k].id)
    ensures objs[h].meta.Some? ==> StrongEdge(objs, modeName, h, objs[h].meta.value)
    ensures !WeakKey(objs, modeName, h) ==> forall k :: k in objs[h].entries && k.Ref? ==> StrongEdge(objs, modeName, h, k.id)
    ensures !WeakValue(objs, modeName, h) ==>
              forall k :: k in objs[h].entries && objs[h].entries[k].Ref? ==> StrongEdge(objs, modeName, h, objs[h].entries[k].id)
  {
  }

  /** What a closure, thread or prototype refers to. */
  lemma OtherEdges(objs: Heap, modeName: Id, o: Id)
    requires o in objs && !objs[o].Table?
    ensures objs[o].LClosure? ==> forall b :: Edge(objs, o, b) <==>
                                              objs[o].lenv == b || objs[o].proto == b || b in objs[o].upvals
    ensures objs[o].CClosure? ==> forall b :: Edge(objs, o, b) <==> objs[o].cenv == b || Ref(b) in objs[o].cvals
    ensures objs[o].Thread? ==> forall b :: Edge(objs, o, b) <==> objs[o].gt == Ref(b) || Ref(b) in objs[o].stack
    ensures objs[o].Proto? ==> forall b :: Edge(objs, o, b) <==> Ref(b) in objs[o].k || b in objs[o].nested
    ensures forall b :: StrongEdge(objs, modeName, o, b) <==> Edge(objs, o, b)
  {
  }

  // ----- reachability -----

  ghost predicate Path(objs: Heap, roots: set<Id>, p: seq<Id>) {
    |p| > 0 && p[0] in roots && forall i :: 0 < i < |p| ==> Edge(objs, p[i - 1], p[i])
  }

  /** `o` can be reached from the roots along references. */
  ghost predicate Reachable(objs: Heap, roots: set<Id>, o: Id) {
    exists p :: Path(objs, roots, p) && p[|p| - 1] == o
  }

  lemma ReachStep(objs: Heap, roots: set<Id>, a: Id, b: Id)
    requires Reachable(objs, roots, a) && Edge(objs, a, b)
    ensures Reachable(objs, roots, b)
  {
    var p :| Path(objs, roots, p) && p[|p| - 1] == a;
    assert Path(objs, roots, p + [b]);
  }

  ghost predicate StrongPath(objs: Heap, modeName: Id, roots: set<Id>, p: seq<Id>) {
    |p| > 0 && p[0] in roots && forall i :: 0 < i < |p| ==> StrongEdge(objs, modeName, p[i - 1], p[i])
  }

  /** `o` can be reached from the roots without going through a weak half of an entry. */
  ghost predicate StronglyReachable(objs: Heap, modeName: Id, roots: set<Id>, o: Id) {
    exists p :: StrongPath(objs, modeName, roots, p) && p[|p| - 1] == o
  }

  // ----- sequences used as linked lists -----

  ghost predicate Disjoint(s: seq<Id>, t: seq<Id>) {
    forall x :: x in s ==> x !in t
  }

  /** `s` with its first `x` unlinked. */
  function Without(s: seq<Id>, x: Id): seq<Id> {
    if s == [] then [] else if s[0] == x then s[1..] else [s[0]] + Without(s[1..], x)
  }

  lemma {:induction false} WithoutElems(s: seq<Id>, x: Id)
    requires NoDup(s)
    ensures NoDup(Without(s, x))
    ensures forall y :: y in Without(s, x) <==> y in s && y != x
    ensures x in s ==> |Without(s, x)| == |s| - 1
  {
    if s != [] {
      var t := s[1..];
      assert forall y :: y in s <==> y == s[0] || y in t;
      WithoutElems(t, x);
      var w := Without(t, x);
      assert forall y :: y in [s[0]] + w <==> y == s[0] || y in w;
      assert s[0] !in t;
      assert forall i :: 0 <= i < |w| ==> w[i] in w;
    }
  }

  lemma WithoutCover(s: seq<Id>, x: Id)
    requires NoDup(s)
    ensures Elems(s) <= Elems(Without(s, x)) + {x}
  {
    WithoutElems(s, x);
    forall y | y in Elems(s) ensures y in Elems(Without(s, x)) + {x} { assert y in s; }
  }

  lemma WithoutShorter(s: seq<Id>, x: Id)
    ensures |Without(s, x)| <= |s|
    ensures x in s ==> |Without(s, x)| == |s| - 1
  {
  }

  lemma {:induction false} WithoutPrefix(s: seq<Id>, x: Id, n: nat)
    requires n <= |s| && x !in s[..n]
    ensures |Without(s, x)| >= n && Without(s, x)[..n] == s[..n]
  {
    if n > 0 {
      assert s[0] == s[..n][0];
      assert s[1..][..n - 1] == s[..n][1..];
      WithoutPrefix(s[1..], x, n - 1);
    }
  }

  lemma {:induction false} WithoutAt(s: seq<Id>, i: nat)
    requires i < |s| && NoDup(s)
    ensures Without(s, s[i]) == s[..i] + s[i + 1..]
  {
    if i > 0 {
      assert s[0] != s[i];
      WithoutAt(s[1..], i - 1);
      assert s[1..][..i - 1] == s[1..i] && s[1..][i..] == s[i + 1..];
      assert s[..i] == [s[0]] + s[1..i];
    }
  }

  function Elems(s: seq<Id>): set<Id> {
    set x | x in s
  }

  lemma ElemsSubset(s: seq<Id>, t: seq<Id>)
    requires forall x :: x in s ==> x in t
    ensures Elems(s) <= Elems(t)
  {
    forall x | x in Elems(s) ensures x in Elems(t) { assert x in s; }
  }

  lemma NoDupSize(s: seq<Id>)
    requires NoDup(s)
    ensures |Elems(s)| == |s|
  {
    if s != [] {
      var t := s[..|s| - 1];
      NoDupSize(t);
      assert Elems(s) == Elems(t) + {s[|s| - 1]};
    }
  }

  lemma SameSize(s: seq<Id>, t: seq<Id>)
    requires NoDup(s) && NoDup(t)
    requires forall x :: x in s <==> x in t
    ensures |s| == |t|
  {
    NoDupSize(s);
    NoDupSize(t);
    assert Elems(s) == Elems(t);
  }
}
