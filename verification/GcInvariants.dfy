/**
  The invariants of the incremental collector, stated over the pieces of the global state,
  and the lemmas that carry them across a change of one piece.
 */
module GcInvariants {
  import opened Wrappers
  import opened LuaHeap

  datatype GcState = Pause | Propagate | SweepString | Sweep | Finalize

  // ----- colours -----

  predicate IsWhite(mark: Marks, o: Id) {
    o in mark && mark[o].color.White?
  }

  /** Marked gray or black. */
  predicate NonWhite(mark: Marks, o: Id) {
    o in mark && !mark[o].color.White?
  }

  predicate IsGray(mark: Marks, o: Id) {
    o in mark && mark[o].color.Gray?
  }

  predicate IsBlack(mark: Marks, o: Id) {
    o in mark && mark[o].color.Black?
  }

  /** `isdead`: carries the white that is not current. */
  predicate IsDead(mark: Marks, cw: bool, o: Id) {
    o in mark && mark[o].color == White(!cw)
  }

  /** What the sweep frees: dead and not fixed. */
  predicate IsDoomed(mark: Marks, cw: bool, o: Id) {
    IsDead(mark, cw, o) && !mark[o].fixed
  }

  predicate IsCurrent(mark: Marks, cw: bool, o: Id) {
    o in mark && mark[o].color == White(cw)
  }

  function Paint(mark: Marks, o: Id, c: Color): Marks
    requires o in mark
  {
    mark[o := mark[o].(color := c)]
  }

  function White2(mark: Marks): set<Id> {
    set o | o in mark && mark[o].color.White?
  }

  /** Marking only ever takes objects out of white. */
  ghost predicate Marked(mark: Marks, mark': Marks) {
    && mark'.Keys == mark.Keys
    && (forall o :: o in mark ==> mark'[o].fixed == mark[o].fixed)
    && (forall o :: NonWhite(mark, o) ==> mark'[o] == mark[o])
    && (forall o :: o in mark && mark'[o].color.White? ==> mark'[o] == mark[o])
  }

  /** Propagation marks white objects and may turn a gray object black or back. */
  ghost predicate Marked'(mark: Marks, mark': Marks) {
    && mark'.Keys == mark.Keys
    && (forall o :: o in mark ==> mark'[o].fixed == mark[o].fixed)
    && (forall o :: NonWhite(mark, o) ==> NonWhite(mark', o))
    && (forall o :: o in mark && mark'[o].color.White? ==> mark'[o] == mark[o])
  }

  /** What propagation may change beside the gray list: threads move on to `grayagain` and
      weak tables to `weak`. */
  ghost predicate Propagated(objs: Heap, modeName: Id, mark: Marks, grayagain: seq<Id>, weak: seq<Id>,
                             mark': Marks, grayagain': seq<Id>, weak': seq<Id>) {
    && Marked'(mark, mark')
    && (forall o :: o in grayagain ==> o in grayagain')
    && (forall o :: o in grayagain' && o !in grayagain ==> o in objs && objs[o].Thread?)
    && (forall o :: o in weak ==> o in weak')
    && (forall o :: o in weak' && o !in weak ==> IsWeak(objs, modeName, o))
    && (NoWeak(objs, modeName) && weak == [] ==> weak' == [])
  }

  /** Either a white object was marked or the gray list got shorter. */
  ghost predicate Progress(mark: Marks, gray: seq<Id>, mark': Marks, gray': seq<Id>) {
    White2(mark') <= White2(mark) && (White2(mark') == White2(mark) ==> |gray'| < |gray|)
  }

  // ----- invariants that hold in every state -----

  ghost predicate Domain(objs: Heap, mark: Marks, nextId: Id) {
    && mark.Keys == objs.Keys
    && (forall o :: o in objs ==> o < nextId)
  }

  /** References of live objects lead to allocated live objects. */
  ghost predicate LiveClosed(objs: Heap, mark: Marks, cw: bool) {
    forall a, b :: Edge(objs, a, b) && !IsDead(mark, cw, a) ==> b in objs && !IsDead(mark, cw, b)
  }

  ghost predicate RootsLive(objs: Heap, mark: Marks, cw: bool, roots: set<Id>) {
    forall r :: r in roots ==> r in objs && !IsDead(mark, cw, r)
  }

  predicate OnRootList(b: Body) {
    !b.Str? && !IsOpen(b)
  }

  ghost predicate RootList(objs: Heap, rootgc: seq<Id>) {
    && NoDup(rootgc)
    && (forall o :: o in rootgc <==> o in objs && OnRootList(objs[o]))
  }

  /** Each thread's open list holds exactly its open upvalues, in descending level order. */
  ghost predicate OpenLists(objs: Heap) {
    && (forall u :: u in objs && IsOpen(objs[u]) ==> OnOpenList(objs, u))
    && (forall th :: th in objs && objs[th].Thread? ==> OpenList(objs, th, objs[th].openupval))
  }

  ghost predicate OnOpenList(objs: Heap, u: Id)
    requires u in objs && IsOpen(objs[u])
  {
    var th := objs[u].box.th;
    th in objs && objs[th].Thread? && objs[u].box.level < |objs[th].stack| && u in objs[th].openupval
  }

  ghost predicate OpenList(objs: Heap, th: Id, l: seq<Id>) {
    && (forall i :: 0 <= i < |l| ==> OpenOn(objs, l[i], th))
    && (forall i, j :: 0 <= i < j < |l| ==> Level(objs, l[j]) < Level(objs, l[i]))
  }

  function Level(objs: Heap, u: Id): nat {
    if u in objs && IsOpen(objs[u]) then objs[u].box.level else 0
  }

  ghost predicate OpenOn(objs: Heap, u: Id, th: Id) {
    u in objs && IsOpen(objs[u]) && objs[u].box.th == th
  }

  ghost predicate OpenRing(objs: Heap, uvhead: seq<Id>) {
    && NoDup(uvhead)
    && (forall u :: u in uvhead <==> u in objs && IsOpen(objs[u]))
  }

  /** Threads, open upvalues and strings are never black. */
  ghost predicate NeverBlack(objs: Heap, mark: Marks) {
    forall o :: o in objs && IsBlack(mark, o) ==> !objs[o].Thread? && !IsOpen(objs[o]) && !objs[o].Str?
  }

  /** Every string sits in the bucket of its hash, once, and no two strings are equal. */
  ghost predicate StringTable(objs: Heap, strt: seq<seq<Id>>) {
    && |strt| > 0
    && (forall o :: o in objs && objs[o].Str? ==> o in strt[Bucket(objs[o].chars, |strt|)])
    && (forall b, o :: 0 <= b < |strt| && o in strt[b] ==>
          o in objs && objs[o].Str? && Bucket(objs[o].chars, |strt|) == b)
    && (forall b :: 0 <= b < |strt| ==> NoDup(strt[b]))
    && (forall o, p :: o in objs && p in objs && objs[o].Str? && objs[p].Str? && objs[o].chars == objs[p].chars ==> o == p)
  }

  /** Every object is allocated below `nextId` and on exactly the list it belongs to. */
  ghost predicate ShapeOk(objs: Heap, mark: Marks, nextId: Id, rootgc: seq<Id>, strt: seq<seq<Id>>, uvhead: seq<Id>) {
    && Domain(objs, mark, nextId)
    && RootList(objs, rootgc)
    && StringTable(objs, strt)
    && OpenLists(objs)
    && OpenRing(objs, uvhead)
  }

  /** Only strings and the main thread are fixed. */
  ghost predicate FixedOk(objs: Heap, mark: Marks, main: Id) {
    forall o :: o in objs && o in mark && mark[o].fixed ==> objs[o].Str? || o == main
  }

  ghost predicate LiveOk(objs: Heap, mark: Marks, cw: bool, roots: set<Id>) {
    && LiveClosed(objs, mark, cw)
    && RootsLive(objs, mark, cw, roots)
    && NeverBlack(objs, mark)
  }

  // ----- invariants of the sweep phases -----

  ghost predicate AllWhite(mark: Marks, cw: bool) {
    forall o :: o in mark ==> mark[o].color == White(cw)
  }

  /** The first `n` buckets have been swept. */
  ghost predicate SweptStrings(mark: Marks, cw: bool, strt: seq<seq<Id>>, n: nat) {
    forall b, o :: 0 <= b < n && b < |strt| && o in strt[b] ==> IsCurrent(mark, cw, o)
  }

  /** The first `n` objects of the root list, and the open upvalues of the threads among
      them, have been swept. */
  ghost predicate SweptRoots(objs: Heap, mark: Marks, cw: bool, rootgc: seq<Id>, n: nat) {
    && (forall i :: 0 <= i < n && i < |rootgc| ==> IsCurrent(mark, cw, rootgc[i]))
    && (forall i, u :: 0 <= i < n && i < |rootgc| && OpenOn(objs, u, rootgc[i]) ==> IsCurrent(mark, cw, u))
  }

  // ----- invariants of the mark phase -----

  /** The gray lists hold gray containers, each in at most one place. */
  ghost predicate GrayLists(objs: Heap, mark: Marks, gray: seq<Id>, grayagain: seq<Id>, weak: seq<Id>) {
    && NoDup(gray) && NoDup(grayagain) && NoDup(weak)
    && Disjoint(gray, grayagain) && Disjoint(gray, weak) && Disjoint(grayagain, weak)
    && (forall o :: o in gray || o in grayagain || o in weak ==> o in objs && IsGray(mark, o) && IsContainer(objs[o]))
    && (forall o :: o in weak ==> objs[o].Table?)
  }

  /** A gray object is a string, an open upvalue, listed, or excepted. */
  ghost predicate GrayTracked(objs: Heap, mark: Marks, gray: seq<Id>, grayagain: seq<Id>, weak: seq<Id>, x: set<Id>) {
    forall o :: o in objs && IsGray(mark, o) ==>
      objs[o].Str? || IsOpen(objs[o]) || o in gray || o in grayagain || o in weak || o in x
  }

  /** A marked object outside the gray list and the exceptions has marked all it holds strongly. */
  ghost predicate TriColor(objs: Heap, mark: Marks, modeName: Id, gray: seq<Id>, x: set<Id>) {
    forall a, b :: StrongEdge(objs, modeName, a, b) && NonWhite(mark, a) && a !in gray && a !in x ==> NonWhite(mark, b)
  }

  /** No black object points to a white one, exceptions aside. */
  ghost predicate NoBlackToWhite(objs: Heap, mark: Marks, x: set<Id>) {
    forall a, b :: Edge(objs, a, b) && IsBlack(mark, a) && a !in x ==> NonWhite(mark, b)
  }

  ghost predicate NoneDead(mark: Marks, cw: bool) {
    forall o :: o in mark ==> mark[o].color != White(!cw)
  }

  ghost predicate HeapClosed(objs: Heap) {
    forall a, b :: Edge(objs, a, b) ==> b in objs
  }

  /** Everything marked lies in `s`. */
  ghost predicate MarkedWithin(mark: Marks, s: iset<Id>) {
    forall o :: NonWhite(mark, o) ==> o in s
  }

  /** What may be marked because `a` is: what it refers to strongly, and any string it refers to. */
  ghost predicate MayMark(objs: Heap, modeName: Id, a: Id, b: Id) {
    StrongEdge(objs, modeName, a, b) || (Edge(objs, a, b) && b in objs && objs[b].Str?)
  }

  ghost predicate ClosedSet(objs: Heap, modeName: Id, s: iset<Id>) {
    forall a, b :: a in s && MayMark(objs, modeName, a, b) ==> b in s
  }

  lemma MarkWithin(objs: Heap, modeName: Id, s: iset<Id>, a: Id)
    requires ClosedSet(objs, modeName, s) && a in s
    ensures forall b :: StrongEdge(objs, modeName, a, b) ==> b in s
  {
    forall b | StrongEdge(objs, modeName, a, b) ensures b in s { assert MayMark(objs, modeName, a, b); }
  }

  /** The mark-phase invariant, with `x` the objects still owed a traversal elsewhere. */
  ghost predicate MarkOk(objs: Heap, mark: Marks, cw: bool, modeName: Id,
                         gray: seq<Id>, grayagain: seq<Id>, weak: seq<Id>, x: set<Id>) {
    && mark.Keys == objs.Keys
    && HeapClosed(objs)
    && NoneDead(mark, cw)
    && NeverBlack(objs, mark)
    && GrayLists(objs, mark, gray, grayagain, weak)
    && GrayTracked(objs, mark, gray, grayagain, weak, x)
    && TriColor(objs, mark, modeName, gray, x)
    && NoBlackToWhite(objs, mark, x)
  }

  /** Taking a white object out of white is sound while it is excepted. */
  lemma MarkExcepted(objs: Heap, mark: Marks, cw: bool, modeName: Id,
                     gray: seq<Id>, grayagain: seq<Id>, weak: seq<Id>, x: set<Id>, o: Id, c: Color)
    requires MarkOk(objs, mark, cw, modeName, gray, grayagain, weak, x)
    requires IsWhite(mark, o) && !c.White?
    requires c.Black? ==> !objs[o].Thread? && !IsOpen(objs[o]) && !objs[o].Str?
    ensures MarkOk(objs, Paint(mark, o, c), cw, modeName, gray, grayagain, weak, x + {o})
    ensures Marked(mark, Paint(mark, o, c)) && White2(Paint(mark, o, c)) < White2(mark)
  {
    hide Edge, StrongEdge, NoDup;
    assert o in White2(mark) && o !in White2(Paint(mark, o, c));
  }

  /** An excepted object whose references are all marked needs the exception no longer. */
  lemma Settle(objs: Heap, mark: Marks, cw: bool, modeName: Id,
               gray: seq<Id>, grayagain: seq<Id>, weak: seq<Id>, x: set<Id>, o: Id, c: Color)
    requires MarkOk(objs, mark, cw, modeName, gray, grayagain, weak, x + {o})
    requires NonWhite(mark, o) && o !in gray && o !in grayagain && o !in weak
    requires forall b :: Edge(objs, o, b) ==> NonWhite(mark, b)
    requires if objs[o].Thread? || IsOpen(objs[o]) || objs[o].Str? then c.Gray? && mark[o].color == c && !objs[o].Thread?
             else c.Black?
    ensures MarkOk(objs, Paint(mark, o, c), cw, modeName, gray, grayagain, weak, x)
    ensures White2(Paint(mark, o, c)) == White2(mark)
  {
    hide Edge, StrongEdge, NoDup;
    MarkEdges(objs, modeName, o);
  }

  /** A white container is marked by putting it on the gray list. */
  lemma PushGray(objs: Heap, mark: Marks, cw: bool, modeName: Id,
                 gray: seq<Id>, grayagain: seq<Id>, weak: seq<Id>, x: set<Id>, o: Id)
    requires MarkOk(objs, mark, cw, modeName, gray, grayagain, weak, x)
    requires IsWhite(mark, o) && IsContainer(objs[o])
    ensures MarkOk(objs, Paint(mark, o, Gray), cw, modeName, [o] + gray, grayagain, weak, x)
    ensures Marked(mark, Paint(mark, o, Gray))
  {
    hide Edge, StrongEdge;
  }

  /** What marking may change: white objects are marked and may join the gray list. */
  ghost predicate Gained(mark: Marks, gray: seq<Id>, mark': Marks, gray': seq<Id>) {
    && Marked(mark, mark')
    && (forall o :: o in gray ==> o in gray')
    && (forall o :: o in gray' && o !in gray ==> IsWhite(mark, o))
  }

  lemma GainedTransitive(m0: Marks, g0: seq<Id>, m1: Marks, g1: seq<Id>, m2: Marks, g2: seq<Id>)
    requires Gained(m0, g0, m1, g1) && Gained(m1, g1, m2, g2)
    ensures Gained(m0, g0, m2, g2)
  {
  }

  lemma GainedWhite(m0: Marks, g0: seq<Id>, m1: Marks, g1: seq<Id>)
    requires Gained(m0, g0, m1, g1)
    ensures White2(m1) <= White2(m0)
  {
    forall o | o in White2(m1) ensures o in White2(m0) { assert o in m0 && m1[o] == m0[o]; }
  }

  lemma TableMarked(objs: Heap, mark: Marks, modeName: Id, h: Id)
    requires h in objs && objs[h].Table?
    requires objs[h].meta.Some? ==> NonWhite(mark, objs[h].meta.value)
    requires !WeakKey(objs, modeName, h) ==> forall k :: k in objs[h].entries && k.Ref? ==> NonWhite(mark, k.id)
    requires !WeakValue(objs, modeName, h) ==>
               forall k :: k in objs[h].entries && objs[h].entries[k].Ref? ==> NonWhite(mark, objs[h].entries[k].id)
    ensures forall b :: StrongEdge(objs, modeName, h, b) ==> NonWhite(mark, b)
  {
  }

  /** The head of the gray list is taken off and painted black while it is traversed. */
  lemma PopBlack(objs: Heap, mark: Marks, cw: bool, modeName: Id,
                 gray: seq<Id>, grayagain: seq<Id>, weak: seq<Id>, x: set<Id>)
    requires MarkOk(objs, mark, cw, modeName, gray, grayagain, weak, x)
    requires gray != [] && gray[0] in objs && !objs[gray[0]].Thread?
    ensures MarkOk(objs, Paint(mark, gray[0], Black), cw, modeName, gray[1..], grayagain, weak, x + {gray[0]})
  {
    hide Edge, StrongEdge;
    assert forall o :: o in gray <==> o == gray[0] || o in gray[1..];
  }

  /** A thread goes from the gray list to `grayagain` and stays gray. */
  lemma PopThread(objs: Heap, mark: Marks, cw: bool, modeName: Id,
                  gray: seq<Id>, grayagain: seq<Id>, weak: seq<Id>, x: set<Id>)
    requires MarkOk(objs, mark, cw, modeName, gray, grayagain, weak, x)
    requires gray != []
    ensures MarkOk(objs, mark, cw, modeName, gray[1..], [gray[0]] + grayagain, weak, x + {gray[0]})
  {
    hide Edge, StrongEdge;
    var g, a := gray[1..], [gray[0]] + grayagain;
    assert forall o :: o in gray <==> o == gray[0] || o in g;
    assert forall o :: o in a <==> o == gray[0] || o in grayagain;
    assert gray[0] in gray;
  }

  /** A traversed weak table is kept gray on the weak list. */
  lemma KeepWeak(objs: Heap, mark: Marks, cw: bool, modeName: Id,
                 gray: seq<Id>, grayagain: seq<Id>, weak: seq<Id>, x: set<Id>, o: Id)
    requires MarkOk(objs, mark, cw, modeName, gray, grayagain, weak, x + {o})
    requires IsBlack(mark, o) && objs[o].Table?
    requires forall b :: StrongEdge(objs, modeName, o, b) ==> NonWhite(mark, b)
    ensures MarkOk(objs, Paint(mark, o, Gray), cw, modeName, gray, grayagain, [o] + weak, x)
  {
    hide Edge, StrongEdge;
  }

  /** A listed object whose strong references are marked needs no exception. */
  lemma DropException(objs: Heap, mark: Marks, cw: bool, modeName: Id,
                      gray: seq<Id>, grayagain: seq<Id>, weak: seq<Id>, x: set<Id>, o: Id)
    requires MarkOk(objs, mark, cw, modeName, gray, grayagain, weak, x + {o})
    requires o in objs
    requires NonWhite(mark, o) ==> IsGray(mark, o) && (o in grayagain || o in weak || IsOpen(objs[o]))
    requires NonWhite(mark, o) ==> forall b :: StrongEdge(objs, modeName, o, b) ==> NonWhite(mark, b)
    ensures MarkOk(objs, mark, cw, modeName, gray, grayagain, weak, x)
  {
    hide Edge, StrongEdge, NoDup;
  }

  lemma WidenException(objs: Heap, mark: Marks, cw: bool, modeName: Id,
                       gray: seq<Id>, grayagain: seq<Id>, weak: seq<Id>, x: set<Id>, x': set<Id>)
    requires MarkOk(objs, mark, cw, modeName, gray, grayagain, weak, x) && x <= x'
    ensures MarkOk(objs, mark, cw, modeName, gray, grayagain, weak, x')
  {
    hide Edge, StrongEdge, NoDup;
  }

  /** Marking that leaves the whites alone leaves the length of the gray list alone. */
  lemma GainedSize(mark: Marks, gray: seq<Id>, mark': Marks, gray': seq<Id>)
    requires Gained(mark, gray, mark', gray') && NoDup(gray) && NoDup(gray')
    requires forall o :: o in gray' ==> IsGray(mark', o)
    requires White2(mark) == White2(mark')
    ensures |gray| == |gray'|
  {
    forall o | o in gray' ensures o in gray {
      assert o in White2(mark) <==> o in White2(mark');
    }
    SameSize(gray, gray');
  }

  lemma StartMarking(objs: Heap, mark: Marks, cw: bool, modeName: Id)
    requires mark.Keys == objs.Keys && AllWhite(mark, cw) && LiveClosed(objs, mark, cw)
    ensures MarkOk(objs, mark, cw, modeName, [], [], [], {})
  {
    hide Edge, StrongEdge;
  }

  /** Once the gray list is empty a list of deferred objects becomes the new gray list. */
  lemma Refill(objs: Heap, mark: Marks, cw: bool, modeName: Id,
               grayagain: seq<Id>, weak: seq<Id>, x: set<Id>, fromWeak: bool)
    requires MarkOk(objs, mark, cw, modeName, [], grayagain, weak, x)
    ensures fromWeak ==> MarkOk(objs, mark, cw, modeName, weak, grayagain, [], x - Elems(weak))
    ensures !fromWeak ==> MarkOk(objs, mark, cw, modeName, grayagain, [], weak, x - Elems(grayagain))
  {
    hide Edge, StrongEdge, NoDup;
    assert NoDup([]) by { NoDupNil(); }
  }

  lemma NoDupNil()
    ensures NoDup([])
  {
  }

  lemma PropagatedTransitive(objs: Heap, modeName: Id, m0: Marks, a0: seq<Id>, w0: seq<Id>, m1: Marks, a1: seq<Id>, w1: seq<Id>,
                             m2: Marks, a2: seq<Id>, w2: seq<Id>)
    requires Propagated(objs, modeName, m0, a0, w0, m1, a1, w1) && Propagated(objs, modeName, m1, a1, w1, m2, a2, w2)
    ensures Propagated(objs, modeName, m0, a0, w0, m2, a2, w2)
  {
  }

  // ----- clearing weak tables -----

  /** Entries of table `h` may have been removed; nothing else changed. */
  ghost predicate EntriesRemoved(objs: Heap, objs': Heap, hs: set<Id>) {
    && objs'.Keys == objs.Keys
    && (forall o :: o in objs && o !in hs ==> objs'[o] == objs[o])
    && (forall o :: o in objs && o in hs ==>
          objs[o].Table? && objs'[o].Table? && objs'[o].meta == objs[o].meta
          && forall k :: k in objs'[o].entries ==> k in objs[o].entries && objs'[o].entries[k] == objs[o].entries[k])
  }

  /** Only white strings have been marked. */
  ghost predicate StringsMarked(objs: Heap, mark: Marks, mark': Marks) {
    && Marked(mark, mark')
    && (forall o :: o in mark && mark'[o] != mark[o] ==> o in objs && objs[o].Str? && mark'[o].color.Gray?)
  }

  ghost predicate EntriesMarked(mark: Marks, es: map<Value, Value>) {
    forall k :: k in es ==> (k.Ref? ==> NonWhite(mark, k.id)) && (es[k].Ref? ==> NonWhite(mark, es[k].id))
  }

  /** `iscleared`: an object other than a string that has not been marked. */
  predicate Clearable(objs: Heap, mark: Marks, v: Value) {
    v.Ref? && v.id in objs && !objs[v.id].Str? && IsWhite(mark, v.id)
  }

  predicate RefWithin(objs: Heap, s: iset<Id>, v: Value) {
    v.Ref? ==> v.id in objs && (objs[v.id].Str? ==> v.id in s)
  }

  /** `kept` are the entries of which neither the key nor the value must go. */
  ghost predicate Survivors(objs: Heap, mark: Marks, es: map<Value, Value>, kept: map<Value, Value>) {
    && (forall k :: k in kept ==> k in es && kept[k] == es[k])
    && (forall k :: k in es ==> (k in kept <==> !(Clearable(objs, mark, k) || Clearable(objs, mark, es[k]))))
  }

  predicate SameAt(objs: Heap, objs': Heap, h: Id) {
    h in objs && h in objs' && objs'[h] == objs[h]
  }

  /** Weak table `h` has been cleared: what is left is marked, and no more is gone than must. */
  ghost predicate ClearedTable(objs: Heap, objs': Heap, mark: Marks, h: Id) {
    && h in objs && objs[h].Table? && h in objs' && objs'[h].Table?
    && EntriesMarked(mark, objs'[h].entries) && Survivors(objs, mark, objs[h].entries, objs'[h].entries)
  }

  lemma TableCleared(objs: Heap, objs1: Heap, objs2: Heap, mark: Marks, hs: set<Id>, h: Id, kept: map<Value, Value>)
    requires EntriesRemoved(objs, objs1, hs) && h in objs1 && objs1[h].Table? && objs1[h] == objs[h]
    requires objs2 == objs1[h := objs1[h].(entries := kept)]
    requires EntriesMarked(mark, kept) && Survivors(objs1, mark, objs1[h].entries, kept)
    ensures ClearedTable(objs, objs2, mark, h)
  {
    hide EntriesMarked;
    forall v ensures Clearable(objs1, mark, v) == Clearable(objs, mark, v) {}
  }

  lemma StaysCleared(objs: Heap, objs1: Heap, mark1: Marks, objs2: Heap, mark2: Marks, hs: set<Id>, h: Id)
    requires EntriesRemoved(objs, objs1, hs) && ClearedTable(objs, objs1, mark1, h) && mark1.Keys == objs1.Keys
    requires StringsMarked(objs1, mark1, mark2) && h in objs1 && h in objs2 && objs2[h] == objs1[h]
    ensures ClearedTable(objs, objs2, mark2, h)
  {
    hide EntriesMarked;
    EntriesStayMarked(mark1, mark2, objs1[h].entries);
    ClearableStays(objs1, mark1, mark2);
    forall v ensures Clearable(objs, mark2, v) == Clearable(objs, mark1, v) {
      assert Clearable(objs1, mark2, v) == Clearable(objs1, mark1, v);
    }
  }

  lemma ClearableStays(objs: Heap, mark: Marks, mark': Marks)
    requires StringsMarked(objs, mark, mark') && mark.Keys == objs.Keys
    ensures forall v :: Clearable(objs, mark', v) == Clearable(objs, mark, v)
  {
  }

  lemma StringsMarkedNone(objs: Heap, mark: Marks)
    ensures StringsMarked(objs, mark, mark)
  {
  }

  lemma StringsMarkedTransitive(objs: Heap, objs': Heap, m0: Marks, m1: Marks, m2: Marks)
    requires StringsMarked(objs, m0, m1) && StringsMarked(objs', m1, m2)
    requires forall o :: o in objs' && objs'[o].Str? ==> o in objs && objs[o].Str?
    ensures StringsMarked(objs, m0, m2)
  {
  }

  lemma EntriesStayMarked(mark: Marks, mark': Marks, es: map<Value, Value>)
    requires Marked(mark, mark') && EntriesMarked(mark, es)
    ensures EntriesMarked(mark', es)
  {
  }

  lemma RemovedMore(objs: Heap, objs': Heap, hs: set<Id>, h: Id, kept: map<Value, Value>)
    requires EntriesRemoved(objs, objs', hs) && h in hs && h in objs'
    requires objs'[h].Table? && forall k :: k in kept ==> k in objs'[h].entries && kept[k] == objs'[h].entries[k]
    ensures EntriesRemoved(objs, objs'[h := objs'[h].(entries := kept)], hs)
  {
  }

  lemma StringsAreMarked(objs: Heap, mark: Marks, mark': Marks)
    requires StringsMarked(objs, mark, mark')
    ensures Marked(mark, mark') && mark'.Keys == mark.Keys
  {
  }

  /** The entries of a table lead to allocated objects, and to no string outside a closed set. */
  lemma EntriesWithin(objs: Heap, objs': Heap, hs: set<Id>, modeName: Id, h: Id, s: iset<Id>)
    requires HeapClosed(objs) && ClosedSet(objs, modeName, s) && h in s && EntriesRemoved(objs, objs', hs)
    requires SameAt(objs, objs', h) && objs[h].Table?
    ensures forall k :: k in objs'[h].entries ==> RefWithin(objs', s, k) && RefWithin(objs', s, objs'[h].entries[k])
  {
    hide Edge, StrongEdge;
    TableEdges(objs, modeName, h);
    forall b | Edge(objs, h, b) && b in objs && objs[b].Str? ensures b in s { assert MayMark(objs, modeName, h, b); }
    SameStringsIn(objs, objs', hs);
  }

  lemma SameStringsIn(objs: Heap, objs': Heap, hs: set<Id>)
    requires EntriesRemoved(objs, objs', hs)
    ensures objs'.Keys == objs.Keys && forall o :: o in objs' && objs'[o].Str? ==> objs[o].Str?
  {
  }

  lemma SurvivorsLess(objs: Heap, mark: Marks, es: map<Value, Value>, kept: map<Value, Value>)
    requires Survivors(objs, mark, es, kept)
    ensures forall k :: k in kept ==> k in es && kept[k] == es[k]
  {
  }

  lemma NothingCleared(objs: Heap, mark: Marks, hs: set<Id>)
    requires forall h :: h in hs ==> h in objs && objs[h].Table?
    ensures EntriesRemoved(objs, objs, hs) && StringsMarked(objs, mark, mark)
  {
  }

  /** Clearing tables changes no string. */
  lemma SameStrings(objs: Heap, objs': Heap, mark: Marks, mark': Marks, hs: set<Id>)
    requires mark.Keys == objs.Keys && EntriesRemoved(objs, objs', hs) && StringsMarked(objs, mark, mark')
    ensures mark'.Keys == objs'.Keys == objs.Keys
    ensures forall o :: o in objs' && objs'[o].Str? ==> o in objs && objs[o].Str?
  {
  }

  lemma RemovedEdges(objs: Heap, objs': Heap, hs: set<Id>, a: Id, b: Id)
    requires EntriesRemoved(objs, objs', hs) && Edge(objs', a, b)
    ensures Edge(objs, a, b)
  {
    if objs'[a].Upval? {
      assert BoxValue(objs', objs'[a].box) == BoxValue(objs, objs[a].box);
    }
  }

  /** After clearing, everything a marked object refers to is marked. */
  lemma ClearedEdges(objs: Heap, mark: Marks, cw: bool, modeName: Id, grayagain: seq<Id>, weak: seq<Id>,
                     objs': Heap, mark': Marks)
    requires MarkOk(objs, mark, cw, modeName, [], grayagain, weak, {})
    requires forall o :: o in grayagain ==> objs[o].Thread?
    requires EntriesRemoved(objs, objs', Elems(weak)) && StringsMarked(objs, mark, mark')
    requires forall o :: o in weak ==> EntriesMarked(mark', objs'[o].entries)
    ensures forall a, b :: Edge(objs', a, b) && NonWhite(mark', a) ==> NonWhite(mark', b)
  {
    forall a, b | Edge(objs', a, b) && NonWhite(mark', a) ensures NonWhite(mark', b) {
      ClearedEdge(objs, mark, cw, modeName, grayagain, weak, objs', mark', a, b);
    }
  }

  lemma ClearedEdge(objs: Heap, mark: Marks, cw: bool, modeName: Id, grayagain: seq<Id>, weak: seq<Id>,
                    objs': Heap, mark': Marks, a: Id, b: Id)
    requires MarkOk(objs, mark, cw, modeName, [], grayagain, weak, {})
    requires forall o :: o in grayagain ==> objs[o].Thread?
    requires EntriesRemoved(objs, objs', Elems(weak)) && StringsMarked(objs, mark, mark')
    requires forall o :: o in weak ==> EntriesMarked(mark', objs'[o].entries)
    requires Edge(objs', a, b) && NonWhite(mark', a)
    ensures NonWhite(mark', b)
  {
    hide Edge, NoBlackToWhite, GrayTracked, StrongEdge, NoDup, HasFlag, Mode;
    RemovedEdges(objs, objs', Elems(weak), a, b);
    if objs[a].Str? {
      MarkEdges(objs, modeName, a);
    } else if a in weak {
      WeakEdge(objs, mark, modeName, objs', mark', a, b);
    } else {
      assert NonWhite(mark, a);
      MarkedEdge(objs, mark, cw, modeName, grayagain, weak, a, b);
    }
  }

  lemma WeakEdge(objs: Heap, mark: Marks, modeName: Id, objs': Heap, mark': Marks, a: Id, b: Id)
    requires Edge(objs', a, b) && objs'[a].Table? && EntriesMarked(mark', objs'[a].entries) && Marked(mark, mark')
    requires a in objs && objs[a].Table? && objs[a].meta == objs'[a].meta
    requires forall b :: StrongEdge(objs, modeName, a, b) ==> NonWhite(mark, b)
    ensures NonWhite(mark', b)
  {
    if objs'[a].meta == Some(b) {
      assert StrongEdge(objs, modeName, a, b);
    }
  }

  lemma MarkedEdge(objs: Heap, mark: Marks, cw: bool, modeName: Id, grayagain: seq<Id>, weak: seq<Id>, a: Id, b: Id)
    requires MarkOk(objs, mark, cw, modeName, [], grayagain, weak, {})
    requires forall o :: o in grayagain ==> objs[o].Thread?
    requires Edge(objs, a, b) && NonWhite(mark, a) && !objs[a].Str? && a !in weak
    ensures NonWhite(mark, b)
  {
    hide Edge, StrongEdge, NoDup, HasFlag, Mode;
    if IsGray(mark, a) { OtherEdges(objs, modeName, a); }
  }

  /** Marking makes nothing dead. */
  lemma MarkedLive(objs: Heap, mark: Marks, mark': Marks, cw: bool, roots: set<Id>)
    requires mark.Keys == objs.Keys && Marked(mark, mark')
    requires LiveClosed(objs, mark, cw) && RootsLive(objs, mark, cw, roots) && NoneDead(mark, cw)
    ensures forall main :: FixedOk(objs, mark, main) ==> FixedOk(objs, mark', main)
    ensures LiveClosed(objs, mark', cw) && RootsLive(objs, mark', cw, roots) && NoneDead(mark', cw)
  {
    hide Edge;
  }

  lemma RemovedShape(objs: Heap, objs': Heap, hs: set<Id>, rootgc: seq<Id>, strt: seq<seq<Id>>, uvhead: seq<Id>)
    requires EntriesRemoved(objs, objs', hs)
    requires RootList(objs, rootgc) && StringTable(objs, strt) && OpenLists(objs) && OpenRing(objs, uvhead)
    ensures RootList(objs', rootgc) && StringTable(objs', strt) && OpenLists(objs') && OpenRing(objs', uvhead)
    ensures |strt| > 0
  {
    hide Hash, NoDup;
    assert forall o :: o in objs && !objs[o].Table? ==> objs'[o] == objs[o];
  }

  /** When the marked objects are closed under references, flipping the white makes exactly
      the unmarked ones dead. */
  lemma FlipLive(objs: Heap, mark: Marks, cw: bool, roots: set<Id>)
    requires mark.Keys == objs.Keys && NoneDead(mark, cw)
    requires forall a, b :: Edge(objs, a, b) && NonWhite(mark, a) ==> NonWhite(mark, b)
    requires forall r :: r in roots ==> NonWhite(mark, r)
    ensures LiveClosed(objs, mark, !cw) && RootsLive(objs, mark, !cw, roots)
    ensures forall o :: o in objs ==> (IsDead(mark, !cw, o) <==> IsWhite(mark, o))
  {
    forall a, b | Edge(objs, a, b) && !IsDead(mark, !cw, a) ensures b in objs && !IsDead(mark, !cw, b) {
      assert a in objs && NonWhite(mark, a);
    }
  }

  /** Clearing the weak tables and flipping the white after a finished marking. */
  lemma FinishAtomic(objs: Heap, mark: Marks, cw: bool, modeName: Id, grayagain: seq<Id>, weak: seq<Id>,
                     objs': Heap, mark': Marks, roots: set<Id>, nextId: Id)
    requires MarkOk(objs, mark, cw, modeName, [], grayagain, weak, {}) && Domain(objs, mark, nextId)
    requires forall o :: o in grayagain ==> o in objs && objs[o].Thread?
    requires EntriesRemoved(objs, objs', Elems(weak)) && StringsMarked(objs, mark, mark')
    requires forall o :: o in weak ==> EntriesMarked(mark', objs'[o].entries)
    requires forall r :: r in roots ==> NonWhite(mark, r)
    ensures Domain(objs', mark', nextId) && NeverBlack(objs', mark')
    ensures LiveClosed(objs', mark', !cw) && RootsLive(objs', mark', !cw, roots)
    ensures Marked'(mark, mark')
    ensures forall main :: FixedOk(objs, mark, main) ==> FixedOk(objs', mark', main)
    ensures weak == [] ==> objs' == objs
    ensures objs'.Keys == objs.Keys && forall o :: o in objs ==> objs'[o].Thread? == objs[o].Thread?
  {
    hide Edge, StrongEdge, TriColor, NoBlackToWhite, GrayTracked, NoDup;
    ClearedEdges(objs, mark, cw, modeName, grayagain, weak, objs', mark');
    FlipLive(objs', mark', cw, roots);
    if weak == [] {
      forall o | o in objs ensures objs'[o] == objs[o] { assert o !in Elems(weak); }
      assert objs' == objs;
    }
  }

  /** Shape, liveness and marks survive the atomic step's marking. */
  lemma NotDeadIsMarked(mark: Marks, cw: bool, s: iset<Id>)
    requires NoneDead(mark, cw) && MarkedWithin(mark, s)
    ensures forall o :: o in mark && !IsDead(mark, !cw, o) ==> o in s
  {
    forall o | o in mark && !IsDead(mark, !cw, o) ensures o in s { assert NonWhite(mark, o); }
  }

  /** What the atomic step needs of the heap before it starts. */
  lemma StartAtomic(objs: Heap, mark: Marks, cw: bool, uvhead: seq<Id>, roots: set<Id>, strt: seq<seq<Id>>)
    requires OpenRing(objs, uvhead) && RootsLive(objs, mark, cw, roots) && StringTable(objs, strt)
    ensures forall u :: u in uvhead ==> u in objs && IsOpen(objs[u])
    ensures forall r :: r in roots ==> r in objs
    ensures |strt| > 0
  {
    hide Bucket, NoDup;
  }

  lemma RootsMarked(mark: Marks, mark': Marks, roots: set<Id>, main: Id, registry: Id, running: Id, mt: seq<Option<Id>>)
    requires roots == {main, registry, running} + set m | m in mt && m.Some? :: m.value
    requires Marked'(mark, mark') && NonWhite(mark, main) && NonWhite(mark, registry)
    requires NonWhite(mark', running) && forall m :: m in mt && m.Some? ==> NonWhite(mark', m.value)
    ensures forall r :: r in roots ==> NonWhite(mark', r)
  {
  }

  lemma WeakTables(objs: Heap, mark: Marks, cw: bool, modeName: Id, gray: seq<Id>, grayagain: seq<Id>, weak: seq<Id>, x: set<Id>,
                  s: iset<Id>)
    requires MarkOk(objs, mark, cw, modeName, gray, grayagain, weak, x) && MarkedWithin(mark, s)
    ensures mark.Keys == objs.Keys && HeapClosed(objs) && NoDup(weak)
    ensures forall h :: h in weak ==> h in objs && objs[h].Table? && h in s
  {
    hide Edge, StrongEdge, NoDup;
  }

  lemma MarkedDomain(objs: Heap, mark: Marks, mark': Marks, nextId: Id)
    requires Domain(objs, mark, nextId) && Marked'(mark, mark')
    ensures Domain(objs, mark', nextId)
    ensures forall main :: FixedOk(objs, mark, main) ==> FixedOk(objs, mark', main)
  {
  }

  lemma MarkedTwice(m0: Marks, m1: Marks, m2: Marks)
    requires Marked'(m0, m1) && Marked'(m1, m2)
    ensures Marked'(m0, m2)
  {
  }

  lemma AnySet(objs: Heap, modeName: Id, mark: Marks)
    ensures ClosedSet(objs, modeName, AllIds()) && MarkedWithin(mark, AllIds())
  {
    forall o: Id ensures o in AllIds() { assert AnyId(o); }
  }

  lemma MarkOkNoneDead(objs: Heap, mark: Marks, cw: bool, modeName: Id, gray: seq<Id>, grayagain: seq<Id>, weak: seq<Id>, x: set<Id>)
    requires MarkOk(objs, mark, cw, modeName, gray, grayagain, weak, x)
    ensures NoneDead(mark, cw) && mark.Keys == objs.Keys && HeapClosed(objs) && NeverBlack(objs, mark)
  {
    hide Edge, StrongEdge;
  }

  /** No restriction on what may be marked. */
  ghost function AllIds(): iset<Id> {
    iset o: Id | AnyId(o)
  }

  ghost predicate AnyId(o: Id) {
    true
  }

  lemma NotListed(objs: Heap, mark: Marks, cw: bool, modeName: Id, gray: seq<Id>, grayagain: seq<Id>, weak: seq<Id>, x: set<Id>, o: Id)
    requires MarkOk(objs, mark, cw, modeName, gray, grayagain, weak, x) && o in mark && !IsGray(mark, o)
    ensures o !in gray && o !in grayagain && o !in weak
  {
    hide Edge, StrongEdge, NoDup;
  }

  // ----- the whole global state -----

  /** What the collector starts from. */
  function RootSet(main: Id, registry: Id, running: Id, mt: seq<Option<Id>>): set<Id> {
    {main, registry, running} + set m | m in mt && m.Some? :: m.value
  }

  /** Objects owed a traversal in the atomic step. */
  function DeferredSet(grayagain: seq<Id>, weak: seq<Id>, uvhead: seq<Id>): set<Id> {
    Elems(grayagain) + Elems(weak) + Elems(uvhead)
  }

  datatype Global = Global(
    objs: Heap, mark: Marks, cw: bool, gcstate: GcState,
    rootgc: seq<Id>, sweepgc: nat, strt: seq<seq<Id>>, sweepstrgc: nat,
    gray: seq<Id>, grayagain: seq<Id>, weak: seq<Id>, uvhead: seq<Id>,
    mt: seq<Option<Id>>, running: Id, nextId: Id,
    main: Id, registry: Id, modeName: Id)
  {
    ghost function Roots(): set<Id> {
      RootSet(main, registry, running, mt)
    }

    ghost function Deferred(): set<Id> {
      DeferredSet(grayagain, weak, uvhead)
    }

    ghost predicate MarkInv(x: set<Id>) {
      MarkOk(objs, mark, cw, modeName, gray, grayagain, weak, x)
    }

    /** The lists and the shape of the heap. */
    ghost predicate Shape() {
      && ShapeOk(objs, mark, nextId, rootgc, strt, uvhead)
      && FixedOk(objs, mark, main)
      && sweepgc <= |rootgc|
      && main in objs && objs[main].Thread?
      && running in objs && objs[running].Thread?
    }

    ghost predicate Live() {
      LiveOk(objs, mark, cw, Roots())
    }

    ghost predicate Phase() {
      match gcstate
      case Pause => AllWhite(mark, cw)
      case Finalize => AllWhite(mark, cw)
      case Propagate =>
        MarkInv(Deferred()) && NonWhite(mark, main) && NonWhite(mark, registry)
      case SweepString =>
        sweepgc == 0 && sweepstrgc < |strt| && SweptStrings(mark, cw, strt, sweepstrgc)
      case Sweep =>
        SweptStrings(mark, cw, strt, |strt|) && SweptRoots(objs, mark, cw, rootgc, sweepgc)
    }

    /** The invariant every collector step and every mutator step keeps. */
    ghost predicate Ok() {
      Shape() && Live() && Phase()
    }
  }

  // ----- marking, on the whole state -----

  ghost predicate Marking(g: Global, x: set<Id>, s: iset<Id>) {
    g.MarkInv(x) && ClosedSet(g.objs, g.modeName, s) && MarkedWithin(g.mark, s)
  }

  /** Marking moves white objects out of white, in `mark` and `gray` only. */
  ghost predicate Gains(g: Global, g': Global) {
    g' == g.(mark := g'.mark, gray := g'.gray) && Gained(g.mark, g.gray, g'.mark, g'.gray)
  }

  lemma GainsTransitive(g0: Global, g1: Global, g2: Global)
    requires Gains(g0, g1) && Gains(g1, g2)
    ensures Gains(g0, g2)
  {
    GainedTransitive(g0.mark, g0.gray, g1.mark, g1.gray, g2.mark, g2.gray);
  }

  lemma GainsWhite(g: Global, g': Global)
    requires Gains(g, g')
    ensures White2(g'.mark) <= White2(g.mark)
    ensures forall o :: NonWhite(g.mark, o) ==> NonWhite(g'.mark, o)
  {
    GainedWhite(g.mark, g.gray, g'.mark, g'.gray);
  }

  lemma PaintGains(g: Global, o: Id, c: Color)
    requires IsWhite(g.mark, o) && !c.White?
    ensures Gains(g, g.(mark := Paint(g.mark, o, c))) && NonWhite(Paint(g.mark, o, c), o)
  {
  }

  /** The color of an object that was white at the start may be set again. */
  lemma RepaintGains(g: Global, g': Global, o: Id, c: Color)
    requires Gains(g, g') && IsWhite(g.mark, o) && NonWhite(g'.mark, o) && !c.White?
    ensures Gains(g, g'.(mark := Paint(g'.mark, o, c))) && NonWhite(Paint(g'.mark, o, c), o)
  {
  }

  lemma GainsKeeps(g: Global, g': Global, o: Id)
    requires Gains(g, g') && NonWhite(g.mark, o)
    ensures NonWhite(g'.mark, o) && g'.mark[o] == g.mark[o] && Paint(g'.mark, o, g.mark[o].color) == g'.mark
    ensures o in g'.gray ==> o in g.gray
  {
  }

  /** A gray object taken off the gray list has been traversed. */
  lemma TraversedPropagates(g0: Global, g1: Global, g2: Global)
    requires g0.gray != [] && IsGray(g0.mark, g0.gray[0]) && Gains(g1, g2)
    requires g1 == g0.(mark := Paint(g0.mark, g0.gray[0], Black), gray := g0.gray[1..])
    ensures Propagates(g0, g2)
  {
  }

  /** A weak table turns gray again. */
  lemma WeakPropagates(g0: Global, g2: Global, o: Id)
    requires Propagates(g0, g2) && NonWhite(g2.mark, o) && IsWeak(g0.objs, g0.modeName, o) && o in g0.objs && g0.objs[o].Table?
    ensures Propagates(g0, g2.(mark := Paint(g2.mark, o, Gray), weak := [o] + g2.weak))
    ensures White2(Paint(g2.mark, o, Gray)) == White2(g2.mark)
  {
  }

  /** Propagation changes the marks and the gray lists only. */
  ghost predicate Propagates(g: Global, g': Global) {
    && g' == g.(mark := g'.mark, gray := g'.gray, grayagain := g'.grayagain, weak := g'.weak)
    && Propagated(g.objs, g.modeName, g.mark, g.grayagain, g.weak, g'.mark, g'.grayagain, g'.weak)
  }

  lemma PropagatesTransitive(g0: Global, g1: Global, g2: Global)
    requires Propagates(g0, g1) && Propagates(g1, g2)
    ensures Propagates(g0, g2)
  {
    PropagatedTransitive(g0.objs, g0.modeName, g0.mark, g0.grayagain, g0.weak, g1.mark, g1.grayagain, g1.weak,
                         g2.mark, g2.grayagain, g2.weak);
  }

  lemma GainsPropagates(g: Global, g': Global)
    requires Gains(g, g')
    ensures Propagates(g, g')
  {
  }

  /** Marking what one object holds, the object already off the gray list. */
  lemma GainsProgress(g: Global, g': Global)
    requires Gains(g, g') && NoDup(g.gray) && NoDup(g'.gray)
    requires forall o :: o in g'.gray ==> IsGray(g'.mark, o)
    ensures White2(g'.mark) <= White2(g.mark)
    ensures White2(g'.mark) == White2(g.mark) ==> |g'.gray| == |g.gray|
  {
    GainsWhite(g, g');
    if White2(g'.mark) == White2(g.mark) {
      GainedSize(g.mark, g.gray, g'.mark, g'.gray);
    }
  }

  // ----- starting a cycle -----

  lemma StartCycle(g: Global)
    requires g.Ok() && (g.gcstate == Pause || g.gcstate == Finalize)
    ensures g.(gray := [], grayagain := [], weak := []).MarkInv({})
    ensures HeapClosed(g.objs) && g.main in g.objs && g.objs[g.main].Thread?
    ensures forall r :: r in g.Roots() ==> r in g.objs
    ensures forall s :: MarkedWithin(g.mark, s)
  {
    hide Edge, OpenLists, RootList, StringTable, OpenRing, NoDup;
    StartMarking(g.objs, g.mark, g.cw, g.modeName);
  }

  lemma CycleStarted(g: Global, g': Global)
    requires g.Ok() && (g.gcstate == Pause || g.gcstate == Finalize)
    requires Gains(g.(gray := [], grayagain := [], weak := []), g')
    requires g'.MarkInv({}) && NonWhite(g'.mark, g.main) && NonWhite(g'.mark, g.registry)
    ensures g'.(gcstate := Propagate).Ok()
    ensures Marked(g.mark, g'.mark)
  {
    hide Edge, OpenLists, RootList, StringTable, OpenRing, NoDup, MarkOk;
    WidenException(g'.objs, g'.mark, g'.cw, g'.modeName, g'.gray, g'.grayagain, g'.weak, {}, g'.Deferred());
    MarkOkNoneDead(g'.objs, g'.mark, g'.cw, g'.modeName, g'.gray, g'.grayagain, g'.weak, {});
    MarkedLive(g.objs, g.mark, g'.mark, g.cw, g.Roots());
  }

  // ----- the atomic step -----

  lemma BeginAtomic(g: Global)
    requires g.Ok() && g.gcstate == Propagate
    ensures g.MarkInv(g.Deferred())
    ensures forall u :: u in g.uvhead ==> u in g.objs && IsOpen(g.objs[u])
    ensures forall r :: r in g.Roots() ==> r in g.objs
  {
    hide MarkOk;
    StartAtomic(g.objs, g.mark, g.cw, g.uvhead, g.Roots(), g.strt);
  }

  /** `g1` is the state after the atomic marking, `g2` after clearing the weak tables. */
  lemma EndAtomic(g: Global, g1: Global, g2: Global, s: iset<Id>)
    requires g.Ok() && g.gcstate == Propagate
    requires g1 == g.(mark := g1.mark, gray := [], grayagain := g1.grayagain, weak := g1.weak)
    requires Marking(g1, {}, s) && Marked'(g.mark, g1.mark)
    requires forall o :: o in g1.grayagain ==> o in g1.objs && g1.objs[o].Thread?
    requires NonWhite(g1.mark, g.running) && forall m :: m in g.mt && m.Some? ==> NonWhite(g1.mark, m.value)
    requires g2 == g1.(objs := g2.objs, mark := g2.mark)
    requires EntriesRemoved(g1.objs, g2.objs, Elems(g1.weak)) && StringsMarked(g1.objs, g1.mark, g2.mark)
    requires (forall h :: h in g1.weak ==> ClearedTable(g1.objs, g2.objs, g2.mark, h)) && MarkedWithin(g2.mark, s)
    ensures g2.(cw := !g.cw, sweepstrgc := 0, sweepgc := 0, gcstate := SweepString).Ok()
    ensures forall o :: o in g2.objs ==> o in g.mark && o in g2.mark && g2.mark[o].fixed == g.mark[o].fixed
    ensures g1.weak == [] ==> g2.objs == g.objs
    ensures forall o :: o in g2.objs && !IsDead(g2.mark, !g.cw, o) ==> o in s
    ensures forall v :: Clearable(g.objs, g2.mark, v) ==> IsDoomed(g2.mark, !g.cw, v.id)
    ensures forall o :: StronglyReachable(g.objs, g.modeName, g.Roots(), o) ==> o in g2.objs && !IsDead(g2.mark, !g.cw, o)
  {
    hide OpenLists, OpenRing, StringTable, RootList, LiveClosed, RootsLive, ClosedSet, Marked', MarkOk,
         EntriesRemoved, NeverBlack, EntriesMarked, StringsMarked, MarkedWithin, Survivors, NoneDead, FixedOk;
    RootsMarked(g.mark, g1.mark, g.Roots(), g.main, g.registry, g.running, g.mt);
    MarkedDomain(g.objs, g.mark, g1.mark, g.nextId);
    FinishAtomic(g1.objs, g1.mark, g1.cw, g.modeName, g1.grayagain, g1.weak, g2.objs, g2.mark, g.Roots(), g.nextId);
    RemovedShape(g1.objs, g2.objs, Elems(g1.weak), g.rootgc, g.strt, g.uvhead);
    MarkedTwice(g.mark, g1.mark, g2.mark);
    FixedKept(g.mark, g2.mark);
    forall o | StronglyReachable(g.objs, g.modeName, g.Roots(), o) ensures o in g2.objs && !IsDead(g2.mark, !g.cw, o) {
      StrongMarked(g1, o);
      StringsAreMarked(g1.objs, g1.mark, g2.mark);
      StaysMarked(g1.mark, g2.mark, o);
    }
    MarkOkNoneDead(g1.objs, g1.mark, g1.cw, g1.modeName, g1.gray, g1.grayagain, g1.weak, {});
    StringsAreMarked(g1.objs, g1.mark, g2.mark);
    StillNoneDead(g1.mark, g2.mark, g.cw);
    NotDeadIsMarked(g2.mark, g.cw, s);
    StaysMarked'(g.mark, g1.mark, g.main);
    StaysMarked(g1.mark, g2.mark, g.main);
    UnmarkedDoomed(g.objs, g1.objs, g2.mark, g.mark, g.cw, g.main);
  }

  lemma StillNoneDead(mark: Marks, mark': Marks, cw: bool)
    requires NoneDead(mark, cw) && Marked(mark, mark')
    ensures NoneDead(mark', cw)
  {
  }

  lemma StaysMarked'(mark: Marks, mark': Marks, o: Id)
    requires Marked'(mark, mark') && NonWhite(mark, o)
    ensures NonWhite(mark', o)
  {
  }

  /** What an entry is cleared for is freed by the sweep. */
  lemma UnmarkedDoomed(objs: Heap, objs': Heap, mark': Marks, mark: Marks, cw: bool, main: Id)
    requires FixedOk(objs, mark, main) && NoneDead(mark', cw) && NonWhite(mark', main) && mark'.Keys == mark.Keys
    requires forall o :: o in mark ==> mark'[o].fixed == mark[o].fixed
    ensures forall v :: Clearable(objs, mark', v) ==> IsDoomed(mark', !cw, v.id)
  {
  }

  lemma FixedKept(mark: Marks, mark': Marks)
    requires Marked'(mark, mark')
    ensures mark'.Keys == mark.Keys && forall o :: o in mark ==> mark'[o].fixed == mark[o].fixed
  {
  }

  lemma StaysMarked(mark: Marks, mark': Marks, o: Id)
    requires Marked(mark, mark') && NonWhite(mark, o)
    ensures NonWhite(mark', o)
  {
  }

  /** When marking is complete everything strongly reachable is marked. */
  lemma StrongMarked(g: Global, o: Id)
    requires g.MarkInv({}) && g.gray == [] && forall r :: r in g.Roots() ==> NonWhite(g.mark, r)
    requires StronglyReachable(g.objs, g.modeName, g.Roots(), o)
    ensures NonWhite(g.mark, o)
  {
    hide Global.Roots, MarkOk, StrongEdge;
    var p :| StrongPath(g.objs, g.modeName, g.Roots(), p) && p[|p| - 1] == o;
    StrongPathMarked(g, p);
  }

  lemma {:induction false} StrongPathMarked(g: Global, p: seq<Id>)
    requires g.MarkInv({}) && g.gray == [] && forall r :: r in g.Roots() ==> NonWhite(g.mark, r)
    requires StrongPath(g.objs, g.modeName, g.Roots(), p)
    ensures NonWhite(g.mark, p[|p| - 1])
  {
    hide StrongEdge, Edge, RootSet, NoBlackToWhite, GrayTracked, NoDup;
    if |p| == 1 {
      var r := p[0];
      assert r in g.Roots();
    } else {
      StrongPathMarked(g, p[..|p| - 1]);
      var a, b := p[|p| - 2], p[|p| - 1];
      assert StrongEdge(g.objs, g.modeName, a, b);
    }
  }
}
