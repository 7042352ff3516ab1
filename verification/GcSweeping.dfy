/**
  What one step of the sweep does to the pieces of the global state: repainting a survivor,
  freeing an object, closing an open upvalue.
 */
module GcSweeping {
  import opened Wrappers
  import opened LuaHeap
  import opened GcInvariants

  function MakeWhite(mark: Marks, cw: bool, o: Id): Marks
    requires o in mark
  {
    Paint(mark, o, White(cw))
  }

  /** The body of `o` may have lost open upvalues or been closed, but refers to the same. */
  ghost predicate BodyKept(objs: Heap, objs': Heap, o: Id)
    requires o in objs && o in objs'
  {
    match objs[o]
    case Thread(g, st, _) => objs'[o].Thread? && objs'[o].gt == g && objs'[o].stack == st
    case Upval(Open(th, level)) => objs'[o] == objs[o] || objs'[o] == Upval(Closed(BoxValue(objs, objs[o].box)))
    case _ => objs'[o] == objs[o]
  }

  /** Sweeping frees only doomed objects and repaints only the others. */
  ghost predicate Swept(objs: Heap, mark: Marks, cw: bool, objs': Heap, mark': Marks) {
    && objs'.Keys <= objs.Keys && mark'.Keys == objs'.Keys && mark.Keys == objs.Keys
    && (forall o :: o in objs && !IsDoomed(mark, cw, o) ==> o in objs')
    && (forall o :: o in objs' ==> BodyKept(objs, objs', o))
    && (forall o :: o in objs' ==> mark'[o].fixed == mark[o].fixed)
    && (forall o :: o in objs' ==> mark'[o] == mark[o] || (mark'[o].color == White(cw) && !IsDoomed(mark, cw, o)))
  }

  /** An object as it was, but that the list of a thread has lost the open upvalues that are gone,
      and that an open upvalue whose thread is gone is closed with its value. */
  ghost predicate Untouched(objs: Heap, objs': Heap, o: Id)
    requires o in objs && o in objs'
  {
    match objs[o]
    case Thread(gt, st, l) =>
      objs'[o].Thread? && objs'[o].gt == gt && objs'[o].stack == st &&
      forall u :: u in objs'[o].openupval <==> u in l && u in objs'
    case Upval(Open(th, _)) =>
      objs'[o] == objs[o] || (th !in objs' && objs'[o] == Upval(Closed(BoxValue(objs, objs[o].box))))
    case _ => objs'[o] == objs[o]
  }

  /** Objects are gone, and nothing else has changed. */
  ghost predicate OnlyFreed(objs: Heap, objs': Heap) {
    objs'.Keys <= objs.Keys && forall o :: o in objs' ==> Untouched(objs, objs', o)
  }

  lemma UntouchedTwice(objs: Heap, objs': Heap, objs'': Heap, o: Id)
    requires OnlyFreed(objs, objs') && OnlyFreed(objs', objs'') && OpenLists(objs') && o in objs''
    ensures Untouched(objs, objs'', o)
  {
    hide OpenLists;
    assert Untouched(objs, objs', o) && Untouched(objs', objs'', o);
    if IsOpen(objs[o]) && IsOpen(objs'[o]) {
      OpenThread(objs', o);
      assert Untouched(objs, objs', objs'[o].box.th);
    }
  }

  lemma OnlyFreedTwice(objs: Heap, objs': Heap, objs'': Heap)
    requires OnlyFreed(objs, objs') && OnlyFreed(objs', objs'') && OpenLists(objs')
    ensures OnlyFreed(objs, objs'')
  {
    hide Untouched, OpenLists;
    forall o | o in objs'' ensures Untouched(objs, objs'', o) { UntouchedTwice(objs, objs', objs'', o); }
  }

  lemma OnlyFreedSelf(objs: Heap)
    requires OpenLists(objs)
    ensures OnlyFreed(objs, objs)
  {
    hide OnOpenList;
    forall o | o in objs ensures Untouched(objs, objs, o) {
      if objs[o].Thread? { ListedThere(objs, o); }
    }
  }

  lemma ListedThere(objs: Heap, th: Id)
    requires OpenLists(objs) && th in objs && objs[th].Thread?
    ensures forall u :: u in objs[th].openupval ==> OpenOn(objs, u, th)
  {
    var l := objs[th].openupval;
    assert OpenList(objs, th, l);
    forall u | u in l ensures OpenOn(objs, u, th) {
      var i :| 0 <= i < |l| && l[i] == u;
      assert OpenOn(objs, l[i], th);
    }
  }

  /** Freeing an object that is on no list. */
  lemma OnlyFreedOne(objs: Heap, o: Id)
    requires OpenLists(objs) && o in objs && !IsOpen(objs[o])
    ensures OnlyFreed(objs, objs - {o})
  {
    hide OpenLists;
    forall p | p in objs - {o} ensures Untouched(objs, objs - {o}, p) {
      if objs[p].Thread? { ListedThere(objs, p); }
    }
  }

  /** Freeing an open upvalue. */
  lemma OnlyFreedOpen(objs: Heap, th: Id, j: nat, u: Id)
    requires OpenLists(objs) && th in objs && objs[th].Thread? && j < |objs[th].openupval| && objs[th].openupval[j] == u && u != th
    ensures OnlyFreed(objs, Unhook(objs, th, j) - {u})
  {
    hide OpenLists;
    var objs' := Unhook(objs, th, j) - {u};
    ListedThere(objs, th);
    assert OpenOn(objs, u, th);
    forall p | p in objs' ensures Untouched(objs, objs', p) {
      if p == th {
        UnhookedElems(objs, th, j, u);
        UnhookedUntouched(objs, th, j, u);
      } else {
        assert objs'[p] == objs[p];
        if objs[p].Thread? { ListedThere(objs, p); }
      }
    }
  }

  lemma UnhookedUntouched(objs: Heap, th: Id, j: nat, u: Id)
    requires th in objs && objs[th].Thread? && j < |objs[th].openupval| && u != th
    requires forall v :: v in objs[th].openupval ==> OpenOn(objs, v, th)
    requires forall v :: v in objs[th].openupval[..j] + objs[th].openupval[j + 1..] <==> v in objs[th].openupval && v != u
    ensures Untouched(objs, Unhook(objs, th, j) - {u}, th)
  {
    var l, l' := objs[th].openupval, objs[th].openupval[..j] + objs[th].openupval[j + 1..];
    var objs' := Unhook(objs, th, j) - {u};
    assert objs'[th] == objs[th].(openupval := l');
    forall v ensures v in l' <==> v in l && v in objs' {
      if v in l { assert OpenOn(objs, v, th); }
    }
  }

  lemma UnhookedElems(objs: Heap, th: Id, j: nat, u: Id)
    requires OpenLists(objs) && th in objs && objs[th].Thread? && j < |objs[th].openupval| && objs[th].openupval[j] == u
    ensures forall v :: v in objs[th].openupval[..j] + objs[th].openupval[j + 1..] <==> v in objs[th].openupval && v != u
  {
    var l := objs[th].openupval;
    UnhookedList(objs, th, j, u);
    forall v | v in l && v != u ensures v in l[..j] + l[j + 1..] {
      var i :| 0 <= i < |l| && l[i] == v;
      RemovedAt(l, j, i);
    }
  }

  lemma SweptTransitive(objs: Heap, mark: Marks, cw: bool, objs': Heap, mark': Marks, objs'': Heap, mark'': Marks)
    requires Swept(objs, mark, cw, objs', mark') && Swept(objs', mark', cw, objs'', mark'')
    requires OpenLists(objs) && OpenLists(objs')
    ensures Swept(objs, mark, cw, objs'', mark'')
  {
    forall o | o in objs'' ensures BodyKept(objs, objs'', o) {
      assert BodyKept(objs, objs', o) && BodyKept(objs', objs'', o);
      if IsOpen(objs[o]) && IsOpen(objs'[o]) {
        assert BodyKept(objs, objs', objs[o].box.th);
      }
    }
  }

  lemma SweptSelf(objs: Heap, mark: Marks, cw: bool)
    requires mark.Keys == objs.Keys
    ensures Swept(objs, mark, cw, objs, mark)
  {
  }

  lemma KeptEdge(objs: Heap, objs': Heap, a: Id, b: Id)
    requires objs'.Keys <= objs.Keys && OpenLists(objs')
    requires forall o :: o in objs' ==> BodyKept(objs, objs', o)
    ensures Edge(objs', a, b) ==> Edge(objs, a, b) && a in objs'
    ensures Edge(objs, a, b) && a in objs' ==> Edge(objs', a, b)
  {
    if a in objs' && objs'[a].Upval? && objs'[a].box.Open? {
      assert BodyKept(objs, objs', objs'[a].box.th);
    }
  }

  /** Sweeping keeps live objects closed under references. */
  lemma SweptLive(objs: Heap, mark: Marks, cw: bool, objs': Heap, mark': Marks, roots: set<Id>)
    requires LiveOk(objs, mark, cw, roots) && Swept(objs, mark, cw, objs', mark') && OpenLists(objs')
    requires forall o :: o in objs' && IsDead(mark, cw, o) && !IsDead(mark', cw, o) ==> objs[o].Str?
    ensures LiveOk(objs', mark', cw, roots)
  {
    forall a, b | Edge(objs', a, b) && !IsDead(mark', cw, a) ensures b in objs' && !IsDead(mark', cw, b) {
      SweptEdge(objs, mark, cw, objs', mark', roots, a, b);
    }
    SweptRootsLive(objs, mark, cw, objs', mark', roots);
  }

  lemma SweptEdge(objs: Heap, mark: Marks, cw: bool, objs': Heap, mark': Marks, roots: set<Id>, a: Id, b: Id)
    requires LiveOk(objs, mark, cw, roots) && Swept(objs, mark, cw, objs', mark') && OpenLists(objs')
    requires forall o :: o in objs' && IsDead(mark, cw, o) && !IsDead(mark', cw, o) ==> objs[o].Str?
    requires Edge(objs', a, b) && !IsDead(mark', cw, a)
    ensures b in objs' && !IsDead(mark', cw, b)
  {
    hide Edge, OpenLists, BodyKept;
    KeptEdge(objs, objs', a, b);
    MarkEdges(objs', 0, a);
  }

  lemma SweptRootsLive(objs: Heap, mark: Marks, cw: bool, objs': Heap, mark': Marks, roots: set<Id>)
    requires LiveOk(objs, mark, cw, roots) && Swept(objs, mark, cw, objs', mark')
    ensures RootsLive(objs', mark', cw, roots) && NeverBlack(objs', mark')
  {
    hide Edge;
    assert forall o :: o in objs' ==> BodyKept(objs, objs', o);
  }

  // ----- repainting -----

  lemma Repaint(objs: Heap, mark: Marks, cw: bool, nextId: Id, rootgc: seq<Id>, strt: seq<seq<Id>>, uvhead: seq<Id>,
                roots: set<Id>, o: Id)
    requires ShapeOk(objs, mark, nextId, rootgc, strt, uvhead) && LiveOk(objs, mark, cw, roots)
    requires o in objs && !IsDoomed(mark, cw, o) && (IsDead(mark, cw, o) ==> objs[o].Str?)
    ensures ShapeOk(objs, MakeWhite(mark, cw, o), nextId, rootgc, strt, uvhead)
    ensures LiveOk(objs, MakeWhite(mark, cw, o), cw, roots)
    ensures Swept(objs, mark, cw, objs, MakeWhite(mark, cw, o))
  {
    hide Edge, NoDup, Bucket, RootList, StringTable, OpenLists, OpenRing;
    SweptLive(objs, mark, cw, objs, MakeWhite(mark, cw, o), roots);
  }

  // ----- freeing -----

  lemma FreedOpenLists(objs: Heap, o: Id)
    requires OpenLists(objs) && o in objs && !IsOpen(objs[o])
    requires objs[o].Thread? ==> objs[o].openupval == []
    ensures OpenLists(objs - {o})
  {
    var objs' := objs - {o};
    forall u | u in objs' && IsOpen(objs'[u]) ensures OnOpenList(objs', u) { assert OnOpenList(objs, u); }
    forall th | th in objs' && objs'[th].Thread? ensures OpenList(objs', th, objs'[th].openupval) {
      OpenListFrame(objs, objs', th, objs[th].openupval);
    }
  }

  lemma OpenListFrame(objs: Heap, objs': Heap, th: Id, l: seq<Id>)
    requires OpenList(objs, th, l)
    requires forall u :: OpenOn(objs, u, th) && u in l ==> u in objs' && objs'[u] == objs[u]
    ensures OpenList(objs', th, l)
  {
    forall i | 0 <= i < |l| ensures OpenOn(objs', l[i], th) && Level(objs', l[i]) == Level(objs, l[i]) {
      var u := l[i];
      assert OpenOn(objs, l[i], th);
      assert u in l;
    }
  }

  /** A doomed object of the root list is unlinked and freed. */
  lemma FreeOnRootList(objs: Heap, mark: Marks, cw: bool, nextId: Id, rootgc: seq<Id>, strt: seq<seq<Id>>, uvhead: seq<Id>,
                       roots: set<Id>, o: Id)
    requires ShapeOk(objs, mark, nextId, rootgc, strt, uvhead) && LiveOk(objs, mark, cw, roots)
    requires o in rootgc && IsDoomed(mark, cw, o)
    requires objs[o].Thread? ==> objs[o].openupval == []
    ensures ShapeOk(objs - {o}, mark - {o}, nextId, Without(rootgc, o), strt, uvhead)
    ensures LiveOk(objs - {o}, mark - {o}, cw, roots)
    ensures Swept(objs, mark, cw, objs - {o}, mark - {o})
  {
    hide NoDup, Bucket, Edge, LiveOk, OpenLists;
    WithoutElems(rootgc, o);
    FreedOpenLists(objs, o);
    SweptLive(objs, mark, cw, objs - {o}, mark - {o}, roots);
  }

  /** A doomed string is unlinked from its bucket and freed. */
  lemma FreeString(objs: Heap, mark: Marks, cw: bool, nextId: Id, rootgc: seq<Id>, strt: seq<seq<Id>>, uvhead: seq<Id>,
                   roots: set<Id>, b: nat, o: Id)
    requires ShapeOk(objs, mark, nextId, rootgc, strt, uvhead) && LiveOk(objs, mark, cw, roots)
    requires b < |strt| && o in strt[b] && IsDoomed(mark, cw, o)
    ensures ShapeOk(objs - {o}, mark - {o}, nextId, rootgc, strt[b := Without(strt[b], o)], uvhead)
    ensures LiveOk(objs - {o}, mark - {o}, cw, roots)
    ensures Swept(objs, mark, cw, objs - {o}, mark - {o})
  {
    hide NoDup, Bucket, Edge, LiveOk, OpenLists;
    WithoutElems(strt[b], o);
    FreedOpenLists(objs, o);
    SweptLive(objs, mark, cw, objs - {o}, mark - {o}, roots);
  }

  /** Thread `th` with the `j`-th entry of its open list unlinked. */
  function Unhook(objs: Heap, th: Id, j: nat): Heap
    requires th in objs && objs[th].Thread? && j < |objs[th].openupval|
  {
    objs[th := objs[th].(openupval := objs[th].openupval[..j] + objs[th].openupval[j + 1..])]
  }

  /** A doomed open upvalue is unlinked from its thread and from the ring, and freed. */
  lemma FreeOpenUpval(objs: Heap, mark: Marks, cw: bool, nextId: Id, rootgc: seq<Id>, strt: seq<seq<Id>>, uvhead: seq<Id>,
                      roots: set<Id>, th: Id, j: nat, u: Id)
    requires ShapeOk(objs, mark, nextId, rootgc, strt, uvhead) && LiveOk(objs, mark, cw, roots)
    requires th in objs && objs[th].Thread? && j < |objs[th].openupval| && objs[th].openupval[j] == u
    requires IsDoomed(mark, cw, u)
    ensures u != th && ShapeOk(Unhook(objs, th, j) - {u}, mark - {u}, nextId, rootgc, strt, Without(uvhead, u))
    ensures LiveOk(Unhook(objs, th, j) - {u}, mark - {u}, cw, roots)
    ensures Swept(objs, mark, cw, Unhook(objs, th, j) - {u}, mark - {u})
  {
    hide NoDup, Bucket, Edge, LiveOk;
    assert OpenOn(objs, u, th);
    var objs' := Unhook(objs, th, j) - {u};
    UnhookLists(objs, th, j, u, objs');
    WithoutElems(uvhead, u);
    SweptLive(objs, mark, cw, objs', mark - {u}, roots);
  }

  lemma UnhookLists(objs: Heap, th: Id, j: nat, u: Id, objs': Heap)
    requires OpenLists(objs)
    requires th in objs && objs[th].Thread? && j < |objs[th].openupval| && objs[th].openupval[j] == u && u != th
    requires objs' == Unhook(objs, th, j) - {u}
    ensures OpenLists(objs')
  {
    hide OnOpenList, OpenList, Unhook;
    forall v | v in objs' && IsOpen(objs'[v]) ensures OnOpenList(objs', v) { UnhookOpen(objs, th, j, u, objs', v); }
    forall t | t in objs' && objs'[t].Thread? ensures OpenList(objs', t, objs'[t].openupval) {
      UnhookThread(objs, th, j, u, objs', t);
    }
  }

  lemma UnhookOpen(objs: Heap, th: Id, j: nat, u: Id, objs': Heap, v: Id)
    requires th in objs && objs[th].Thread? && j < |objs[th].openupval| && objs[th].openupval[j] == u && u != th
    requires objs' == Unhook(objs, th, j) - {u} && v in objs' && IsOpen(objs'[v])
    requires OpenList(objs, th, objs[th].openupval) && (v in objs && IsOpen(objs[v]) ==> OnOpenList(objs, v))
    ensures OnOpenList(objs', v)
  {
    var l := objs[th].openupval;
    assert OpenOn(objs, l[j], th);
    if objs[v].box.th == th {
      assert v in l;
      var i :| 0 <= i < |l| && l[i] == v;
      RemovedAt(l, j, i);
      assert l[i] in objs'[th].openupval;
    } else {
      assert objs'[objs[v].box.th] == objs[objs[v].box.th];
    }
  }

  /** Elements other than the removed one stay. */
  lemma RemovedAt(l: seq<Id>, j: nat, i: nat)
    requires j < |l| && i < |l| && i != j
    ensures l[i] in l[..j] + l[j + 1..]
  {
    assert (l[..j] + l[j + 1..])[if i < j then i else i - 1] == l[i];
  }

  lemma UnhookThread(objs: Heap, th: Id, j: nat, u: Id, objs': Heap, t: Id)
    requires th in objs && objs[th].Thread? && j < |objs[th].openupval| && objs[th].openupval[j] == u && u != th
    requires objs' == Unhook(objs, th, j) - {u} && t in objs' && objs'[t].Thread?
    requires t in objs && objs[t].Thread? ==> OpenList(objs, t, objs[t].openupval)
    requires OpenList(objs, th, objs[th].openupval)
    ensures OpenList(objs', t, objs'[t].openupval)
  {
    if t == th {
      UnhookedList(objs, th, j, u);
      OpenListFrame(objs, objs', th, objs'[th].openupval);
    } else {
      assert OpenOn(objs, objs[th].openupval[j], th);
      OpenListFrame(objs, objs', t, objs[t].openupval);
    }
  }

  lemma UnhookedList(objs: Heap, th: Id, j: nat, u: Id)
    requires th in objs && objs[th].Thread? && j < |objs[th].openupval| && objs[th].openupval[j] == u
    requires OpenList(objs, th, objs[th].openupval)
    ensures OpenList(objs, th, objs[th].openupval[..j] + objs[th].openupval[j + 1..])
    ensures u !in objs[th].openupval[..j] + objs[th].openupval[j + 1..]
  {
    var l := objs[th].openupval;
    var l' := l[..j] + l[j + 1..];
    forall i | 0 <= i < |l'| ensures l'[i] == l[if i < j then i else i + 1] {}
    forall i | 0 <= i < |l'| ensures l'[i] != u {
      var i' := if i < j then i else i + 1;
      assert Level(objs, l[i']) != Level(objs, l[j]);
    }
  }

  // ----- closing -----

  /** The first open upvalue `u` of thread `th` takes its value with it. */
  function CloseFirst(objs: Heap, th: Id, u: Id): Heap
    requires th in objs && objs[th].Thread? && 0 < |objs[th].openupval|
    requires u in objs && IsOpen(objs[u])
  {
    Unhook(objs, th, 0)[u := Upval(Closed(BoxValue(objs, objs[u].box)))]
  }

  lemma CloseShape(objs: Heap, mark: Marks, cw: bool, nextId: Id, rootgc: seq<Id>, strt: seq<seq<Id>>, uvhead: seq<Id>,
                   roots: set<Id>, th: Id, u: Id)
    requires ShapeOk(objs, mark, nextId, rootgc, strt, uvhead) && LiveOk(objs, mark, cw, roots)
    requires th in objs && objs[th].Thread? && 0 < |objs[th].openupval| && objs[th].openupval[0] == u
    ensures u in objs && IsOpen(objs[u]) && u != th && objs[u].box.th == th
    ensures ShapeOk(CloseFirst(objs, th, u), mark, nextId, [u] + rootgc, strt, Without(uvhead, u))
    ensures LiveOk(CloseFirst(objs, th, u), mark, cw, roots)
    ensures Swept(objs, mark, cw, CloseFirst(objs, th, u), mark)
  {
    hide NoDup, Bucket, Edge, LiveOk, OpenLists;
    OpenHead(objs, th, u);
    var objs' := CloseFirst(objs, th, u);
    ClosedLists(objs, th, u, objs');
    WithoutElems(uvhead, u);
    PushNoDup(rootgc, u);
    SweptLive(objs, mark, cw, objs', mark, roots);
  }

  lemma PushNoDup(s: seq<Id>, x: Id)
    requires NoDup(s) && x !in s
    ensures NoDup([x] + s)
    ensures forall y :: y in [x] + s <==> y == x || y in s
  {
  }

  lemma OpenHead(objs: Heap, th: Id, u: Id)
    requires OpenLists(objs)
    requires th in objs && objs[th].Thread? && 0 < |objs[th].openupval| && objs[th].openupval[0] == u
    ensures u in objs && IsOpen(objs[u]) && u != th && objs[u].box.th == th && objs[u].box.level < |objs[th].stack|
  {
    assert OpenOn(objs, u, th);
    assert OnOpenList(objs, u);
  }

  lemma ClosedLists(objs: Heap, th: Id, u: Id, objs': Heap)
    requires OpenLists(objs)
    requires th in objs && objs[th].Thread? && 0 < |objs[th].openupval| && objs[th].openupval[0] == u
    requires u in objs && IsOpen(objs[u]) && u != th && objs' == CloseFirst(objs, th, u)
    ensures OpenLists(objs')
  {
    UnhookLists(objs, th, 0, u, Unhook(objs, th, 0) - {u});
    var o := Unhook(objs, th, 0) - {u};
    forall v | v in objs' && IsOpen(objs'[v]) ensures OnOpenList(objs', v) { assert OnOpenList(o, v); }
    forall t | t in objs' && objs'[t].Thread? ensures OpenList(objs', t, objs'[t].openupval) {
      OpenListFrame(o, objs', t, o[t].openupval);
    }
  }

  // ----- what sweeping keeps -----

  lemma SweptStringsKept(objs: Heap, mark: Marks, cw: bool, objs': Heap, mark': Marks, strt: seq<seq<Id>>, strt': seq<seq<Id>>, n: nat)
    requires Swept(objs, mark, cw, objs', mark') && SweptStrings(mark, cw, strt, n)
    requires |strt'| == |strt| && forall b, o :: 0 <= b < |strt'| && o in strt'[b] ==> o in strt[b] && o in objs'
    ensures SweptStrings(mark', cw, strt', n)
  {
    forall b, o | 0 <= b < n && b < |strt'| && o in strt'[b] ensures IsCurrent(mark', cw, o) {
      assert o in strt[b] && o in objs';
      assert IsCurrent(mark, cw, o);
    }
  }

  lemma SweptRootsKept(objs: Heap, mark: Marks, cw: bool, objs': Heap, mark': Marks,
                       rootgc: seq<Id>, n: nat, rootgc': seq<Id>, n': nat)
    requires Swept(objs, mark, cw, objs', mark') && SweptRoots(objs, mark, cw, rootgc, n)
    requires n <= n' <= |rootgc'| && n <= |rootgc| && rootgc'[n' - n..n'] == rootgc[..n]
    requires forall i :: 0 <= i < n' - n ==>
               rootgc'[i] in objs' && IsCurrent(mark', cw, rootgc'[i]) && objs'[rootgc'[i]].Upval?
    requires OpenLists(objs')
    ensures SweptRoots(objs', mark', cw, rootgc', n')
  {
    hide OpenLists;
    forall i | 0 <= i < n' ensures IsCurrent(mark', cw, rootgc'[i]) {
      if i >= n' - n {
        assert rootgc'[i] == rootgc'[n' - n..n'][i - (n' - n)] == rootgc[i - (n' - n)];
      }
    }
    forall i, u | 0 <= i < n' && OpenOn(objs', u, rootgc'[i]) ensures IsCurrent(mark', cw, u) {
      OpenThread(objs', u);
      assert i >= n' - n;
      assert rootgc'[i] == rootgc'[n' - n..n'][i - (n' - n)] == rootgc[i - (n' - n)];
      assert BodyKept(objs, objs', u);
      var k := i - (n' - n);
      assert OpenOn(objs, u, rootgc[k]);
      assert IsCurrent(mark, cw, u);
    }
  }

  lemma OpenThread(objs: Heap, u: Id)
    requires OpenLists(objs) && u in objs && IsOpen(objs[u])
    ensures objs[u].box.th in objs && objs[objs[u].box.th].Thread?
  {
    assert OnOpenList(objs, u);
  }

  lemma SweptFixed(objs: Heap, mark: Marks, cw: bool, objs': Heap, mark': Marks, main: Id)
    requires Swept(objs, mark, cw, objs', mark') && FixedOk(objs, mark, main)
    ensures FixedOk(objs', mark', main)
  {
    forall o | o in objs' && o in mark' && mark'[o].fixed ensures objs'[o].Str? || o == main {
      assert BodyKept(objs, objs', o);
    }
  }

  /** The sweep progress made so far survives further sweeping. */
  lemma KeepSwept(objs: Heap, mark: Marks, cw: bool, objs': Heap, mark': Marks, main: Id,
                  strt: seq<seq<Id>>, strt': seq<seq<Id>>, rootgc: seq<Id>, n: nat, rootgc': seq<Id>, n': nat)
    requires Swept(objs, mark, cw, objs', mark') && FixedOk(objs, mark, main)
    requires SweptStrings(mark, cw, strt, |strt|) && SweptRoots(objs, mark, cw, rootgc, n)
    requires StringTable(objs', strt') && |strt'| == |strt|
    requires strt' == strt || forall b, o :: 0 <= b < |strt'| && o in strt'[b] ==> o in strt[b]
    requires n <= n' <= |rootgc'| && n <= |rootgc| && rootgc'[n' - n..n'] == rootgc[..n]
    requires forall i :: 0 <= i < n' - n ==>
               rootgc'[i] in objs' && IsCurrent(mark', cw, rootgc'[i]) && objs'[rootgc'[i]].Upval?
    requires OpenLists(objs')
    ensures FixedOk(objs', mark', main)
    ensures SweptStrings(mark', cw, strt', |strt'|) && SweptRoots(objs', mark', cw, rootgc', n')
  {
    hide Bucket, NoDup;
    SweptFixed(objs, mark, cw, objs', mark', main);
    SweptStringsKept(objs, mark, cw, objs', mark', strt, strt', |strt|);
    SweptRootsKept(objs, mark, cw, objs', mark', rootgc, n, rootgc', n');
  }

  lemma OpenAt(objs: Heap, th: Id, j: nat)
    requires OpenLists(objs) && th in objs && objs[th].Thread? && j < |objs[th].openupval|
    ensures OpenOn(objs, objs[th].openupval[j], th) && objs[th].openupval[j] != th
  {
  }

  // ----- closing one upvalue of a thread -----

  /** Objects in `objs'` refer to what they referred to; only dead objects are gone. */
  ghost predicate Kept(objs: Heap, mark: Marks, cw: bool, objs': Heap) {
    && objs'.Keys <= objs.Keys
    && (forall o :: o in objs' ==> BodyKept(objs, objs', o))
    && (forall o :: o in objs && !IsDead(mark, cw, o) ==> o in objs')
  }

  /** The first open upvalue of `th` is gone from the open list: closed over its value, or,
      when it was dead, freed. */
  ghost predicate Popped(objs: Heap, objs': Heap, th: Id) {
    && th in objs && objs[th].Thread? && objs[th].openupval != []
    && th in objs' && objs'[th] == objs[th].(openupval := objs[th].openupval[1..])
  }

  ghost predicate Linked(rootgc: seq<Id>, n: nat, rootgc': seq<Id>, n': nat) {
    || (rootgc' == rootgc && n' == n)
    || (|rootgc'| == |rootgc| + 1 && rootgc'[1..] == rootgc && n' == if n == 0 then 0 else n + 1)
  }

  lemma OpenFirst(objs: Heap, mark: Marks, nextId: Id, rootgc: seq<Id>, strt: seq<seq<Id>>, uvhead: seq<Id>, th: Id)
    requires ShapeOk(objs, mark, nextId, rootgc, strt, uvhead)
    requires th in objs && objs[th].Thread? && objs[th].openupval != []
    ensures var u := objs[th].openupval[0];
            u in objs && u in mark && IsOpen(objs[u]) && objs[u].box.th == th && u in uvhead
  {
    OpenAt(objs, th, 0);
    OpenInRing(objs, uvhead, objs[th].openupval[0]);
  }

  lemma OpenInRing(objs: Heap, uvhead: seq<Id>, u: Id)
    requires OpenRing(objs, uvhead) && u in objs && IsOpen(objs[u])
    ensures u in uvhead
  {
  }

  lemma DeadOpenDoomed(objs: Heap, mark: Marks, cw: bool, main: Id, u: Id)
    requires FixedOk(objs, mark, main) && u in objs && IsOpen(objs[u]) && IsDead(mark, cw, u)
    requires main in objs && objs[main].Thread?
    ensures IsDoomed(mark, cw, u)
  {
  }

  lemma KeepSweptState(objs: Heap, mark: Marks, cw: bool, objs': Heap, mark': Marks, main: Id,
                       strt: seq<seq<Id>>, rootgc: seq<Id>, n: nat, rootgc': seq<Id>, n': nat)
    requires Swept(objs, mark, cw, objs', mark') && FixedOk(objs, mark, main)
    requires StringTable(objs', strt) && OpenLists(objs') && n <= |rootgc| && n' <= |rootgc'|
    requires Linked(rootgc, n, rootgc', n')
    requires rootgc' != rootgc ==> rootgc'[0] in objs' && objs'[rootgc'[0]].Upval? && IsCurrent(mark', cw, rootgc'[0])
    ensures FixedOk(objs', mark', main)
    ensures forall k: nat :: SweptStrings(mark, cw, strt, k) ==> SweptStrings(mark', cw, strt, k)
    ensures SweptRoots(objs, mark, cw, rootgc, n) ==> SweptRoots(objs', mark', cw, rootgc', n')
    ensures AllWhite(mark, cw) ==> AllWhite(mark', cw)
  {
    SweptFixed(objs, mark, cw, objs', mark', main);
    forall k: nat | SweptStrings(mark, cw, strt, k) ensures SweptStrings(mark', cw, strt, k) {
      StringsKept(objs, mark, cw, objs', mark', strt, k);
    }
    if SweptRoots(objs, mark, cw, rootgc, n) {
      assert n' != n ==> rootgc'[1..n'] == rootgc[..n];
      SweptRootsKept(objs, mark, cw, objs', mark', rootgc, n, rootgc', n');
    }
  }

  lemma StringsKept(objs: Heap, mark: Marks, cw: bool, objs': Heap, mark': Marks, strt: seq<seq<Id>>, k: nat)
    requires Swept(objs, mark, cw, objs', mark') && StringTable(objs', strt) && SweptStrings(mark, cw, strt, k)
    ensures SweptStrings(mark', cw, strt, k)
  {
    hide Bucket, NoDup;
    SweptStringsKept(objs, mark, cw, objs', mark', strt, strt, k);
  }

  lemma NotDead(objs: Heap, mark: Marks, cw: bool, modeName: Id, gray: seq<Id>, grayagain: seq<Id>, weak: seq<Id>, x: set<Id>, u: Id)
    requires AllWhite(mark, cw) || MarkOk(objs, mark, cw, modeName, gray, grayagain, weak, x)
    ensures !IsDead(mark, cw, u)
  {
    hide Edge, StrongEdge, NoDup;
  }

  lemma OpenNotBlack(objs: Heap, mark: Marks, cw: bool, roots: set<Id>, u: Id)
    requires LiveOk(objs, mark, cw, roots) && u in objs && u in mark && IsOpen(objs[u]) && !IsDead(mark, cw, u)
    ensures mark[u].color.Gray? || IsCurrent(mark, cw, u)
  {
    hide Edge;
  }

  /** Closing an open upvalue in the mark phase: a white one is owed nothing, a gray one is
      painted black and owes its value. */
  lemma CloseMarkOk(objs: Heap, mark: Marks, cw: bool, modeName: Id, gray: seq<Id>, grayagain: seq<Id>, weak: seq<Id>,
                    x: set<Id>, x': set<Id>, th: Id, u: Id, uvhead: seq<Id>)
    requires MarkOk(objs, mark, cw, modeName, gray, grayagain, weak, x)
    requires x <= x' + {u}
    requires th in objs && objs[th].Thread? && 0 < |objs[th].openupval|
    requires u in objs && IsOpen(objs[u]) && u != th
    requires OpenLists(objs) && OpenLists(CloseFirst(objs, th, u))
    ensures var objs' := CloseFirst(objs, th, u);
            if mark[u].color.Gray? then MarkOk(objs', Paint(mark, u, Black), cw, modeName, gray, grayagain, weak, x' + {u})
            else MarkOk(objs', mark, cw, modeName, gray, grayagain, weak, x')
  {
    hide Edge, StrongEdge, NoDup, OpenLists;
    var objs' := CloseFirst(objs, th, u);
    forall a, b ensures (Edge(objs', a, b) <==> Edge(objs, a, b)) && (StrongEdge(objs', modeName, a, b) <==> StrongEdge(objs, modeName, a, b)) {
      ClosedEdge(objs, modeName, th, u, a, b);
    }
    ClosedGray(objs, mark, cw, modeName, gray, grayagain, weak, x, th, u);
    SameEdges(objs, mark, cw, modeName, gray, grayagain, weak, x, objs', u);
    if mark[u].color.Gray? {
      BlackenClosed(objs', mark, cw, modeName, gray, grayagain, weak, x + {u}, u);
      WidenException(objs', Paint(mark, u, Black), cw, modeName, gray, grayagain, weak, x + {u}, x' + {u});
    } else {
      NarrowWhite(objs', mark, cw, modeName, gray, grayagain, weak, x + {u}, x', u);
    }
  }

  /** The mark-phase invariant depends on the heap only through references and kinds. */
  lemma SameEdges(objs: Heap, mark: Marks, cw: bool, modeName: Id, gray: seq<Id>, grayagain: seq<Id>, weak: seq<Id>,
                  x: set<Id>, objs': Heap, u: Id)
    requires MarkOk(objs, mark, cw, modeName, gray, grayagain, weak, x) && objs'.Keys == objs.Keys
    requires forall a, b :: Edge(objs', a, b) <==> Edge(objs, a, b)
    requires forall a, b :: StrongEdge(objs', modeName, a, b) <==> StrongEdge(objs, modeName, a, b)
    requires forall o :: o in objs && o != u ==>
               (objs'[o] == objs[o] || (objs'[o].Thread? && objs[o].Thread?))
    requires u in objs && objs'[u].Upval? && objs[u].Upval? && !IsBlack(mark, u) && u !in gray && u !in grayagain && u !in weak
    ensures MarkOk(objs', mark, cw, modeName, gray, grayagain, weak, x + {u})
  {
    hide Edge, StrongEdge, NoDup;
  }

  lemma BlackenClosed(objs: Heap, mark: Marks, cw: bool, modeName: Id, gray: seq<Id>, grayagain: seq<Id>, weak: seq<Id>,
                      x: set<Id>, u: Id)
    requires MarkOk(objs, mark, cw, modeName, gray, grayagain, weak, x) && u in x
    requires IsGray(mark, u) && objs[u].Upval? && objs[u].box.Closed? && u !in gray && u !in grayagain && u !in weak
    ensures MarkOk(objs, Paint(mark, u, Black), cw, modeName, gray, grayagain, weak, x)
  {
    hide Edge, StrongEdge, NoDup;
  }

  /** A white object need not be excepted. */
  lemma NarrowWhite(objs: Heap, mark: Marks, cw: bool, modeName: Id, gray: seq<Id>, grayagain: seq<Id>, weak: seq<Id>,
                    x: set<Id>, x': set<Id>, u: Id)
    requires MarkOk(objs, mark, cw, modeName, gray, grayagain, weak, x) && x <= x' + {u} && IsWhite(mark, u)
    ensures MarkOk(objs, mark, cw, modeName, gray, grayagain, weak, x')
  {
    hide Edge, StrongEdge, NoDup;
  }

  lemma ClosedGray(objs: Heap, mark: Marks, cw: bool, modeName: Id, gray: seq<Id>, grayagain: seq<Id>, weak: seq<Id>,
                   x: set<Id>, th: Id, u: Id)
    requires MarkOk(objs, mark, cw, modeName, gray, grayagain, weak, x)
    requires th in objs && objs[th].Thread? && 0 < |objs[th].openupval|
    requires u in objs && IsOpen(objs[u]) && u != th
    ensures u !in gray && u !in grayagain && u !in weak && u in mark && !mark[u].color.Black?
  {
    hide Edge, StrongEdge, NoDup;
  }

  lemma ClosedEdge(objs: Heap, modeName: Id, th: Id, u: Id, a: Id, b: Id)
    requires th in objs && objs[th].Thread? && 0 < |objs[th].openupval|
    requires u in objs && IsOpen(objs[u]) && u != th
    requires OpenLists(objs) && OpenLists(CloseFirst(objs, th, u))
    ensures var objs' := CloseFirst(objs, th, u);
            (Edge(objs', a, b) <==> Edge(objs, a, b)) && (StrongEdge(objs', modeName, a, b) <==> StrongEdge(objs, modeName, a, b))
  {
    hide Edge, StrongEdge, OpenLists;
    var objs' := CloseFirst(objs, th, u);
    KeptEdge(objs, objs', a, b);
    if a in objs {
      if objs[a].Table? {
        SameMode(objs, objs', modeName, a);
        TableSame(objs, objs', modeName, a, b);
      } else {
        OtherEdges(objs, modeName, a);
        OtherEdges(objs', modeName, a);
      }
    } else {
      NoEdge(objs, modeName, a, b);
      NoEdge(objs', modeName, a, b);
    }
  }

  lemma NoEdge(objs: Heap, modeName: Id, a: Id, b: Id)
    requires a !in objs
    ensures !Edge(objs, a, b) && !StrongEdge(objs, modeName, a, b)
  {
  }

  lemma SameMode(objs: Heap, objs': Heap, modeName: Id, t: Id)
    requires objs'.Keys == objs.Keys
    requires forall o :: o in objs && (objs[o].Table? || objs[o].Str? || objs'[o].Table? || objs'[o].Str?) ==> objs'[o] == objs[o]
    ensures Mode(objs', modeName, t) == Mode(objs, modeName, t)
  {
  }

  lemma TableSame(objs: Heap, objs': Heap, modeName: Id, a: Id, b: Id)
    requires a in objs && a in objs' && objs[a].Table? && objs'[a] == objs[a]
    requires Mode(objs', modeName, a) == Mode(objs, modeName, a)
    ensures StrongEdge(objs', modeName, a, b) <==> StrongEdge(objs, modeName, a, b)
  {
  }

  /** Closing the first open upvalue of `th` outside the mark phase: a gray one turns white. */
  lemma CloseWhite(objs: Heap, mark: Marks, cw: bool, nextId: Id, rootgc: seq<Id>, strt: seq<seq<Id>>, uvhead: seq<Id>,
                   roots: set<Id>, th: Id, u: Id, mark': Marks)
    requires ShapeOk(objs, mark, nextId, rootgc, strt, uvhead) && LiveOk(objs, mark, cw, roots)
    requires th in objs && objs[th].Thread? && 0 < |objs[th].openupval| && objs[th].openupval[0] == u
    requires u in objs && IsOpen(objs[u]) && u in mark && !IsDead(mark, cw, u)
    requires mark' == if mark[u].color.Gray? then MakeWhite(mark, cw, u) else mark
    ensures ShapeOk(CloseFirst(objs, th, u), mark', nextId, [u] + rootgc, strt, Without(uvhead, u))
    ensures LiveOk(CloseFirst(objs, th, u), mark', cw, roots)
    ensures Swept(objs, mark, cw, CloseFirst(objs, th, u), mark')
    ensures Popped(objs, CloseFirst(objs, th, u), th)
    ensures IsCurrent(mark', cw, u)
  {
    hide ShapeOk, LiveOk, Swept, Edge;
    CloseShape(objs, mark, cw, nextId, rootgc, strt, uvhead, roots, th, u);
    OpenNotBlack(objs, mark, cw, roots, u);
    var objs' := CloseFirst(objs, th, u);
    if mark[u].color.Gray? {
      Repaint(objs', mark, cw, nextId, [u] + rootgc, strt, Without(uvhead, u), roots, u);
      ShapeOpen(objs, mark, nextId, rootgc, strt, uvhead);
      ShapeOpen(objs', mark, nextId, [u] + rootgc, strt, Without(uvhead, u));
      SweptTransitive(objs, mark, cw, objs', mark, objs', mark');
    }
    assert Unhook(objs, th, 0)[th] == objs[th].(openupval := objs[th].openupval[1..]);
  }

  lemma ShapeOpen(objs: Heap, mark: Marks, nextId: Id, rootgc: seq<Id>, strt: seq<seq<Id>>, uvhead: seq<Id>)
    requires ShapeOk(objs, mark, nextId, rootgc, strt, uvhead)
    ensures mark.Keys == objs.Keys && OpenLists(objs) && StringTable(objs, strt) && NoDup(uvhead) && NoDup(rootgc)
  {
    hide Bucket;
  }

  lemma ClosedMarks(objs: Heap, mark: Marks, cw: bool, nextId: Id, rootgc: seq<Id>, strt: seq<seq<Id>>, uvhead: seq<Id>,
                    roots: set<Id>, th: Id, u: Id, main: Id, m: Marks)
    requires ShapeOk(objs, mark, nextId, rootgc, strt, uvhead) && LiveOk(objs, mark, cw, roots)
    requires th in objs && objs[th].Thread? && 0 < |objs[th].openupval| && objs[th].openupval[0] == u
    requires u in objs && IsOpen(objs[u]) && u in mark
    requires if mark[u].color.Gray? then Marked(Paint(mark, u, Black), m) else m == mark
    requires NoneDead(mark, cw) && FixedOk(objs, mark, main) && NeverBlack(CloseFirst(objs, th, u), m)
    ensures var objs' := CloseFirst(objs, th, u);
            ShapeOk(objs', m, nextId, [u] + rootgc, strt, Without(uvhead, u))
            && LiveOk(objs', m, cw, roots) && FixedOk(objs', m, main)
            && Popped(objs, objs', th) && Kept(objs, mark, cw, objs') && Marked'(mark, m)
  {
    hide Edge, NoDup, Bucket, OpenLists, RootList, StringTable, OpenRing, Hash;
    CloseShape(objs, mark, cw, nextId, rootgc, strt, uvhead, roots, th, u);
    assert Unhook(objs, th, 0)[th] == objs[th].(openupval := objs[th].openupval[1..]);
    assert Marked'(mark, m);
    assert NoneDead(m, cw);
  }

  lemma StillThreads(objs: Heap, mark: Marks, cw: bool, objs': Heap, mark': Marks, r: Id)
    requires Swept(objs, mark, cw, objs', mark')
    requires r in objs && objs[r].Thread? && r in objs'
    ensures objs'[r].Thread?
  {
    assert BodyKept(objs, objs', r);
  }

  // ----- closing, on the whole state -----

  /** No object has died or come back to life. */
  ghost predicate SameDead(mark: Marks, mark': Marks, cw: bool) {
    mark'.Keys <= mark.Keys && forall o :: o in mark' ==> (IsDead(mark', cw, o) <==> IsDead(mark, cw, o))
  }

  /** The heap after the first open upvalue of `th` is closed over its value, or freed when dead. */
  function ClosedHeap(objs: Heap, mark: Marks, cw: bool, th: Id, u: Id): Heap
    requires th in objs && objs[th].Thread? && 0 < |objs[th].openupval|
    requires u in objs && IsOpen(objs[u])
  {
    if IsDead(mark, cw, u) then Unhook(objs, th, 0) - {u} else CloseFirst(objs, th, u)
  }

  /** One upvalue of `th` closed or freed; outside the mark phase this counts as sweeping. */
  ghost predicate CloseStep(g: Global, g': Global, th: Id) {
    && g' == g.(objs := g'.objs, mark := g'.mark, gray := g'.gray, rootgc := g'.rootgc, sweepgc := g'.sweepgc, uvhead := g'.uvhead)
    && Popped(g.objs, g'.objs, th) && Kept(g.objs, g.mark, g.cw, g'.objs)
    && FirstOpen(g, th) in g.objs && IsOpen(g.objs[FirstOpen(g, th)])
    && g'.objs == ClosedHeap(g.objs, g.mark, g.cw, th, FirstOpen(g, th))
    && SameDead(g.mark, g'.mark, g.cw)
    && (if g.gcstate == Propagate then Marked'(g.mark, g'.mark) else g'.gray == g.gray && Swept(g.objs, g.mark, g.cw, g'.objs, g'.mark))
    && Linked(g.rootgc, g.sweepgc, g'.rootgc, g'.sweepgc)
    && |g'.uvhead| == |g.uvhead| - 1
  }

  /** Closing `u`: it takes its value with it, or is freed when it is dead. */
  ghost predicate ClosedOrFreed(objs: Heap, mark: Marks, cw: bool, objs': Heap, u: Id)
    requires u in objs && objs[u].Upval?
  {
    if IsDead(mark, cw, u) then u !in objs' else u in objs' && objs'[u] == Upval(Closed(BoxValue(objs, objs[u].box)))
  }

  /** The first `i` open upvalues of `th` closed or freed, and nothing else. */
  ghost predicate ClosedSome(objs: Heap, mark: Marks, cw: bool, objs': Heap, th: Id, i: nat) {
    && th in objs && objs[th].Thread? && i <= |objs[th].openupval| && objs'.Keys <= objs.Keys
    && th in objs' && objs'[th] == objs[th].(openupval := objs[th].openupval[i..])
    && (forall o :: o in objs && o != th ==>
          if o in objs[th].openupval[..i] then objs[o].Upval? && ClosedOrFreed(objs, mark, cw, objs', o)
          else o in objs' && objs'[o] == objs[o])
  }

  /** Every open upvalue of `th` at `level` or above closed or freed, and nothing else. */
  ghost predicate ClosedFrom(objs: Heap, mark: Marks, cw: bool, objs': Heap, th: Id, level: nat) {
    && th in objs && objs[th].Thread? && objs'.Keys <= objs.Keys
    && th in objs' && objs'[th] == objs[th].(openupval := Below(objs, objs[th].openupval, level))
    && (forall o :: o in objs && o != th ==>
          if OpenOn(objs, o, th) && Level(objs, o) >= level then ClosedOrFreed(objs, mark, cw, objs', o)
          else o in objs' && objs'[o] == objs[o])
  }

  /** What is left of a list of open upvalues when those at `level` and above are gone. */
  function Below(objs: Heap, l: seq<Id>, level: nat): seq<Id> {
    if l != [] && Level(objs, l[0]) >= level then Below(objs, l[1..], level) else l
  }

  /** Some upvalues of `th` closed or freed, the first ones. */
  ghost predicate Closes(g: Global, g': Global, th: Id) {
    && g' == g.(objs := g'.objs, mark := g'.mark, gray := g'.gray, rootgc := g'.rootgc, sweepgc := g'.sweepgc, uvhead := g'.uvhead)
    && th in g.objs && g.objs[th].Thread? && th in g'.objs && g'.objs[th].Thread?
    && |g'.objs[th].openupval| <= |g.objs[th].openupval|
    && ClosedSome(g.objs, g.mark, g.cw, g'.objs, th, |g.objs[th].openupval| - |g'.objs[th].openupval|)
    && SameDead(g.mark, g'.mark, g.cw)
    && Kept(g.objs, g.mark, g.cw, g'.objs)
    && (if g.gcstate == Propagate then Marked'(g.mark, g'.mark) else g'.gray == g.gray && Swept(g.objs, g.mark, g.cw, g'.objs, g'.mark))
    && |g'.uvhead| <= |g.uvhead|
    && (|g'.uvhead| == |g.uvhead| ==> g' == g)
  }

  lemma ClosedNone(objs: Heap, mark: Marks, cw: bool, th: Id)
    requires th in objs && objs[th].Thread?
    ensures ClosedSome(objs, mark, cw, objs, th, 0) && SameDead(mark, mark, cw)
  {
    assert objs[th].openupval[..0] == [] && objs[th].openupval[0..] == objs[th].openupval;
  }

  /** One more of the open upvalues closed or freed. */
  lemma ClosedMore(objs: Heap, mark: Marks, cw: bool, objs1: Heap, mark1: Marks, th: Id, i: nat)
    requires OpenLists(objs) && mark.Keys == objs.Keys && mark1.Keys == objs1.Keys
    requires ClosedSome(objs, mark, cw, objs1, th, i) && i < |objs[th].openupval| && SameDead(mark, mark1, cw)
    requires objs[th].openupval[i] in objs1 && IsOpen(objs1[objs[th].openupval[i]])
    ensures ClosedSome(objs, mark, cw, ClosedHeap(objs1, mark1, cw, th, objs[th].openupval[i]), th, i + 1)
  {
    hide OpenLists;
    var l := objs[th].openupval;
    var u, objs2 := l[i], ClosedHeap(objs1, mark1, cw, th, l[i]);
    ListedThere(objs, th);
    OpenApart(objs, th, i);
    assert OpenOn(objs, u, th) && u != th && objs1[u] == objs[u];
    assert l[i..][1..] == l[i + 1..] && l[i..][..0] + l[i..][1..] == l[i + 1..];
    forall o | o in objs && o != th
      ensures if o in l[..i + 1] then objs[o].Upval? && ClosedOrFreed(objs, mark, cw, objs2, o) else o in objs2 && objs2[o] == objs[o]
    {
      assert l[..i + 1] == l[..i] + [u];
      if o != u { assert o in l[..i + 1] <==> o in l[..i]; }
    }
  }

  /** The elements of a list of open upvalues are distinct. */
  lemma OpenApart(objs: Heap, th: Id, i: nat)
    requires OpenLists(objs) && th in objs && objs[th].Thread? && i < |objs[th].openupval|
    ensures objs[th].openupval[i] !in objs[th].openupval[..i]
  {
    var l := objs[th].openupval;
    assert OpenList(objs, th, l);
    forall j | 0 <= j < i ensures l[..i][j] != l[i] { assert Level(objs, l[i]) < Level(objs, l[j]); }
  }

  lemma SomeLeft(objs: Heap, mark: Marks, cw: bool, objs': Heap, th: Id, i: nat)
    requires ClosedSome(objs, mark, cw, objs', th, i)
    ensures objs'[th].Thread? && objs'[th].openupval == objs[th].openupval[i..]
  {
  }

  /** When the first upvalue left is below `level`, just those at `level` and above are gone. */
  lemma ClosedAll(objs: Heap, mark: Marks, cw: bool, objs': Heap, th: Id, i: nat, level: nat)
    requires OpenLists(objs) && ClosedSome(objs, mark, cw, objs', th, i)
    requires forall j :: 0 <= j < i ==> Level(objs, objs[th].openupval[j]) >= level
    requires i < |objs[th].openupval| ==> Level(objs, objs[th].openupval[i]) < level
    ensures ClosedFrom(objs, mark, cw, objs', th, level)
  {
    hide OpenLists;
    var l := objs[th].openupval;
    BelowIs(objs, l, i, level);
    forall o | o in objs && o != th
      ensures OpenOn(objs, o, th) && Level(objs, o) >= level <==> o in l[..i]
    {
      ListedPlace(objs, th, o, i, level);
    }
  }

  lemma {:induction false} BelowIs(objs: Heap, l: seq<Id>, i: nat, level: nat)
    requires i <= |l| && forall j :: 0 <= j < i ==> Level(objs, l[j]) >= level
    requires i < |l| ==> Level(objs, l[i]) < level
    ensures Below(objs, l, level) == l[i..]
  {
    if i > 0 {
      assert l[1..][i - 1..] == l[i..];
      BelowIs(objs, l[1..], i - 1, level);
    }
  }

  lemma ListedPlace(objs: Heap, th: Id, o: Id, i: nat, level: nat)
    requires OpenLists(objs) && th in objs && objs[th].Thread? && o in objs && i <= |objs[th].openupval|
    requires forall j :: 0 <= j < i ==> Level(objs, objs[th].openupval[j]) >= level
    requires i < |objs[th].openupval| ==> Level(objs, objs[th].openupval[i]) < level
    ensures OpenOn(objs, o, th) && Level(objs, o) >= level <==> o in objs[th].openupval[..i]
  {
    var l := objs[th].openupval;
    assert OpenList(objs, th, l);
    if o in l[..i] {
      var j :| 0 <= j < i && l[..i][j] == o;
      assert OpenOn(objs, l[j], th);
    }
    forall j | i <= j < |l| ensures Level(objs, l[j]) < level { assert i < j ==> Level(objs, l[j]) < Level(objs, l[i]); }
    if OpenOn(objs, o, th) && Level(objs, o) >= level {
      assert OnOpenList(objs, o);
      var j :| 0 <= j < |l| && l[j] == o;
      assert j < i && l[..i][j] == o;
    }
  }

  lemma SweptKept(objs: Heap, mark: Marks, cw: bool, objs': Heap, mark': Marks)
    requires Swept(objs, mark, cw, objs', mark')
    ensures Kept(objs, mark, cw, objs')
  {
    hide BodyKept;
  }

  lemma KeptTransitive(objs: Heap, mark: Marks, cw: bool, objs': Heap, mark': Marks, objs'': Heap)
    requires Kept(objs, mark, cw, objs') && Kept(objs', mark', cw, objs'')
    requires OpenLists(objs) && OpenLists(objs')
    requires forall o :: o in objs' && !IsDead(mark, cw, o) ==> !IsDead(mark', cw, o)
    ensures Kept(objs, mark, cw, objs'')
  {
    forall o | o in objs'' ensures BodyKept(objs, objs'', o) {
      assert BodyKept(objs, objs', o) && BodyKept(objs', objs'', o);
      if IsOpen(objs[o]) && IsOpen(objs'[o]) {
        assert BodyKept(objs, objs', objs[o].box.th);
      }
    }
  }

  lemma ClosesSelf(g: Global, th: Id)
    requires g.Ok() && th in g.objs && g.objs[th].Thread?
    ensures Closes(g, g, th)
  {
    hide LiveOk, Edge, SweptStrings, SweptRoots, OpenLists, RootList, StringTable, OpenRing, MarkOk, AllWhite, ClosedSome;
    ClosedNone(g.objs, g.mark, g.cw, th);
  }

  lemma ClosesStep(g0: Global, g1: Global, g2: Global, th: Id)
    requires Closes(g0, g1, th) && CloseStep(g1, g2, th) && g0.Ok() && g1.Ok()
    ensures Closes(g0, g2, th)
  {
    hide Global.Ok, ClosedSome, Kept, Swept, Marked';
    OkOpen(g0);
    OkOpen(g1);
    var i := |g0.objs[th].openupval| - |g1.objs[th].openupval|;
    SomeLeft(g0.objs, g0.mark, g0.cw, g1.objs, th, i);
    ClosedMore(g0.objs, g0.mark, g0.cw, g1.objs, g1.mark, th, i);
    if g0.gcstate != Propagate {
      SweptTransitive(g0.objs, g0.mark, g0.cw, g1.objs, g1.mark, g2.objs, g2.mark);
    } else {
      MarkedTwice(g0.mark, g1.mark, g2.mark);
    }
    KeptTransitive(g0.objs, g0.mark, g0.cw, g1.objs, g1.mark, g2.objs);
  }

  /** The first open upvalue left has the level that it had. */
  lemma LevelKept(g: Global, g': Global, th: Id)
    requires g.Ok() && Closes(g, g', th) && g'.objs[th].openupval != []
    ensures var l, l' := g.objs[th].openupval, g'.objs[th].openupval;
            l' == l[|l| - |l'|..] && l'[0] == l[|l| - |l'|] && Level(g'.objs, l'[0]) == Level(g.objs, l'[0])
  {
    hide Global.Ok, Kept, Swept, Marked', OpenLists;
    var l, l' := g.objs[th].openupval, g'.objs[th].openupval;
    OkOpen(g);
    ListedThere(g.objs, th);
    OpenApart(g.objs, th, |l| - |l'|);
    assert OpenOn(g.objs, l'[0], th);
  }

  lemma ClosedAbove(g: Global, th: Id, level: nat)
    requires g.Ok() && th in g.objs && g.objs[th].Thread?
    requires g.objs[th].openupval == [] || Level(g.objs, g.objs[th].openupval[0]) < level
    ensures forall u :: OpenOn(g.objs, u, th) ==> Level(g.objs, u) < level
  {
    OkOpen(g);
    forall u | OpenOn(g.objs, u, th) ensures Level(g.objs, u) < level {
      assert OnOpenList(g.objs, u);
    }
  }

  lemma OkOpen(g: Global)
    requires g.Ok()
    ensures OpenLists(g.objs) && g.mark.Keys == g.objs.Keys && NoDup(g.rootgc) && g.sweepgc <= |g.rootgc|
  {
    ShapeOpen(g.objs, g.mark, g.nextId, g.rootgc, g.strt, g.uvhead);
  }

  function FirstOpen(g: Global, th: Id): Id
    requires th in g.objs && g.objs[th].Thread? && g.objs[th].openupval != []
  {
    g.objs[th].openupval[0]
  }

  /** The first open upvalue of `th` closed and put on the root list, with marks `m`. */
  function CloseLinked(g: Global, th: Id, m: Marks): Global
    requires th in g.objs && g.objs[th].Thread? && g.objs[th].openupval != []
    requires FirstOpen(g, th) in g.objs && IsOpen(g.objs[FirstOpen(g, th)])
  {
    var u := FirstOpen(g, th);
    g.(objs := CloseFirst(g.objs, th, u), mark := m, uvhead := Without(g.uvhead, u), rootgc := [u] + g.rootgc,
       sweepgc := if g.sweepgc > 0 then g.sweepgc + 1 else 0)
  }

  lemma OpenFirstOk(g: Global, th: Id)
    requires g.Ok() && th in g.objs && g.objs[th].Thread? && g.objs[th].openupval != []
    ensures var u := FirstOpen(g, th);
            u in g.objs && u in g.mark && IsOpen(g.objs[u]) && g.objs[u].box.th == th && u in g.uvhead && u != th
  {
    hide Bucket, NoDup;
    OpenFirst(g.objs, g.mark, g.nextId, g.rootgc, g.strt, g.uvhead, th);
    ShapeOpen(g.objs, g.mark, g.nextId, g.rootgc, g.strt, g.uvhead);
    OpenAt(g.objs, th, 0);
  }

  lemma CloseOtherOk(g: Global, th: Id, m: Marks)
    requires g.Ok() && g.gcstate != Propagate
    requires th in g.objs && g.objs[th].Thread? && g.objs[th].openupval != []
    requires var u := FirstOpen(g, th);
             u in g.objs && u in g.mark && IsOpen(g.objs[u]) && !IsDead(g.mark, g.cw, u)
             && m == if g.mark[u].color.Gray? then MakeWhite(g.mark, g.cw, u) else g.mark
    ensures CloseLinked(g, th, m).Ok()
    ensures CloseStep(g, CloseLinked(g, th, m), th)
  {
    hide ShapeOk, LiveOk, Swept, NoDup, SweptStrings, SweptRoots, FixedOk, BodyKept, MarkOk, AllWhite, Edge, RootSet;
    var u, g' := FirstOpen(g, th), CloseLinked(g, th, m);
    OpenFirstOk(g, th);
    assert ([u] + g.rootgc)[1..] == g.rootgc;
    WithoutShorter(g.uvhead, u);
    CloseWhite(g.objs, g.mark, g.cw, g.nextId, g.rootgc, g.strt, g.uvhead, g.Roots(), th, u, m);
    SweptKept(g.objs, g.mark, g.cw, g'.objs, m);
    ShapeOpen(g'.objs, m, g.nextId, g'.rootgc, g.strt, g'.uvhead);
    KeepSweptState(g.objs, g.mark, g.cw, g'.objs, m, g.main, g.strt, g.rootgc, g.sweepgc, g'.rootgc, g'.sweepgc);
    StillThreads(g.objs, g.mark, g.cw, g'.objs, m, g.running);
    StillThreads(g.objs, g.mark, g.cw, g'.objs, m, g.main);
  }

  /** The mark-phase invariant right after the first open upvalue was closed. */
  lemma ClosePropagateStart(g: Global, th: Id)
    requires g.Ok() && g.gcstate == Propagate
    requires th in g.objs && g.objs[th].Thread? && g.objs[th].openupval != []
    requires FirstOpen(g, th) in g.objs && FirstOpen(g, th) in g.mark && IsOpen(g.objs[FirstOpen(g, th)])
    ensures var u, g' := FirstOpen(g, th), CloseLinked(g, th, g.mark);
            if g.mark[u].color.Gray? then
              MarkOk(g'.objs, Paint(g.mark, u, Black), g.cw, g.modeName, g.gray, g.grayagain, g.weak, g'.Deferred() + {u})
            else MarkOk(g'.objs, g.mark, g.cw, g.modeName, g.gray, g.grayagain, g.weak, g'.Deferred())
  {
    hide ShapeOk, LiveOk, MarkOk, Edge, RootSet, NoDup;
    var u, g' := FirstOpen(g, th), CloseLinked(g, th, g.mark);
    ShapeOpen(g.objs, g.mark, g.nextId, g.rootgc, g.strt, g.uvhead);
    WithoutCover(g.uvhead, u);
    CloseShape(g.objs, g.mark, g.cw, g.nextId, g.rootgc, g.strt, g.uvhead, g.Roots(), th, u);
    ShapeOpen(g'.objs, g.mark, g.nextId, g'.rootgc, g.strt, g'.uvhead);
    CloseMarkOk(g.objs, g.mark, g.cw, g.modeName, g.gray, g.grayagain, g.weak, g.Deferred(), g'.Deferred(), th, u, g.uvhead);
  }

  lemma ClosePropagateOk(g: Global, th: Id, m: Marks, gray: seq<Id>)
    requires g.Ok() && g.gcstate == Propagate
    requires th in g.objs && g.objs[th].Thread? && g.objs[th].openupval != []
    requires var u := FirstOpen(g, th);
             u in g.objs && u in g.mark && IsOpen(g.objs[u])
             && (if g.mark[u].color.Gray? then Marked(Paint(g.mark, u, Black), m) else m == g.mark)
    requires var g' := CloseLinked(g, th, m);
             MarkOk(g'.objs, m, g.cw, g.modeName, gray, g.grayagain, g.weak, g'.Deferred())
    ensures CloseLinked(g, th, m).(gray := gray).Ok()
    ensures CloseStep(g, CloseLinked(g, th, m).(gray := gray), th)
  {
    hide ShapeOk, LiveOk, MarkOk, Edge, RootSet, NoDup, FixedOk, NeverBlack, NoneDead;
    var u, g' := FirstOpen(g, th), CloseLinked(g, th, m);
    OpenFirstOk(g, th);
    assert ([u] + g.rootgc)[1..] == g.rootgc;
    WithoutShorter(g.uvhead, u);
    MarkOkNoneDead(g.objs, g.mark, g.cw, g.modeName, g.gray, g.grayagain, g.weak, g.Deferred());
    MarkOkNoneDead(g'.objs, m, g.cw, g.modeName, gray, g.grayagain, g.weak, g'.Deferred());
    ClosedMarks(g.objs, g.mark, g.cw, g.nextId, g.rootgc, g.strt, g.uvhead, g.Roots(), th, u, g.main, m);
    CloseShape(g.objs, g.mark, g.cw, g.nextId, g.rootgc, g.strt, g.uvhead, g.Roots(), th, u);
    OkOpen(g);
    NeitherDead(g.mark, m, g.cw, u);
    StillMarked(g.mark, u, m, g.main);
    StillMarked(g.mark, u, m, g.registry);
  }

  lemma NeitherDead(mark: Marks, m: Marks, cw: bool, u: Id)
    requires NoneDead(mark, cw) && NoneDead(m, cw) && m.Keys == mark.Keys
    ensures SameDead(mark, m, cw) && !IsDead(mark, cw, u)
  {
  }

  lemma StillMarked(mark: Marks, u: Id, m: Marks, o: Id)
    requires u in mark && NonWhite(mark, o)
    requires if mark[u].color.Gray? then Marked(Paint(mark, u, Black), m) else m == mark
    ensures NonWhite(m, o)
  {
    assert mark[u].color.Gray? ==> NonWhite(Paint(mark, u, Black), o);
  }

  lemma CloseDeadOk(g: Global, th: Id, u: Id)
    requires g.Ok()
    requires th in g.objs && g.objs[th].Thread? && g.objs[th].openupval != [] && u == FirstOpen(g, th)
    requires u in g.objs && u in g.mark && IsOpen(g.objs[u]) && IsDead(g.mark, g.cw, u)
    ensures g.gcstate == SweepString || g.gcstate == Sweep
    ensures var g' := g.(objs := Unhook(g.objs, th, 0) - {u}, mark := g.mark - {u}, uvhead := Without(g.uvhead, u));
            g'.Ok() && CloseStep(g, g', th)
  {
    hide ShapeOk, LiveOk, NoDup, SweptStrings, SweptRoots, FixedOk, MarkOk, AllWhite, Edge, RootSet;
    if g.gcstate == Pause || g.gcstate == Propagate || g.gcstate == Finalize {
      NotDead(g.objs, g.mark, g.cw, g.modeName, g.gray, g.grayagain, g.weak, g.Deferred(), u);
    }
    OpenFirstOk(g, th);
    WithoutShorter(g.uvhead, u);
    DeadOpenDoomed(g.objs, g.mark, g.cw, g.main, u);
    FreeOpenUpval(g.objs, g.mark, g.cw, g.nextId, g.rootgc, g.strt, g.uvhead, g.Roots(), th, 0, u);
    assert Unhook(g.objs, th, 0)[th] == g.objs[th].(openupval := g.objs[th].openupval[1..]);
    var g' := g.(objs := Unhook(g.objs, th, 0) - {u}, mark := g.mark - {u}, uvhead := Without(g.uvhead, u));
    ShapeOpen(g'.objs, g'.mark, g.nextId, g.rootgc, g.strt, g'.uvhead);
    KeepSweptState(g.objs, g.mark, g.cw, g'.objs, g'.mark, g.main, g.strt, g.rootgc, g.sweepgc, g.rootgc, g.sweepgc);
    assert BodyKept(g.objs, g'.objs, g.main) && BodyKept(g.objs, g'.objs, g.running) by {
      LiveRoot(g, g.main);
      LiveRoot(g, g.running);
    }
  }

  lemma LiveRoot(g: Global, r: Id)
    requires g.Live() && (r == g.main || r == g.running || r == g.registry)
    ensures r in g.objs && !IsDead(g.mark, g.cw, r)
  {
    hide LiveClosed, NeverBlack;
    assert r in g.Roots();
  }

  // ----- sweeping, on the whole state -----

  /** Sweeping changes the marks and the lists, frees only doomed objects, and does nothing else to
      the heap. */
  ghost predicate Sweeps(g: Global, g': Global) {
    && g' == g.(objs := g'.objs, mark := g'.mark, rootgc := g'.rootgc, sweepgc := g'.sweepgc,
                strt := g'.strt, sweepstrgc := g'.sweepstrgc, gcstate := g'.gcstate, uvhead := g'.uvhead)
    && Swept(g.objs, g.mark, g.cw, g'.objs, g'.mark) && OnlyFreed(g.objs, g'.objs)
    && |g'.strt| == |g.strt|
    && |g'.uvhead| <= |g.uvhead|
  }

  predicate Sweeping(g: Global) {
    g.gcstate == SweepString || g.gcstate == Sweep
  }

  lemma SweepsSelf(g: Global)
    requires g.Ok()
    ensures Sweeps(g, g)
  {
    OkOpen(g);
    SweptSelf(g.objs, g.mark, g.cw);
    OnlyFreedSelf(g.objs);
  }

  lemma SweepsTransitive(g0: Global, g1: Global, g2: Global)
    requires Sweeps(g0, g1) && Sweeps(g1, g2) && g0.Ok() && g1.Ok()
    ensures Sweeps(g0, g2)
  {
    hide Swept, Global.Ok, OnlyFreed, OpenLists;
    OkOpen(g0);
    OkOpen(g1);
    OnlyFreedTwice(g0.objs, g1.objs, g2.objs);
    SweptTransitive(g0.objs, g0.mark, g0.cw, g1.objs, g1.mark, g2.objs, g2.mark);
  }

  /** A survivor is repainted with the current white. */
  lemma RepaintOk(g: Global, o: Id)
    requires g.Ok() && Sweeping(g) && o in g.objs && o in g.mark && !IsDoomed(g.mark, g.cw, o)
    ensures g.(mark := MakeWhite(g.mark, g.cw, o)).Ok()
    ensures Sweeps(g, g.(mark := MakeWhite(g.mark, g.cw, o)))
  {
    hide ShapeOk, LiveOk, SweptStrings, SweptRoots, FixedOk, Edge, RootSet, Swept, OnlyFreed, OpenLists;
    DeadFixedString(g, o);
    Repaint(g.objs, g.mark, g.cw, g.nextId, g.rootgc, g.strt, g.uvhead, g.Roots(), o);
    OkOpen(g);
    OnlyFreedSelf(g.objs);
    ShapeOpen(g.objs, g.mark, g.nextId, g.rootgc, g.strt, g.uvhead);
    KeepSweptState(g.objs, g.mark, g.cw, g.objs, MakeWhite(g.mark, g.cw, o), g.main, g.strt, g.rootgc, g.sweepgc, g.rootgc, g.sweepgc);
  }

  lemma DeadFixedString(g: Global, o: Id)
    requires g.Ok() && o in g.objs && o in g.mark && !IsDoomed(g.mark, g.cw, o)
    ensures IsDead(g.mark, g.cw, o) ==> g.objs[o].Str?
  {
    hide ShapeOk, LiveOk;
    LiveRoot(g, g.main);
  }

  /** The roots survive a sweep step as threads. */
  lemma RootsStay(g: Global, objs': Heap, mark': Marks)
    requires g.Ok() && Swept(g.objs, g.mark, g.cw, objs', mark')
    ensures g.main in objs' && objs'[g.main].Thread? && g.running in objs' && objs'[g.running].Thread?
  {
    hide ShapeOk, LiveOk;
    LiveRoot(g, g.main);
    LiveRoot(g, g.running);
    assert BodyKept(g.objs, objs', g.main) && BodyKept(g.objs, objs', g.running);
  }

  lemma FreeOpenOk(g: Global, th: Id, j: nat, u: Id)
    requires g.Ok() && Sweeping(g)
    requires th in g.objs && g.objs[th].Thread? && j < |g.objs[th].openupval| && g.objs[th].openupval[j] == u
    requires IsDoomed(g.mark, g.cw, u)
    ensures var g' := g.(objs := Unhook(g.objs, th, j) - {u}, mark := g.mark - {u}, uvhead := Without(g.uvhead, u));
            g'.Ok() && Sweeps(g, g') && u != th && th in g'.objs
            && g'.objs[th] == g.objs[th].(openupval := g.objs[th].openupval[..j] + g.objs[th].openupval[j + 1..])
  {
    hide ShapeOk, LiveOk, SweptStrings, SweptRoots, FixedOk, Edge, RootSet, Swept, OnlyFreed, OpenLists;
    OkOpen(g);
    var g' := g.(objs := Unhook(g.objs, th, j) - {u}, mark := g.mark - {u}, uvhead := Without(g.uvhead, u));
    FreeOpenUpval(g.objs, g.mark, g.cw, g.nextId, g.rootgc, g.strt, g.uvhead, g.Roots(), th, j, u);
    OnlyFreedOpen(g.objs, th, j, u);
    WithoutShorter(g.uvhead, u);
    ShapeOpen(g'.objs, g'.mark, g.nextId, g.rootgc, g.strt, g'.uvhead);
    KeepSweptState(g.objs, g.mark, g.cw, g'.objs, g'.mark, g.main, g.strt, g.rootgc, g.sweepgc, g.rootgc, g.sweepgc);
    RootsStay(g, g'.objs, g'.mark);
  }

  /** The doomed object at the sweep position is unlinked and freed. */
  lemma FreeRootOk(g: Global, o: Id)
    requires g.Ok() && g.gcstate == Sweep && o in g.objs && OnRootList(g.objs[o]) && IsDoomed(g.mark, g.cw, o)
    requires g.objs[o].Thread? ==> g.objs[o].openupval == []
    ensures var g' := g.(objs := g.objs - {o}, mark := g.mark - {o}, rootgc := Without(g.rootgc, o));
            g'.Ok() && Sweeps(g, g') && |g'.rootgc| == |g.rootgc| - 1
  {
    hide LiveOk, SweptStrings, FixedOk, Edge, RootSet, Swept, Bucket, StringTable, OpenLists, OpenRing, NoDup, OnlyFreed;
    OnlyFreedOne(g.objs, o);
    var g' := g.(objs := g.objs - {o}, mark := g.mark - {o}, rootgc := Without(g.rootgc, o));
    FreeOnRootList(g.objs, g.mark, g.cw, g.nextId, g.rootgc, g.strt, g.uvhead, g.Roots(), o);
    WithoutElems(g.rootgc, o);
    NotInPrefix(g, o);
    WithoutPrefix(g.rootgc, o, g.sweepgc);
    KeepSwept(g.objs, g.mark, g.cw, g'.objs, g'.mark, g.main, g.strt, g.strt, g.rootgc, g.sweepgc, g'.rootgc, g.sweepgc);
    RootsStay(g, g'.objs, g'.mark);
  }

  lemma NotInPrefix(g: Global, o: Id)
    requires SweptRoots(g.objs, g.mark, g.cw, g.rootgc, g.sweepgc) && g.sweepgc <= |g.rootgc|
    requires IsDead(g.mark, g.cw, o)
    ensures o !in g.rootgc[..g.sweepgc]
  {
  }

  /** The sweep position moves past a swept object. */
  lemma AdvanceOk(g: Global)
    requires g.Ok() && g.gcstate == Sweep && g.sweepgc < |g.rootgc|
    requires IsCurrent(g.mark, g.cw, g.rootgc[g.sweepgc])
    requires forall u :: OpenOn(g.objs, u, g.rootgc[g.sweepgc]) ==> IsCurrent(g.mark, g.cw, u)
    ensures g.(sweepgc := g.sweepgc + 1).Ok() && Sweeps(g, g.(sweepgc := g.sweepgc + 1))
  {
    hide ShapeOk, LiveOk, SweptStrings, FixedOk, Edge, RootSet, Swept, OnlyFreed, OpenLists;
    OkOpen(g);
    SweptSelf(g.objs, g.mark, g.cw);
    OnlyFreedSelf(g.objs);
  }

  /** All open upvalues of a thread are current when those on its open list are. */
  lemma OpenCurrent(g: Global, th: Id)
    requires g.Ok() && th in g.objs
    requires g.objs[th].Thread? ==> forall i :: 0 <= i < |g.objs[th].openupval| ==> IsCurrent(g.mark, g.cw, g.objs[th].openupval[i])
    ensures forall u :: OpenOn(g.objs, u, th) ==> IsCurrent(g.mark, g.cw, u)
  {
    OkOpen(g);
    forall u | OpenOn(g.objs, u, th) ensures IsCurrent(g.mark, g.cw, u) {
      assert OnOpenList(g.objs, u);
    }
  }

  lemma FreeStringOk(g: Global, o: Id)
    requires g.Ok() && g.gcstate == SweepString && o in g.strt[g.sweepstrgc] && IsDoomed(g.mark, g.cw, o)
    ensures var g' := g.(objs := g.objs - {o}, mark := g.mark - {o},
                         strt := g.strt[g.sweepstrgc := Without(g.strt[g.sweepstrgc], o)]);
            g'.Ok() && Sweeps(g, g')
  {
    hide ShapeOk, LiveOk, SweptRoots, FixedOk, Edge, RootSet, Swept, OnlyFreed, OpenLists;
    var b := g.sweepstrgc;
    OkOpen(g);
    StringListed(g, o);
    OnlyFreedOne(g.objs, o);
    var g' := g.(objs := g.objs - {o}, mark := g.mark - {o}, strt := g.strt[b := Without(g.strt[b], o)]);
    FreeString(g.objs, g.mark, g.cw, g.nextId, g.rootgc, g.strt, g.uvhead, g.Roots(), b, o);
    ShapeOpen(g'.objs, g'.mark, g.nextId, g.rootgc, g'.strt, g.uvhead);
    SweptFixed(g.objs, g.mark, g.cw, g'.objs, g'.mark, g.main);
    EarlierBuckets(g, o);
    RootsStay(g, g'.objs, g'.mark);
  }

  lemma StringListed(g: Global, o: Id)
    requires g.Ok() && g.gcstate == SweepString && g.sweepstrgc < |g.strt| && o in g.strt[g.sweepstrgc]
    ensures o in g.objs && g.objs[o].Str?
  {
    hide LiveOk, RootList, OpenLists, OpenRing, NoDup, Bucket, Global.Phase;
  }

  lemma EarlierBuckets(g: Global, o: Id)
    requires g.Ok() && g.gcstate == SweepString && o in g.strt[g.sweepstrgc] && IsDoomed(g.mark, g.cw, o)
    ensures SweptStrings(g.mark - {o}, g.cw, g.strt[g.sweepstrgc := Without(g.strt[g.sweepstrgc], o)], g.sweepstrgc)
  {
    hide ShapeOk, LiveOk;
    var strt' := g.strt[g.sweepstrgc := Without(g.strt[g.sweepstrgc], o)];
    forall b, p | 0 <= b < g.sweepstrgc && b < |strt'| && p in strt'[b] ensures IsCurrent(g.mark - {o}, g.cw, p) {
      assert p in g.strt[b];
      assert IsCurrent(g.mark, g.cw, p);
    }
  }

  /** A bucket whose strings are all current is done. */
  lemma NextBucketOk(g: Global)
    requires g.Ok() && g.gcstate == SweepString
    requires forall i :: 0 <= i < |g.strt[g.sweepstrgc]| ==> IsCurrent(g.mark, g.cw, g.strt[g.sweepstrgc][i])
    ensures var g' := g.(sweepstrgc := g.sweepstrgc + 1);
            Sweeps(g, g') && if g'.sweepstrgc >= |g.strt| then g'.(gcstate := Sweep).Ok() else g'.Ok()
  {
    hide ShapeOk, LiveOk, FixedOk, Edge, RootSet, Swept, OnlyFreed, OpenLists;
    OkOpen(g);
    SweptSelf(g.objs, g.mark, g.cw);
    OnlyFreedSelf(g.objs);
  }

  /** The measure of the sweep: open upvalues, then objects not yet passed. */
  predicate Less(g': Global, g: Global) {
    |g'.uvhead| < |g.uvhead| || (|g'.uvhead| == |g.uvhead| && |g'.rootgc| - g'.sweepgc < |g.rootgc| - g.sweepgc)
  }

  lemma OpenListed(g: Global, th: Id, j: nat)
    requires g.Ok() && th in g.objs && g.objs[th].Thread? && j < |g.objs[th].openupval|
    ensures g.objs[th].openupval[j] in g.objs && g.objs[th].openupval[j] in g.mark
  {
    OkOpen(g);
    OpenAt(g.objs, th, j);
  }

  lemma OpenDiffers(g: Global, th: Id, j: nat)
    requires g.Ok() && th in g.objs && g.objs[th].Thread? && j < |g.objs[th].openupval|
    ensures g.objs[th].openupval[j] != th
  {
    OkOpen(g);
    OpenAt(g.objs, th, j);
  }

  lemma OnList(g: Global, i: nat)
    requires g.Ok() && i < |g.rootgc|
    ensures g.rootgc[i] in g.objs && g.rootgc[i] in g.mark && OnRootList(g.objs[g.rootgc[i]])
  {
    hide LiveOk, StringTable, OpenLists, OpenRing, NoDup, Global.Phase;
    var o := g.rootgc[i];
    assert o in g.rootgc;
  }

  /** A thread is freed once all its open upvalues are closed or freed. */
  lemma ThreadFreed(g: Global, g1: Global, g': Global, th: Id)
    requires g.Ok() && g1.Ok() && g.gcstate == Sweep && Closes(g, g1, th) && ClosedFrom(g.objs, g.mark, g.cw, g1.objs, th, 0)
    requires Sweeps(g1, g') && g'.objs == g1.objs - {th}
    ensures Sweeps(g, g')
  {
    hide Global.Ok, Swept, OnlyFreed, OpenLists, ClosedFrom, ClosedSome;
    OkOpen(g);
    OkOpen(g1);
    SweptTransitive(g.objs, g.mark, g.cw, g1.objs, g1.mark, g'.objs, g'.mark);
    ThreadUntied(g.objs, g.mark, g.cw, g1.objs, th);
  }

  lemma ThreadUntied(objs: Heap, mark: Marks, cw: bool, objs': Heap, th: Id)
    requires OpenLists(objs) && ClosedFrom(objs, mark, cw, objs', th, 0)
    ensures OnlyFreed(objs, objs' - {th})
  {
    hide OpenLists, Below;
    forall o | o in objs' - {th} ensures Untouched(objs, objs' - {th}, o) {
      if objs[o].Thread? {
        ListedThere(objs, o);
        assert objs'[o] == objs[o];
      }
    }
  }

  lemma NothingOpen(g: Global, th: Id)
    requires g.Ok() && th in g.objs && g.objs[th].Thread?
    requires forall u :: OpenOn(g.objs, u, th) ==> Level(g.objs, u) < 0
    ensures g.objs[th].openupval == []
  {
    OkOpen(g);
    if g.objs[th].openupval != [] {
      OpenAt(g.objs, th, 0);
    }
  }

  /** A doomed thread is still there, and still doomed, after its upvalues were closed. */
  lemma StillDoomed(g: Global, g': Global, th: Id)
    requires Closes(g, g', th) && g.gcstate == Sweep && IsDoomed(g.mark, g.cw, th)
    ensures IsDoomed(g'.mark, g'.cw, th)
  {
    hide BodyKept, ClosedSome;
  }

  lemma StillCurrent(g: Global, o: Id)
    requires o in g.mark
    ensures IsCurrent(MakeWhite(g.mark, g.cw, o), g.cw, o)
    ensures forall u :: IsCurrent(g.mark, g.cw, u) ==> IsCurrent(MakeWhite(g.mark, g.cw, o), g.cw, u)
  {
  }

  lemma BucketInRange(g: Global)
    requires g.Ok() && g.gcstate == SweepString
    ensures g.sweepstrgc < |g.strt|
  {
    hide ShapeOk, LiveOk;
  }

  lemma InBucket(g: Global, i: nat)
    requires g.Ok() && g.gcstate == SweepString && g.sweepstrgc < |g.strt| && i < |g.strt[g.sweepstrgc]|
    ensures var o := g.strt[g.sweepstrgc][i]; o in g.objs && o in g.mark && o in g.strt[g.sweepstrgc]
    ensures NoDup(g.strt[g.sweepstrgc])
  {
    hide LiveOk, RootList, OpenLists, OpenRing, NoDup, Bucket, Global.Phase;
    var o := g.strt[g.sweepstrgc][i];
    assert o in g.strt[g.sweepstrgc];
  }

  lemma SweepsShrinks(g: Global, g': Global)
    requires Sweeps(g, g')
    ensures |g'.uvhead| <= |g.uvhead|
  {
    hide Swept;
  }

  lemma SweepsState(g: Global, g': Global, st: GcState)
    requires Sweeps(g, g')
    ensures Sweeps(g, g'.(gcstate := st))
  {
    hide Swept;
  }
}
