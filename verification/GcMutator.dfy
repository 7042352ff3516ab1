/**
  What the mutator does to the pieces of the global state: stores, allocations, captures, and
  the barriers that keep the collector's invariant.
 */
module GcMutator {
  import opened Wrappers
  import opened LuaHeap
  import opened GcInvariants
  import opened GcSweeping

  /** A value the program may hold: not a reference, or one to a live object. */
  ghost predicate LiveId(g: Global, o: Id) {
    o in g.objs && o in g.mark && !IsDead(g.mark, g.cw, o)
  }

  ghost predicate LiveValue(g: Global, v: Value) {
    v.Ref? ==> LiveId(g, v.id)
  }

  // ----- replacing the body of an object that is not a thread -----

  /** `b` may replace the body of a non-thread object: same kind, new references live. */
  ghost predicate Replaces(g: Global, o: Id, b: Body) {
    && o in g.objs && LiveId(g, o) && !g.objs[o].Thread? && !g.objs[o].Str? && !IsOpen(g.objs[o])
    && (g.objs[o].Udata? <==> b.Udata?) && (g.objs[o].Upval? <==> b.Upval?) && !IsOpen(b)
    && (g.objs[o].LClosure? <==> b.LClosure?) && (g.objs[o].CClosure? <==> b.CClosure?)
    && (g.objs[o].Table? <==> b.Table?) && (g.objs[o].Proto? <==> b.Proto?) && !b.Thread? && !b.Str?
    && (forall x :: Edge(g.objs[o := b], o, x) ==> Edge(g.objs, o, x) || LiveId(g, x))
  }

  lemma ReplacedEdge(g: Global, o: Id, b: Body, a: Id, x: Id)
    requires Replaces(g, o, b) && a != o
    ensures Edge(g.objs[o := b], a, x) <==> Edge(g.objs, a, x)
  {
    if a in g.objs && g.objs[a].Upval? {
      assert BoxValue(g.objs[o := b], g.objs[a].box) == BoxValue(g.objs, g.objs[a].box);
    }
  }

  lemma ReplaceShape(g: Global, o: Id, b: Body)
    requires g.Ok() && Replaces(g, o, b)
    ensures g.(objs := g.objs[o := b]).Shape()
    ensures SweptRoots(g.objs, g.mark, g.cw, g.rootgc, g.sweepgc) ==> SweptRoots(g.objs[o := b], g.mark, g.cw, g.rootgc, g.sweepgc)
  {
    hide Edge, LiveOk, NoDup, Bucket, OpenLists, MarkOk, SweptStrings;
    ReplaceOpenLists(g.objs, o, b);
    assert forall u, th :: OpenOn(g.objs[o := b], u, th) <==> OpenOn(g.objs, u, th);
  }

  lemma ReplaceOpenLists(objs: Heap, o: Id, b: Body)
    requires OpenLists(objs) && o in objs && !objs[o].Thread? && !IsOpen(objs[o]) && !b.Thread? && !IsOpen(b)
    ensures OpenLists(objs[o := b])
  {
    var objs' := objs[o := b];
    forall u | u in objs' && IsOpen(objs'[u]) ensures OnOpenList(objs', u) { assert OnOpenList(objs, u); }
    forall th | th in objs' && objs'[th].Thread? ensures OpenList(objs', th, objs'[th].openupval) {
      OpenListFrame(objs, objs', th, objs[th].openupval);
    }
  }

  lemma ReplaceLive(g: Global, o: Id, b: Body)
    requires g.Ok() && Replaces(g, o, b)
    ensures g.(objs := g.objs[o := b]).Live()
  {
    hide Edge, ShapeOk, Global.Phase, RootSet;
    var objs' := g.objs[o := b];
    forall a, x | Edge(objs', a, x) && !IsDead(g.mark, g.cw, a) ensures x in objs' && !IsDead(g.mark, g.cw, x) {
      if a != o { ReplacedEdge(g, o, b, a, x); }
      assert Edge(g.objs, a, x) || LiveId(g, x);
    }
  }

  /** In the mark phase the invariant holds with `o` excepted, and without exception unless
      `o` is black. */
  lemma ReplaceMark(g: Global, o: Id, b: Body)
    requires g.Ok() && g.gcstate == Propagate && Replaces(g, o, b)
    ensures g.(objs := g.objs[o := b]).MarkInv(g.Deferred() + {o})
    ensures !IsBlack(g.mark, o) ==> g.(objs := g.objs[o := b]).MarkInv(g.Deferred())
  {
    hide Edge, StrongEdge, ShapeOk, LiveOk, NoDup;
    var objs' := g.objs[o := b];
    forall a, x | Edge(objs', a, x) ensures x in objs' && (a != o ==> Edge(g.objs, a, x)) {
      if a != o { ReplacedEdge(g, o, b, a, x); }
      assert Edge(g.objs, a, x) || LiveId(g, x);
    }
    RingHas(g);
    TriFromBlack(objs', g.mark, g.modeName, g.gray, g.grayagain, g.weak, g.uvhead, {o});
    if !IsBlack(g.mark, o) {
      TriFromBlack(objs', g.mark, g.modeName, g.gray, g.grayagain, g.weak, g.uvhead, {});
    }
  }

  lemma RingHas(g: Global)
    requires g.Ok()
    ensures forall u :: u in g.objs && IsOpen(g.objs[u]) ==> u in g.uvhead
  {
    hide NoDup, OpenLists, StringTable, LiveOk, Global.Phase;
  }

  /** Gray objects are all awaiting a traversal, so only black ones constrain their references. */
  lemma TriFromBlack(objs: Heap, mark: Marks, modeName: Id, gray: seq<Id>, grayagain: seq<Id>, weak: seq<Id>,
                     uvhead: seq<Id>, x: set<Id>)
    requires mark.Keys == objs.Keys
    requires GrayTracked(objs, mark, gray, grayagain, weak, DeferredSet(grayagain, weak, uvhead))
    requires NoBlackToWhite(objs, mark, DeferredSet(grayagain, weak, uvhead) + x)
    requires forall u :: u in objs && IsOpen(objs[u]) ==> u in uvhead
    ensures TriColor(objs, mark, modeName, gray, DeferredSet(grayagain, weak, uvhead) + x)
  {
    hide Edge, StrongEdge;
    forall a, b | StrongEdge(objs, modeName, a, b) && NonWhite(mark, a) && a !in gray && a !in DeferredSet(grayagain, weak, uvhead) + x
      ensures NonWhite(mark, b)
    {
      StrongFrom(objs, modeName, a, b);
    }
  }

  lemma StrongFrom(objs: Heap, modeName: Id, a: Id, b: Id)
    requires StrongEdge(objs, modeName, a, b)
    ensures a in objs && Edge(objs, a, b) && !objs[a].Str?
  {
  }

  /** The store outside the mark phase needs no barrier. */
  lemma ReplaceOk(g: Global, o: Id, b: Body)
    requires g.Ok() && g.gcstate != Propagate && Replaces(g, o, b)
    ensures g.(objs := g.objs[o := b]).Ok()
  {
    hide Replaces, ShapeOk, LiveOk;
    ReplaceShape(g, o, b);
    ReplaceLive(g, o, b);
  }

  /** The backward barrier: a black table is gray again and waits for the atomic step.  In the
      mark phase `x` is what the table was excepted for. */
  function BlackToGray(g: Global, t: Id): Global
    requires t in g.mark
  {
    g.(mark := Paint(g.mark, t, Gray), grayagain := [t] + g.grayagain)
  }

  lemma BarrierBackMark(g: Global, t: Id)
    requires g.MarkInv(g.Deferred() + {t}) && IsBlack(g.mark, t) && t in g.objs && g.objs[t].Table?
    ensures BlackToGray(g, t).MarkInv(BlackToGray(g, t).Deferred())
  {
    hide Edge, StrongEdge, NoDup;
    var g' := BlackToGray(g, t);
    NotListed(g.objs, g.mark, g.cw, g.modeName, g.gray, g.grayagain, g.weak, g.Deferred() + {t}, t);
    PushNoDup(g.grayagain, t);
    assert g.Deferred() + {t} <= g'.Deferred() by { ElemsPush(g.grayagain, t); }
  }

  lemma ElemsPush(s: seq<Id>, x: Id)
    ensures Elems([x] + s) == Elems(s) + {x}
  {
    forall y ensures y in Elems([x] + s) <==> y in Elems(s) + {x} {
      assert y in [x] + s <==> y == x || y in s;
    }
  }

  /** Moving between gray and black makes nothing dead and nothing alive. */
  lemma DarkLive(g: Global, o: Id, c: Color)
    requires g.Shape() && g.Live() && o in g.mark && !g.mark[o].color.White? && !c.White?
    requires c.Black? ==> o in g.objs && !g.objs[o].Thread? && !IsOpen(g.objs[o]) && !g.objs[o].Str?
    ensures g.(mark := Paint(g.mark, o, c)).Shape() && g.(mark := Paint(g.mark, o, c)).Live()
  {
    hide Edge, OpenLists, OpenRing, RootList, StringTable, NoDup;
  }

  /** The backward barrier in the sweep phases only spares further barriers. */
  lemma BarrierBackSweep(g: Global, t: Id)
    requires g.Ok() && g.gcstate != Propagate && IsBlack(g.mark, t) && t in g.objs && g.objs[t].Table?
    ensures BlackToGray(g, t).Ok()
  {
    hide Edge, OpenLists, OpenRing, RootList, StringTable, NoDup, ShapeOk, LiveOk;
    DarkLive(g, t, Gray);
    SweepDark(g, t);
  }

  lemma SweepDark(g: Global, t: Id)
    requires g.Ok() && g.gcstate != Propagate && IsBlack(g.mark, t)
    ensures BlackToGray(g, t).Phase()
  {
    hide ShapeOk, LiveOk;
    var m := Paint(g.mark, t, Gray);
    assert forall o :: IsCurrent(g.mark, g.cw, o) ==> IsCurrent(m, g.cw, o);
  }

  lemma MarkPhaseOk(g: Global, g': Global)
    requires g.Ok() && g.gcstate == Propagate && g'.gcstate == Propagate && g'.Shape() && g'.Live() && g'.MarkInv(g'.Deferred())
    requires g'.main == g.main && g'.registry == g.registry
    requires forall o :: NonWhite(g.mark, o) ==> NonWhite(g'.mark, o)
    ensures g'.Ok()
  {
    hide ShapeOk, LiveOk, MarkOk;
  }

  /** A store into a black object that adds only marked references needs no barrier. */
  lemma ReplaceBlack(g: Global, o: Id, b: Body)
    requires g.Ok() && g.gcstate == Propagate && Replaces(g, o, b)
    requires forall x :: Edge(g.objs[o := b], o, x) ==> Edge(g.objs, o, x) || NonWhite(g.mark, x)
    ensures g.(objs := g.objs[o := b]).MarkInv(g.Deferred())
  {
    hide Edge, StrongEdge, ShapeOk, LiveOk, NoDup;
    ReplaceMark(g, o, b);
    var objs' := g.objs[o := b];
    forall a, x | Edge(objs', a, x) && IsBlack(g.mark, a) && a !in g.Deferred() ensures NonWhite(g.mark, x) {
      if a != o { ReplacedEdge(g, o, b, a, x); }
      assert Edge(g.objs, a, x) || NonWhite(g.mark, x);
    }
    RingHas(g);
    assert forall u :: u in objs' && IsOpen(objs'[u]) ==> u in g.objs && IsOpen(g.objs[u]);
    ReplaceTracked(g, o, b);
    TriFromBlack(objs', g.mark, g.modeName, g.gray, g.grayagain, g.weak, g.uvhead, {});
    assert g.Deferred() + {} == g.Deferred();
  }

  lemma ReplaceTracked(g: Global, o: Id, b: Body)
    requires g.Ok() && g.gcstate == Propagate && Replaces(g, o, b)
    ensures GrayTracked(g.objs[o := b], g.mark, g.gray, g.grayagain, g.weak, g.Deferred())
  {
    hide Edge, StrongEdge, ShapeOk, LiveOk, NoDup;
  }

  /** What a table with `k` set to `v` refers to. */
  function SetEntry(es: map<Value, Value>, k: Value, v: Value): map<Value, Value> {
    if v.Nil? then es - {k} else es[k := v]
  }

  lemma SetEntryEdges(objs: Heap, t: Id, k: Value, v: Value, x: Id)
    requires t in objs && objs[t].Table?
    requires Edge(objs[t := objs[t].(entries := SetEntry(objs[t].entries, k, v))], t, x)
    ensures Edge(objs, t, x) || (k == Ref(x) && k !in objs[t].entries) || v == Ref(x)
  {
  }

  lemma StoreTableReplaces(g: Global, t: Id, k: Value, v: Value)
    requires g.Ok() && LiveId(g, t) && g.objs[t].Table? && LiveValue(g, k) && LiveValue(g, v)
    ensures Replaces(g, t, g.objs[t].(entries := SetEntry(g.objs[t].entries, k, v)))
  {
    hide Edge, Global.Ok, IsDead;
    var b := g.objs[t].(entries := SetEntry(g.objs[t].entries, k, v));
    forall x | Edge(g.objs[t := b], t, x) ensures Edge(g.objs, t, x) || LiveId(g, x) { SetEntryEdges(g.objs, t, k, v, x); }
  }

  predicate WhiteValue(mark: Marks, v: Value) {
    v.Ref? && IsWhite(mark, v.id)
  }

  lemma BarrierBackOk(g: Global, t: Id)
    requires g.Ok() && IsBlack(g.mark, t) && t in g.objs && g.objs[t].Table?
    ensures BlackToGray(g, t).Ok()
  {
    hide Edge, ShapeOk, LiveOk, MarkOk;
    if g.gcstate == Propagate {
      WidenException(g.objs, g.mark, g.cw, g.modeName, g.gray, g.grayagain, g.weak, g.Deferred(), g.Deferred() + {t});
      BarrierBackMark(g, t);
      DarkLive(g, t, Gray);
    } else {
      BarrierBackSweep(g, t);
    }
  }

  lemma StillLive(g: Global, g': Global, t: Id)
    requires g.Ok() && LiveId(g, t) && (g' == g || (t in g.mark && IsBlack(g.mark, t) && g' == BlackToGray(g, t)))
    ensures LiveId(g', t)
  {
    hide Global.Ok;
  }

  lemma StillLiveValue(g: Global, g': Global, t: Id, v: Value)
    requires LiveValue(g, v) && (g' == g || (t in g.mark && IsBlack(g.mark, t) && g' == BlackToGray(g, t)))
    ensures LiveValue(g', v)
  {
  }

  /** The state after a table store, barrier included. */
  lemma StoreBack(g: Global, t: Id, b: Body, v: Value)
    requires g.Ok() && Replaces(g, t, b) && b.Table?
    requires IsBlack(g.mark, t) ==> forall x :: Edge(g.objs[t := b], t, x) ==> Edge(g.objs, t, x) || NonWhite(g.mark, x) || v == Ref(x)
    ensures var g' := g.(objs := g.objs[t := b]);
            t in g.mark && if WhiteValue(g.mark, v) && IsBlack(g.mark, t) then BlackToGray(g', t).Ok() else g'.Ok()
  {
    hide Edge, ShapeOk, LiveOk, MarkOk, NoDup;
    var g' := g.(objs := g.objs[t := b]);
    ReplaceShape(g, t, b);
    ReplaceLive(g, t, b);
    if g.gcstate == Propagate {
      if !IsBlack(g.mark, t) {
        ReplaceMark(g, t, b);
      } else if WhiteValue(g.mark, v) {
        ReplaceMark(g, t, b);
        BarrierBackMark(g', t);
        DarkLive(g', t, Gray);
      } else {
        forall x | Edge(g.objs[t := b], t, x) ensures Edge(g.objs, t, x) || NonWhite(g.mark, x) {
          if v == Ref(x) { assert LiveId(g, x) || Edge(g.objs, t, x); }
        }
        ReplaceBlack(g, t, b);
      }
    } else {
      ReplaceOk(g, t, b);
      if WhiteValue(g.mark, v) && IsBlack(g.mark, t) {
        BarrierBackSweep(g', t);
      }
    }
  }

  lemma StoreTableOk(g: Global, t: Id, k: Value, v: Value)
    requires g.Ok() && LiveId(g, t) && g.objs[t].Table? && LiveValue(g, k) && LiveValue(g, v)
    requires k !in g.objs[t].entries && WhiteValue(g.mark, k) ==> !IsBlack(g.mark, t)
    ensures var g' := g.(objs := g.objs[t := g.objs[t].(entries := SetEntry(g.objs[t].entries, k, v))]);
            if WhiteValue(g.mark, v) && IsBlack(g.mark, t) then BlackToGray(g', t).Ok() else g'.Ok()
  {
    hide Edge, Global.Ok, IsDead;
    var b := g.objs[t].(entries := SetEntry(g.objs[t].entries, k, v));
    StoreTableReplaces(g, t, k, v);
    if IsBlack(g.mark, t) {
      forall x | Edge(g.objs[t := b], t, x) ensures Edge(g.objs, t, x) || NonWhite(g.mark, x) || v == Ref(x) {
        SetEntryEdges(g.objs, t, k, v, x);
      }
    }
    StoreBack(g, t, b, v);
  }

  lemma StoreMetaOk(g: Global, t: Id, m: Option<Id>)
    requires g.Ok() && LiveId(g, t) && g.objs[t].Table? && (m.Some? ==> LiveId(g, m.value))
    ensures var g' := g.(objs := g.objs[t := g.objs[t].(meta := m)]);
            if m.Some? && WhiteValue(g.mark, Ref(m.value)) && IsBlack(g.mark, t) then BlackToGray(g', t).Ok() else g'.Ok()
  {
    hide Global.Ok, IsDead;
    var b := g.objs[t].(meta := m);
    var v := if m.Some? then Ref(m.value) else Nil;
    forall x | Edge(g.objs[t := b], t, x) ensures Edge(g.objs, t, x) || v == Ref(x) {}
    StoreBack(g, t, b, v);
  }

  // ----- forward barrier -----

  /** The new body adds at most a reference to `v`. */
  ghost predicate AddsOnly(g: Global, o: Id, b: Body, v: Value)
    requires o in g.objs
  {
    LiveValue(g, v) && forall x :: Edge(g.objs[o := b], o, x) ==> Edge(g.objs, o, x) || v == Ref(x)
  }

  lemma ForwardStart(g: Global, o: Id, b: Body, v: Value)
    requires g.Ok() && g.gcstate == Propagate && Replaces(g, o, b) && AddsOnly(g, o, b, v) && v.Ref?
    ensures g.(objs := g.objs[o := b]).MarkInv(g.Deferred() + {o}) && v.id in g.objs[o := b]
  {
    hide Edge, ShapeOk, LiveOk, MarkOk;
    ReplaceMark(g, o, b);
  }

  /** After the value has been marked the black object needs no exception. */
  lemma ForwardDone(g: Global, o: Id, b: Body, v: Value, g2: Global)
    requires g.Ok() && g.gcstate == Propagate && Replaces(g, o, b) && AddsOnly(g, o, b, v) && v.Ref?
    requires Gains(g.(objs := g.objs[o := b]), g2) && g2.MarkInv(g.Deferred() + {o}) && NonWhite(g2.mark, v.id)
    requires IsBlack(g.mark, o) && !b.Table?
    ensures g2.Ok()
  {
    hide Edge, ShapeOk, LiveOk, MarkOk, Replaces;
    var g1 := g.(objs := g.objs[o := b]);
    ReplaceShape(g, o, b);
    ReplaceLive(g, o, b);
    GainsWhite(g1, g2);
    BlackEdges(g, o, b, v, g2);
    NotListed(g2.objs, g2.mark, g2.cw, g2.modeName, g2.gray, g2.grayagain, g2.weak, g.Deferred() + {o}, o);
    BodyDark(g, o, b);
    Settle(g2.objs, g2.mark, g2.cw, g2.modeName, g2.gray, g2.grayagain, g2.weak, g.Deferred(), o, Black);
    assert Paint(g2.mark, o, Black) == g2.mark;
    MarkOkNoneDead(g.objs, g.mark, g.cw, g.modeName, g.gray, g.grayagain, g.weak, g.Deferred());
    GainsLive(g1, g2, g.Deferred());
    MarkPhaseOk(g, g2);
  }

  lemma BodyDark(g: Global, o: Id, b: Body)
    requires Replaces(g, o, b)
    ensures !b.Thread? && !IsOpen(b) && !b.Str?
  {
    hide Edge;
  }

  lemma BlackEdges(g: Global, o: Id, b: Body, v: Value, g2: Global)
    requires g.Ok() && g.gcstate == Propagate && Replaces(g, o, b) && AddsOnly(g, o, b, v) && v.Ref?
    requires Gains(g.(objs := g.objs[o := b]), g2) && NonWhite(g2.mark, v.id) && IsBlack(g.mark, o)
    ensures IsBlack(g2.mark, o) && forall x :: Edge(g2.objs, o, x) ==> NonWhite(g2.mark, x)
  {
    hide Edge, StrongEdge, ShapeOk, LiveOk, NoDup;
    GainsWhite(g.(objs := g.objs[o := b]), g2);
    BlackNotDeferred(g, o);
    forall x | Edge(g2.objs, o, x) ensures NonWhite(g2.mark, x) {
      assert Edge(g.objs, o, x) || v == Ref(x);
      if Edge(g.objs, o, x) { assert NonWhite(g.mark, x); }
    }
  }

  lemma BlackNotDeferred(g: Global, o: Id)
    requires g.Ok() && g.gcstate == Propagate && IsBlack(g.mark, o)
    ensures o !in g.Deferred()
  {
    hide Edge, StrongEdge, NoDup, OpenLists, RootList, StringTable;
    NotListed(g.objs, g.mark, g.cw, g.modeName, g.gray, g.grayagain, g.weak, g.Deferred(), o);
    assert o in g.objs;
    assert o !in g.uvhead;
  }

  /** Marking keeps the shape and liveness. */
  lemma GainsLive(g: Global, g': Global, x: set<Id>)
    requires g.Shape() && g.Live() && Gains(g, g') && g'.MarkInv(x) && NoneDead(g.mark, g.cw)
    ensures g'.Shape() && g'.Live()
  {
    hide Edge, OpenLists, RootList, StringTable, OpenRing, NoDup, MarkOk;
    MarkOkNoneDead(g'.objs, g'.mark, g'.cw, g'.modeName, g'.gray, g'.grayagain, g'.weak, x);
    MarkedLive(g.objs, g.mark, g'.mark, g.cw, g.Roots());
  }

  lemma BlackNotDead(g: Global, o: Id)
    requires g.Ok() && IsBlack(g.mark, o)
    ensures !IsDoomed(g.mark, g.cw, o) && (g.gcstate == Propagate || Sweeping(g))
  {
    hide ShapeOk, LiveOk, MarkOk;
  }

  /** A store that triggers no barrier. */
  lemma StoreQuiet(g: Global, o: Id, b: Body, v: Value)
    requires g.Ok() && Replaces(g, o, b) && AddsOnly(g, o, b, v) && !(WhiteValue(g.mark, v) && IsBlack(g.mark, o))
    ensures g.(objs := g.objs[o := b]).Ok()
  {
    hide Edge, ShapeOk, LiveOk, MarkOk, NoDup;
    ReplaceShape(g, o, b);
    ReplaceLive(g, o, b);
    if g.gcstate == Propagate {
      if !IsBlack(g.mark, o) {
        ReplaceMark(g, o, b);
      } else {
        forall x | Edge(g.objs[o := b], o, x) ensures Edge(g.objs, o, x) || NonWhite(g.mark, x) {
          if v == Ref(x) { assert LiveId(g, x); }
        }
        ReplaceBlack(g, o, b);
      }
    } else {
      ReplaceOk(g, o, b);
    }
  }

  // ----- writing a stack -----

  function SetStack(g: Global, th: Id, st: seq<Value>): Global
    requires th in g.objs && g.objs[th].Thread?
  {
    g.(objs := g.objs[th := g.objs[th].(stack := st)])
  }

  /** `st` may replace the stack of `th`: new values are live and no captured slot is lost. */
  ghost predicate Restacks(g: Global, th: Id, st: seq<Value>)
    requires th in g.objs && g.objs[th].Thread?
  {
    && (forall i :: 0 <= i < |st| ==> (i < |g.objs[th].stack| && st[i] == g.objs[th].stack[i]) || LiveValue(g, st[i]))
    && (forall u :: OpenOn(g.objs, u, th) ==> Level(g.objs, u) < |st|)
  }

  lemma StackEdge(g: Global, th: Id, st: seq<Value>, a: Id, x: Id)
    requires g.Ok() && th in g.objs && g.objs[th].Thread? && Restacks(g, th, st)
    requires Edge(SetStack(g, th, st).objs, a, x)
    ensures a in g.objs && (Edge(g.objs, a, x) || (LiveId(g, x) && (a == th || IsOpen(g.objs[a]))))
  {
    var objs' := SetStack(g, th, st).objs;
    OkOpen(g);
    if a == th {
      if g.objs[th].gt != Ref(x) {
        var i :| 0 <= i < |st| && st[i] == Ref(x);
        if i < |g.objs[th].stack| && st[i] == g.objs[th].stack[i] { assert Ref(x) in g.objs[th].stack; }
      }
    } else if IsOpen(g.objs[a]) && g.objs[a].box.th == th {
      assert OnOpenList(g.objs, a) && OpenOn(g.objs, a, th);
      var level := g.objs[a].box.level;
      assert st[level] == Ref(x);
    }
  }

  lemma StackOk(g: Global, th: Id, st: seq<Value>)
    requires g.Ok() && th in g.objs && g.objs[th].Thread? && Restacks(g, th, st)
    ensures SetStack(g, th, st).Ok()
  {
    hide Edge, Global.Ok, Restacks;
    StackShape(g, th, st);
    StackLive(g, th, st);
    StackPhase(g, th, st);
    AllParts(SetStack(g, th, st));
  }

  lemma AllParts(g: Global)
    requires g.Shape() && g.Live() && g.Phase()
    ensures g.Ok()
  {
    hide Global.Shape, Global.Live, Global.Phase;
  }

  lemma StackShape(g: Global, th: Id, st: seq<Value>)
    requires g.Ok() && th in g.objs && g.objs[th].Thread? && Restacks(g, th, st)
    ensures SetStack(g, th, st).Shape()
  {
    hide Edge, LiveOk, NoDup, Bucket, MarkOk, Global.Phase, OpenLists, Restacks;
    StackOpenLists(g, th, st);
  }

  lemma StackOpenLists(g: Global, th: Id, st: seq<Value>)
    requires OpenLists(g.objs) && th in g.objs && g.objs[th].Thread? && Restacks(g, th, st)
    ensures OpenLists(SetStack(g, th, st).objs)
  {
    hide OpenList;
    var objs' := SetStack(g, th, st).objs;
    forall u | u in objs' && IsOpen(objs'[u]) ensures OnOpenList(objs', u) {
      assert OnOpenList(g.objs, u);
      assert OpenOn(g.objs, u, g.objs[u].box.th);
    }
    forall t | t in objs' && objs'[t].Thread? ensures OpenList(objs', t, objs'[t].openupval) {
      assert OpenList(g.objs, t, g.objs[t].openupval);
      OpenListFrame(g.objs, objs', t, g.objs[t].openupval);
    }
  }

  lemma StackLive(g: Global, th: Id, st: seq<Value>)
    requires g.Ok() && th in g.objs && g.objs[th].Thread? && Restacks(g, th, st)
    ensures SetStack(g, th, st).Live()
  {
    hide Edge, ShapeOk, Restacks, Global.Phase, RootSet;
    var objs' := SetStack(g, th, st).objs;
    forall a, x | Edge(objs', a, x) && !IsDead(g.mark, g.cw, a) ensures x in objs' && !IsDead(g.mark, g.cw, x) {
      StackEdge(g, th, st, a, x);
    }
  }

  lemma StackPhase(g: Global, th: Id, st: seq<Value>)
    requires g.Ok() && th in g.objs && g.objs[th].Thread? && Restacks(g, th, st)
    ensures SetStack(g, th, st).Phase()
  {
    hide Edge, StrongEdge, ShapeOk, LiveOk, Restacks, NoDup;
    var objs' := SetStack(g, th, st).objs;
    if g.gcstate == Propagate {
      MarkOkNoneDead(g.objs, g.mark, g.cw, g.modeName, g.gray, g.grayagain, g.weak, g.Deferred());
      forall a, x | Edge(objs', a, x) ensures x in objs' && (IsBlack(g.mark, a) ==> Edge(g.objs, a, x)) {
        StackEdge(g, th, st, a, x);
      }
      RingHas(g);
      TriFromBlack(objs', g.mark, g.modeName, g.gray, g.grayagain, g.weak, g.uvhead, {});
      assert g.Deferred() + {} == g.Deferred();
    } else if g.gcstate == Sweep {
      assert forall u, t :: OpenOn(objs', u, t) <==> OpenOn(g.objs, u, t);
    }
  }

  // ----- allocation -----

  /** What a fresh object may look like: its references are live. */
  ghost predicate Fresh(g: Global, b: Body) {
    && !b.Str? && !IsOpen(b) && (b.Thread? ==> b.openupval == [])
    && forall x :: Edge(map[g.nextId := b], g.nextId, x) ==> LiveId(g, x)
  }

  function InsertAt(s: seq<Id>, q: nat, x: Id): seq<Id>
    requires q <= |s|
  {
    s[..q] + [x] + s[q..]
  }

  /** A new white object linked into the root list at position `q`. */
  function Allocated(g: Global, b: Body, q: nat): Global
    requires q <= |g.rootgc|
  {
    g.(objs := g.objs[g.nextId := b], mark := g.mark[g.nextId := Mark(White(g.cw), false)],
       rootgc := InsertAt(g.rootgc, q, g.nextId), sweepgc := if q < g.sweepgc then g.sweepgc + 1 else g.sweepgc,
       nextId := g.nextId + 1)
  }

  lemma FreshEdge(g: Global, b: Body, a: Id, x: Id)
    requires g.Ok() && Fresh(g, b) && Edge(g.objs[g.nextId := b], a, x)
    ensures if a == g.nextId then LiveId(g, x) else Edge(g.objs, a, x)
  {
    OkOpen(g);
    FreshId(g);
    if a == g.nextId {
      assert Edge(map[g.nextId := b], g.nextId, x);
    } else if IsOpen(g.objs[a]) {
      assert OnOpenList(g.objs, a);
    }
  }

  lemma FreshId(g: Global)
    requires g.Ok()
    ensures g.nextId !in g.objs && g.nextId !in g.mark
  {
    hide LiveOk, OpenLists, StringTable, OpenRing, RootList, Global.Phase;
  }

  lemma AllocShape(g: Global, b: Body, q: nat)
    requires g.Ok() && Fresh(g, b) && q <= |g.rootgc|
    ensures Allocated(g, b, q).Shape()
  {
    hide Edge, LiveOk, NoDup, Bucket, MarkOk, Global.Phase, OpenLists;
    FreshId(g);
    AllocOpenLists(g.objs, g.nextId, b);
    assert g.nextId !in g.rootgc;
    InsertElems(g.rootgc, q, g.nextId);
  }

  lemma AllocOpenLists(objs: Heap, n: Id, b: Body)
    requires OpenLists(objs) && n !in objs && !IsOpen(b) && (b.Thread? ==> b.openupval == [])
    ensures OpenLists(objs[n := b])
  {
    var objs' := objs[n := b];
    forall u | u in objs' && IsOpen(objs'[u]) ensures OnOpenList(objs', u) { assert OnOpenList(objs, u); }
    forall t | t in objs' && objs'[t].Thread? ensures OpenList(objs', t, objs'[t].openupval) {
      if t != n { OpenListFrame(objs, objs', t, objs[t].openupval); }
    }
  }

  lemma StringsStaySwept(mark: Marks, mark': Marks, cw: bool, strt: seq<seq<Id>>, n: nat)
    requires SweptStrings(mark, cw, strt, n) && forall o :: IsCurrent(mark, cw, o) ==> IsCurrent(mark', cw, o)
    ensures SweptStrings(mark', cw, strt, n)
  {
    hide IsCurrent;
  }

  lemma InsertElems(s: seq<Id>, q: nat, x: Id)
    requires q <= |s| && NoDup(s) && x !in s
    ensures NoDup(InsertAt(s, q, x)) && forall y :: y in InsertAt(s, q, x) <==> y in s || y == x
  {
    var t := InsertAt(s, q, x);
    assert s == s[..q] + s[q..];
    assert forall i :: 0 <= i < |t| ==> t[i] == if i < q then s[i] else if i == q then x else s[i - 1];
    forall y ensures y in t <==> y in s || y == x {
      assert y in s <==> y in s[..q] || y in s[q..];
    }
    forall i, j | 0 <= i < j < |t| ensures t[i] != t[j] {
      if i == q { assert t[j] in s; }
      if j == q { assert t[i] in s; }
    }
  }

  lemma AllocLive(g: Global, b: Body, q: nat)
    requires g.Ok() && Fresh(g, b) && q <= |g.rootgc|
    ensures Allocated(g, b, q).Live()
  {
    hide Edge, ShapeOk, Fresh, Global.Phase, RootSet;
    FreshId(g);
    var g' := Allocated(g, b, q);
    forall a, x | Edge(g'.objs, a, x) && !IsDead(g'.mark, g'.cw, a) ensures x in g'.objs && !IsDead(g'.mark, g'.cw, x) {
      FreshEdge(g, b, a, x);
    }
  }

  lemma AllocPhase(g: Global, b: Body, q: nat)
    requires g.Ok() && Fresh(g, b) && q <= |g.rootgc|
    ensures Allocated(g, b, q).Phase()
  {
    hide Edge, StrongEdge, ShapeOk, LiveOk, NoDup, Fresh;
    FreshId(g);
    OkOpen(g);
    var g' := Allocated(g, b, q);
    if g.gcstate == Propagate {
      forall a, x | Edge(g'.objs, a, x) ensures x in g'.objs && (a != g.nextId ==> Edge(g.objs, a, x)) {
        FreshEdge(g, b, a, x);
      }
      RingHas(g);
      FreshOpen(g, b);
      TriFromBlack(g'.objs, g'.mark, g.modeName, g.gray, g.grayagain, g.weak, g.uvhead, {});
      assert g.Deferred() + {} == g.Deferred();
    } else if g.gcstate == Sweep {
      AllocSwept(g, b, q);
    } else if g.gcstate == SweepString {
      StringsStaySwept(g.mark, g'.mark, g.cw, g.strt, g.sweepstrgc);
    }
  }

  lemma FreshOpen(g: Global, b: Body)
    requires Fresh(g, b)
    ensures !IsOpen(b)
  {
    hide Edge;
  }

  lemma AllocSwept(g: Global, b: Body, q: nat)
    requires g.Ok() && g.gcstate == Sweep && Fresh(g, b) && q <= |g.rootgc|
    ensures var g' := Allocated(g, b, q);
            SweptStrings(g'.mark, g.cw, g.strt, |g.strt|) && SweptRoots(g'.objs, g'.mark, g.cw, g'.rootgc, g'.sweepgc)
  {
    hide Edge, ShapeOk, LiveOk, NoDup, Fresh;
    FreshId(g);
    var g' := Allocated(g, b, q);
    assert forall o :: IsCurrent(g.mark, g.cw, o) ==> IsCurrent(g'.mark, g.cw, o);
    StringsStaySwept(g.mark, g'.mark, g.cw, g.strt, |g.strt|);
    forall i | 0 <= i < g'.sweepgc && i < |g'.rootgc| ensures IsCurrent(g'.mark, g.cw, g'.rootgc[i]) {
      InsertedAt(g.rootgc, q, g.nextId, i);
      if i != q { assert IsCurrent(g.mark, g.cw, g.rootgc[if i < q then i else i - 1]); }
    }
    forall i, u | 0 <= i < g'.sweepgc && i < |g'.rootgc| && OpenOn(g'.objs, u, g'.rootgc[i]) ensures IsCurrent(g'.mark, g.cw, u) {
      AllocOpenOn(g, b, q, u, g'.rootgc[i]);
      InsertedAt(g.rootgc, q, g.nextId, i);
      var k := if i < q then i else i - 1;
      assert OpenOn(g.objs, u, g.rootgc[k]);
      assert IsCurrent(g.mark, g.cw, u);
    }
  }

  lemma AllocOpenOn(g: Global, b: Body, q: nat, u: Id, th: Id)
    requires g.Ok() && Fresh(g, b) && q <= |g.rootgc| && OpenOn(Allocated(g, b, q).objs, u, th)
    ensures OpenOn(g.objs, u, th) && th != g.nextId
  {
    hide Edge, LiveOk, Global.Phase;
    FreshId(g);
    OkOpen(g);
    assert OnOpenList(g.objs, u);
  }

  lemma AllocOk(g: Global, b: Body, q: nat)
    requires g.Ok() && Fresh(g, b) && q <= |g.rootgc|
    ensures Allocated(g, b, q).Ok()
  {
    hide Global.Ok, Fresh;
    AllocShape(g, b, q);
    AllocLive(g, b, q);
    AllocPhase(g, b, q);
    AllParts(Allocated(g, b, q));
  }

  // ----- bringing a dead object back -----

  function Revived(g: Global, o: Id): Global
    requires o in g.mark
  {
    g.(mark := MakeWhite(g.mark, g.cw, o))
  }

  /** A dead object handed to the mutator gets the current white, provided that what it refers
      to is live. */
  lemma ReviveOk(g: Global, o: Id)
    requires g.Ok() && o in g.objs && IsDead(g.mark, g.cw, o)
    requires forall x :: Edge(g.objs, o, x) ==> LiveId(g, x)
    ensures Revived(g, o).Ok()
  {
    hide Edge, StrongEdge, OpenLists, OpenRing, RootList, StringTable, NoDup;
    var m := MakeWhite(g.mark, g.cw, o);
    assert g.gcstate == SweepString || g.gcstate == Sweep by {
      if g.gcstate != SweepString && g.gcstate != Sweep {
        NotDead(g.objs, g.mark, g.cw, g.modeName, g.gray, g.grayagain, g.weak, g.Deferred(), o);
      }
    }
    assert forall p :: IsCurrent(g.mark, g.cw, p) ==> IsCurrent(m, g.cw, p);
    StringsStaySwept(g.mark, m, g.cw, g.strt, if g.gcstate == Sweep then |g.strt| else g.sweepstrgc);
  }

  // ----- strings -----

  function WithString(g: Global, chars: string): Global
    requires |g.strt| > 0
  {
    var b := Bucket(chars, |g.strt|);
    g.(objs := g.objs[g.nextId := Str(chars)], mark := g.mark[g.nextId := Mark(White(g.cw), false)],
       strt := g.strt[b := [g.nextId] + g.strt[b]], nextId := g.nextId + 1)
  }

  lemma NewStringOk(g: Global, chars: string)
    requires g.Ok() && |g.strt| > 0
    requires forall o :: o in g.strt[Bucket(chars, |g.strt|)] ==> o in g.objs && g.objs[o] != Str(chars)
    ensures WithString(g, chars).Ok()
  {
    hide Global.Ok;
    NewStringShape(g, chars);
    NewStringLive(g, chars);
    NewStringPhase(g, chars);
    AllParts(WithString(g, chars));
  }

  lemma NewStringShape(g: Global, chars: string)
    requires g.Ok() && |g.strt| > 0
    requires forall o :: o in g.strt[Bucket(chars, |g.strt|)] ==> o in g.objs && g.objs[o] != Str(chars)
    ensures WithString(g, chars).Shape()
  {
    hide Edge, LiveOk, Bucket, MarkOk, Global.Phase, OpenLists;
    FreshId(g);
    AllocOpenLists(g.objs, g.nextId, Str(chars));
    var b := Bucket(chars, |g.strt|);
    assert g.nextId !in g.strt[b];
    PushNoDup(g.strt[b], g.nextId);
    NewStringTable(g.objs, g.strt, g.nextId, chars);
  }

  lemma NewStringTable(objs: Heap, strt: seq<seq<Id>>, n: Id, chars: string)
    requires StringTable(objs, strt) && n !in objs
    requires forall o :: o in strt[Bucket(chars, |strt|)] ==> o in objs && objs[o] != Str(chars)
    ensures var b := Bucket(chars, |strt|); StringTable(objs[n := Str(chars)], strt[b := [n] + strt[b]])
  {
    hide Bucket;
    var b := Bucket(chars, |strt|);
    PushNoDup(strt[b], n);
    var objs', strt' := objs[n := Str(chars)], strt[b := [n] + strt[b]];
    forall c, o | 0 <= c < |strt'| && o in strt'[c] ensures o in objs' && objs'[o].Str? && Bucket(objs'[o].chars, |strt'|) == c {
      if o != n { assert o in strt[c]; }
    }
    forall o | o in objs' && objs'[o].Str? ensures o in strt'[Bucket(objs'[o].chars, |strt'|)] {
      if o != n { assert o in strt[Bucket(objs[o].chars, |strt|)]; }
    }
    forall o | o in objs && objs[o].Str? ensures objs[o].chars != chars {
      assert o in strt[Bucket(objs[o].chars, |strt|)];
    }
  }

  lemma NewStringLive(g: Global, chars: string)
    requires g.Ok() && |g.strt| > 0
    ensures WithString(g, chars).Live()
  {
    hide Edge, ShapeOk, Global.Phase, RootSet;
    FreshId(g);
    var g' := WithString(g, chars);
    forall a, x | Edge(g'.objs, a, x) && !IsDead(g'.mark, g'.cw, a) ensures x in g'.objs && !IsDead(g'.mark, g'.cw, x) {
      StringEdge(g, chars, a, x);
    }
  }

  lemma StringEdge(g: Global, chars: string, a: Id, x: Id)
    requires g.Ok() && Edge(g.objs[g.nextId := Str(chars)], a, x)
    ensures a in g.objs && a != g.nextId && Edge(g.objs, a, x)
  {
    OkOpen(g);
    FreshId(g);
    if a != g.nextId && IsOpen(g.objs[a]) { assert OnOpenList(g.objs, a); }
  }

  lemma NewStringPhase(g: Global, chars: string)
    requires g.Ok() && |g.strt| > 0
    ensures WithString(g, chars).Phase()
  {
    hide Edge, StrongEdge, ShapeOk, LiveOk, NoDup, Bucket, MarkOk;
    FreshId(g);
    OkOpen(g);
    var g' := WithString(g, chars);
    assert forall o :: IsCurrent(g.mark, g.cw, o) ==> IsCurrent(g'.mark, g.cw, o);
    if g.gcstate == Propagate {
      NewStringMark(g, chars);
    } else if g.gcstate == SweepString || g.gcstate == Sweep {
      NewStringSwept(g, chars, if g.gcstate == Sweep then |g.strt| else g.sweepstrgc);
      assert forall u, th :: OpenOn(g'.objs, u, th) ==> OpenOn(g.objs, u, th);
    }
  }

  lemma NewStringMark(g: Global, chars: string)
    requires g.Ok() && |g.strt| > 0 && g.gcstate == Propagate
    ensures WithString(g, chars).MarkInv(WithString(g, chars).Deferred())
  {
    hide Edge, StrongEdge, ShapeOk, LiveOk, NoDup, Bucket;
    FreshId(g);
    OkOpen(g);
    var g' := WithString(g, chars);
    forall a, x | Edge(g'.objs, a, x) ensures x in g'.objs && Edge(g.objs, a, x) && a != g.nextId { StringEdge(g, chars, a, x); }
    RingHas(g);
    TriFromBlack(g'.objs, g'.mark, g.modeName, g.gray, g.grayagain, g.weak, g.uvhead, {});
    assert g.Deferred() + {} == g.Deferred();
  }

  lemma NewStringSwept(g: Global, chars: string, n: nat)
    requires g.Ok() && |g.strt| > 0 && SweptStrings(g.mark, g.cw, g.strt, n)
    ensures SweptStrings(WithString(g, chars).mark, g.cw, WithString(g, chars).strt, n)
  {
    hide Edge, StrongEdge, ShapeOk, LiveOk, NoDup, Bucket, Global.Phase;
    FreshId(g);
    var g' := WithString(g, chars);
    forall b, o | 0 <= b < n && b < |g'.strt| && o in g'.strt[b] ensures IsCurrent(g'.mark, g.cw, o) {
      if o != g.nextId {
        assert o in g.strt[b];
        assert IsCurrent(g.mark, g.cw, o);
      }
    }
  }

  /** The string table may be rebuilt with any number of buckets outside the string sweep. */
  lemma ResizeOk(g: Global, strt: seq<seq<Id>>)
    requires g.Ok() && g.gcstate != SweepString && StringTable(g.objs, strt)
    ensures g.(strt := strt).Ok()
  {
    hide Edge, LiveOk, NoDup, Bucket, OpenLists, MarkOk, RootList;
    if g.gcstate == Sweep {
      forall b, o | 0 <= b < |strt| && o in strt[b] ensures IsCurrent(g.mark, g.cw, o) {
        assert o in g.objs && g.objs[o].Str?;
        var c := Bucket(g.objs[o].chars, |g.strt|);
        assert o in g.strt[c];
      }
    }
  }

  // ----- open upvalues -----

  /** A new open upvalue on slot `level` of thread `th`, at position `i` of its open list. */
  function WithUpval(g: Global, th: Id, level: nat, i: nat): Global
    requires th in g.objs && g.objs[th].Thread? && i <= |g.objs[th].openupval|
  {
    var n, l := g.nextId, g.objs[th].openupval;
    g.(objs := g.objs[th := g.objs[th].(openupval := InsertAt(l, i, n))][n := Upval(Open(th, level))],
       mark := g.mark[n := Mark(White(g.cw), false)], uvhead := [n] + g.uvhead, nextId := n + 1)
  }

  /** Position `i` of the open list is where level `level` belongs, and it is not there yet. */
  ghost predicate Fits(g: Global, th: Id, level: nat, i: nat)
    requires th in g.objs && g.objs[th].Thread?
  {
    var l := g.objs[th].openupval;
    && i <= |l| && level < |g.objs[th].stack|
    && (forall j :: 0 <= j < i ==> level < Level(g.objs, l[j]))
    && (forall j :: i <= j < |l| ==> Level(g.objs, l[j]) < level)
  }

  lemma NewUpvalOpen(g: Global, th: Id, level: nat, i: nat)
    requires g.Ok() && th in g.objs && g.objs[th].Thread? && i <= |g.objs[th].openupval| && Fits(g, th, level, i)
    ensures OpenLists(WithUpval(g, th, level, i).objs)
  {
    hide Global.Ok;
    OkOpen(g);
    FreshId(g);
    var n, objs' := g.nextId, WithUpval(g, th, level, i).objs;
    forall u | u in objs' && IsOpen(objs'[u]) ensures OnOpenList(objs', u) {
      InsertElem(g.objs[th].openupval, i, n, u);
      if u != n { assert OnOpenList(g.objs, u); }
    }
    forall t | t in objs' && objs'[t].Thread? ensures OpenList(objs', t, objs'[t].openupval) {
      if t == th {
        InsertedList(g, th, level, i);
      } else {
        OpenListFrame(g.objs, objs', t, g.objs[t].openupval);
      }
    }
  }

  lemma InsertElem(s: seq<Id>, q: nat, x: Id, y: Id)
    requires q <= |s|
    ensures y in InsertAt(s, q, x) <==> y in s || y == x
  {
    assert s == s[..q] + s[q..];
    assert y in s <==> y in s[..q] || y in s[q..];
  }

  lemma InsertedList(g: Global, th: Id, level: nat, i: nat)
    requires g.Ok() && th in g.objs && g.objs[th].Thread? && i <= |g.objs[th].openupval| && Fits(g, th, level, i)
    ensures OpenList(WithUpval(g, th, level, i).objs, th, InsertAt(g.objs[th].openupval, i, g.nextId))
  {
    hide Global.Ok, OpenOn, Level;
    OkOpen(g);
    var n, l, objs' := g.nextId, g.objs[th].openupval, WithUpval(g, th, level, i).objs;
    var l' := InsertAt(l, i, n);
    forall j | 0 <= j < |l'| ensures OpenOn(objs', l'[j], th) { InsertedMember(g, th, level, i, j); }
    forall j, k | 0 <= j < k < |l'| ensures Level(objs', l'[k]) < Level(objs', l'[j]) {
      InsertedMember(g, th, level, i, j);
      InsertedMember(g, th, level, i, k);
      var j', k' := if j < i then j else j - 1, if k < i then k else k - 1;
      assert j != i && k != i ==> Level(g.objs, l[k']) < Level(g.objs, l[j']);
      assert j == i ==> Level(g.objs, l[k']) < level;
      assert k == i ==> level < Level(g.objs, l[j']);
    }
  }

  lemma InsertedMember(g: Global, th: Id, level: nat, i: nat, j: nat)
    requires g.Ok() && th in g.objs && g.objs[th].Thread? && i <= |g.objs[th].openupval| && Fits(g, th, level, i)
    requires j <= |g.objs[th].openupval|
    ensures var l, objs' := g.objs[th].openupval, WithUpval(g, th, level, i).objs;
            var l' := InsertAt(l, i, g.nextId);
            OpenOn(objs', l'[j], th)
            && Level(objs', l'[j]) == if j < i then Level(g.objs, l[j]) else if j == i then level else Level(g.objs, l[j - 1])
  {
    hide Global.Ok, Fits;
    OkOpen(g);
    FreshId(g);
    InsertedAt(g.objs[th].openupval, i, g.nextId, j);
    if j != i {
      OpenAt(g.objs, th, if j < i then j else j - 1);
    }
  }

  lemma InsertedAt(s: seq<Id>, q: nat, x: Id, j: nat)
    requires q <= |s| && j <= |s|
    ensures InsertAt(s, q, x)[j] == if j < q then s[j] else if j == q then x else s[j - 1]
  {
  }

  lemma UpvalEdge(g: Global, th: Id, level: nat, i: nat, a: Id, x: Id)
    requires g.Ok() && th in g.objs && g.objs[th].Thread? && i <= |g.objs[th].openupval| && Fits(g, th, level, i) && LiveId(g, th)
    requires Edge(WithUpval(g, th, level, i).objs, a, x)
    ensures if a == g.nextId then LiveId(g, x) else a in g.objs && Edge(g.objs, a, x)
  {
    OkOpen(g);
    FreshId(g);
    if a == g.nextId {
      assert g.objs[th].stack[level] == Ref(x);
      assert Edge(g.objs, th, x);
      LiveNext(g, th, x);
    } else if IsOpen(g.objs[a]) {
      assert OnOpenList(g.objs, a);
    }
  }

  lemma LiveNext(g: Global, a: Id, x: Id)
    requires g.Ok() && LiveId(g, a) && Edge(g.objs, a, x)
    ensures LiveId(g, x)
  {
    hide Edge, ShapeOk, Global.Phase;
    OkOpen(g);
  }

  lemma NewUpvalOk(g: Global, th: Id, level: nat, i: nat)
    requires g.Ok() && th in g.objs && g.objs[th].Thread? && i <= |g.objs[th].openupval| && Fits(g, th, level, i) && LiveId(g, th)
    ensures WithUpval(g, th, level, i).Ok()
  {
    hide Global.Ok, Fits;
    NewUpvalShape(g, th, level, i);
    NewUpvalLive(g, th, level, i);
    NewUpvalPhase(g, th, level, i);
    AllParts(WithUpval(g, th, level, i));
  }

  lemma NewUpvalShape(g: Global, th: Id, level: nat, i: nat)
    requires g.Ok() && th in g.objs && g.objs[th].Thread? && i <= |g.objs[th].openupval| && Fits(g, th, level, i)
    ensures WithUpval(g, th, level, i).Shape()
  {
    hide Edge, LiveOk, Bucket, MarkOk, Global.Phase, OpenLists, NoDup;
    NewUpvalOpen(g, th, level, i);
    FreshId(g);
    assert g.nextId !in g.uvhead;
    PushNoDup(g.uvhead, g.nextId);
  }

  lemma NewUpvalLive(g: Global, th: Id, level: nat, i: nat)
    requires g.Ok() && th in g.objs && g.objs[th].Thread? && i <= |g.objs[th].openupval| && Fits(g, th, level, i) && LiveId(g, th)
    ensures WithUpval(g, th, level, i).Live()
  {
    hide Edge, ShapeOk, Global.Phase, RootSet;
    FreshId(g);
    var g' := WithUpval(g, th, level, i);
    forall a, x | Edge(g'.objs, a, x) && !IsDead(g'.mark, g'.cw, a) ensures x in g'.objs && !IsDead(g'.mark, g'.cw, x) {
      UpvalEdge(g, th, level, i, a, x);
    }
  }

  lemma NewUpvalPhase(g: Global, th: Id, level: nat, i: nat)
    requires g.Ok() && th in g.objs && g.objs[th].Thread? && i <= |g.objs[th].openupval| && Fits(g, th, level, i) && LiveId(g, th)
    ensures WithUpval(g, th, level, i).Phase()
  {
    hide Edge, StrongEdge, ShapeOk, LiveOk, NoDup, Fits;
    FreshId(g);
    OkOpen(g);
    var g' := WithUpval(g, th, level, i);
    assert forall o :: IsCurrent(g.mark, g.cw, o) ==> IsCurrent(g'.mark, g.cw, o);
    if g.gcstate == Propagate {
      NewUpvalMark(g, th, level, i);
    } else if g.gcstate == SweepString {
      StringsStaySwept(g.mark, g'.mark, g.cw, g.strt, g.sweepstrgc);
    } else if g.gcstate == Sweep {
      StringsStaySwept(g.mark, g'.mark, g.cw, g.strt, |g.strt|);
      forall k, u | 0 <= k < g.sweepgc && k < |g.rootgc| && OpenOn(g'.objs, u, g.rootgc[k]) ensures IsCurrent(g'.mark, g.cw, u) {
        if u != g.nextId {
          assert OpenOn(g.objs, u, g.rootgc[k]);
          assert IsCurrent(g.mark, g.cw, u);
        }
      }
    }
  }

  lemma NewUpvalMark(g: Global, th: Id, level: nat, i: nat)
    requires g.Ok() && g.gcstate == Propagate && th in g.objs && g.objs[th].Thread? && i <= |g.objs[th].openupval| && Fits(g, th, level, i) && LiveId(g, th)
    ensures WithUpval(g, th, level, i).MarkInv(WithUpval(g, th, level, i).Deferred())
  {
    hide Edge, StrongEdge, ShapeOk, LiveOk, NoDup, Fits, Global.Ok, MarkOk;
    FreshId(g);
    RingHas(g);
    ElemsPush(g.uvhead, g.nextId);
    var g' := WithUpval(g, th, level, i);
    assert g'.Deferred() == g.Deferred() + {g.nextId};
    OkClosed(g);
    forall a, x | Edge(g'.objs, a, x) ensures x in g'.objs && (a != g.nextId ==> Edge(g.objs, a, x)) {
      UpvalEdge(g, th, level, i, a, x);
      OkOpen(g);
    }
    NewUpvalMarks(g, th, level, i);
  }

  lemma OkClosed(g: Global)
    requires g.Ok() && g.gcstate == Propagate
    ensures g.mark.Keys == g.objs.Keys && HeapClosed(g.objs) && g.MarkInv(g.Deferred())
  {
    hide ShapeOk, LiveOk, Edge;
  }

  lemma NewUpvalMarks(g: Global, th: Id, level: nat, i: nat)
    requires g.MarkInv(g.Deferred()) && th in g.objs && g.objs[th].Thread? && i <= |g.objs[th].openupval|
    requires g.nextId !in g.objs && g.nextId !in g.mark
    requires forall u :: u in g.objs && IsOpen(g.objs[u]) ==> u in g.uvhead
    requires var g' := WithUpval(g, th, level, i);
             g'.Deferred() == g.Deferred() + {g.nextId}
             && forall a, x :: Edge(g'.objs, a, x) ==> x in g'.objs && (a != g.nextId ==> Edge(g.objs, a, x))
    ensures WithUpval(g, th, level, i).MarkInv(WithUpval(g, th, level, i).Deferred())
  {
    hide Edge, StrongEdge, NoDup, DeferredSet, InsertAt;
    var g' := WithUpval(g, th, level, i);
    assert forall u :: u in g'.objs && IsOpen(g'.objs[u]) ==> u in g'.uvhead;
    assert g'.Deferred() + {} == g'.Deferred();
    TriFromBlack(g'.objs, g'.mark, g.modeName, g.gray, g.grayagain, g.weak, g'.uvhead, {});
  }

  // ----- roots -----

  /** A live thread may become the running one. */
  lemma ResumeOk(g: Global, th: Id)
    requires g.Ok() && LiveId(g, th) && g.objs[th].Thread?
    ensures g.(running := th).Ok()
  {
    hide ShapeOk, MarkOk, Edge;
    forall r | r in g.(running := th).Roots() ensures r in g.objs && !IsDead(g.mark, g.cw, r) {
      assert r == th || r in g.Roots();
    }
  }

  lemma SetMtOk(g: Global, i: nat, m: Option<Id>)
    requires g.Ok() && i < |g.mt| && (m.Some? ==> LiveId(g, m.value))
    ensures g.(mt := g.mt[i := m]).Ok()
  {
    hide ShapeOk, MarkOk, Edge;
    var mt' := g.mt[i := m];
    forall r | r in g.(mt := mt').Roots() ensures r in g.objs && !IsDead(g.mark, g.cw, r) {
      if r != g.main && r != g.registry && r != g.running {
        var e :| e in mt' && e.Some? && e.value == r;
        assert e == m || e in g.mt;
        if e in g.mt { assert r in g.Roots(); }
      }
    }
  }

  /** Fixing a string: it will never be swept. */
  function Fixed(g: Global, s: Id): Global
    requires s in g.mark
  {
    g.(mark := g.mark[s := g.mark[s].(fixed := true)])
  }

  lemma FixOk(g: Global, s: Id)
    requires g.Ok() && LiveId(g, s) && g.objs[s].Str?
    ensures s in g.mark && Fixed(g, s).Ok()
  {
    hide Global.Phase, Edge, StrongEdge, OpenLists, OpenRing, RootList, StringTable, NoDup;
    FixPhase(g, s);
    AllParts(Fixed(g, s));
  }

  lemma FixPhase(g: Global, s: Id)
    requires g.Ok() && LiveId(g, s) && g.objs[s].Str?
    ensures s in g.mark && Fixed(g, s).Phase()
  {
    hide Edge, StrongEdge, OpenLists, OpenRing, RootList, StringTable, NoDup, LiveOk, MarkOk;
    var m := g.mark[s := g.mark[s].(fixed := true)];
    assert forall o :: IsCurrent(g.mark, g.cw, o) ==> IsCurrent(m, g.cw, o);
    if g.gcstate == SweepString || g.gcstate == Sweep {
      StringsStaySwept(g.mark, m, g.cw, g.strt, if g.gcstate == Sweep then |g.strt| else g.sweepstrgc);
    } else if g.gcstate == Propagate {
      SameColors(g.objs, g.mark, m, g.cw, g.modeName, g.gray, g.grayagain, g.weak, g.Deferred());
    }
  }

  /** The marking invariant looks at the colours only. */
  lemma SameColors(objs: Heap, mark: Marks, m: Marks, cw: bool, modeName: Id,
                   gray: seq<Id>, grayagain: seq<Id>, weak: seq<Id>, x: set<Id>)
    requires MarkOk(objs, mark, cw, modeName, gray, grayagain, weak, x)
    requires m.Keys == mark.Keys && forall o :: o in mark ==> m[o].color == mark[o].color
    ensures MarkOk(objs, m, cw, modeName, gray, grayagain, weak, x)
  {
    hide Edge, StrongEdge, NoDup, Disjoint, HeapClosed;
    assert forall o :: IsGray(m, o) == IsGray(mark, o);
    assert forall o :: IsBlack(m, o) == IsBlack(mark, o);
    assert forall o :: IsWhite(m, o) == IsWhite(mark, o);
    assert forall o :: NonWhite(m, o) == NonWhite(mark, o);
    assert forall o :: IsDead(m, cw, o) == IsDead(mark, cw, o);
  }

  // ----- what the mutator's methods need of the invariant -----

  lemma FreshUdata(g: Global, env: Id)
    requires g.Ok() && LiveId(g, env)
    ensures Fresh(g, Udata(None, env))
  {
    hide Global.Ok;
  }

  lemma StringsIn(g: Global)
    requires g.Ok()
    ensures |g.strt| > 0 && g.mark.Keys == g.objs.Keys
  {
    hide LiveOk, OpenLists, RootList, OpenRing, Global.Phase, Bucket;
  }

  lemma InBucketAt(g: Global, b: nat, i: nat)
    requires g.Ok() && b < |g.strt| && i < |g.strt[b]|
    ensures var o := g.strt[b][i]; o in g.objs && o in g.mark && g.objs[o].Str?
  {
    hide LiveOk, OpenLists, RootList, OpenRing, Global.Phase, Bucket, NoDup;
    var o := g.strt[b][i];
    assert o in g.strt[b];
  }

  /** The strings of the first `i` buckets and of the first `j` places of bucket `i` are, once
      each, in the bucket of `newhash` they belong to, and nothing else is. */
  ghost predicate Rehashed(objs: Heap, strt: seq<seq<Id>>, i: nat, j: nat, newhash: seq<seq<Id>>) {
    && |newhash| > 0
    && (forall b, o :: 0 <= b < |newhash| && o in newhash[b] ==>
          o in objs && objs[o].Str? && Bucket(objs[o].chars, |newhash|) == b && Visited(strt, i, j, o))
    && (forall o :: Visited(strt, i, j, o) && o in objs && objs[o].Str? ==> o in newhash[Bucket(objs[o].chars, |newhash|)])
    && (forall b :: 0 <= b < |newhash| ==> NoDup(newhash[b]))
  }

  ghost predicate Visited(strt: seq<seq<Id>>, i: nat, j: nat, o: Id) {
    exists b, k :: 0 <= b <= i && b < |strt| && 0 <= k < |strt[b]| && (b < i || k < j) && strt[b][k] == o
  }

  lemma StartRehash(g: Global, newhash: seq<seq<Id>>)
    requires |newhash| > 0 && forall b :: 0 <= b < |newhash| ==> newhash[b] == []
    ensures Rehashed(g.objs, g.strt, 0, 0, newhash)
  {
    hide Bucket;
  }

  lemma RehashOne(g: Global, i: nat, j: nat, newhash: seq<seq<Id>>)
    requires g.Ok() && i < |g.strt| && j < |g.strt[i]| && Rehashed(g.objs, g.strt, i, j, newhash)
    requires g.strt[i][j] in g.objs && g.objs[g.strt[i][j]].Str?
    ensures var p := g.strt[i][j];
            var h := Bucket(g.objs[p].chars, |newhash|);
            Rehashed(g.objs, g.strt, i, j + 1, newhash[h := [p] + newhash[h]])
  {
    hide Bucket, Global.Ok, Visited, NoDup;
    var p := g.strt[i][j];
    var h := Bucket(g.objs[p].chars, |newhash|);
    var newhash' := newhash[h := [p] + newhash[h]];
    NotVisited(g, i, j);
    PushNoDup(newhash[h], p);
    forall o ensures Visited(g.strt, i, j + 1, o) <==> Visited(g.strt, i, j, o) || o == p { VisitedStep(g.strt, i, j, o); }
    forall b, o | 0 <= b < |newhash'| && o in newhash'[b]
      ensures o in g.objs && g.objs[o].Str? && Bucket(g.objs[o].chars, |newhash'|) == b && Visited(g.strt, i, j + 1, o)
    {
      if o != p { assert o in newhash[b]; }
    }
  }

  lemma VisitedStep(strt: seq<seq<Id>>, i: nat, j: nat, o: Id)
    requires i < |strt| && j < |strt[i]|
    ensures Visited(strt, i, j + 1, o) <==> Visited(strt, i, j, o) || o == strt[i][j]
  {
  }

  /** A string sits in one place only. */
  lemma NotVisited(g: Global, i: nat, j: nat)
    requires g.Ok() && i < |g.strt| && j < |g.strt[i]|
    ensures !Visited(g.strt, i, j, g.strt[i][j])
  {
    hide Global.Ok;
    var o := g.strt[i][j];
    forall b, k | 0 <= b <= i && b < |g.strt| && 0 <= k < |g.strt[b]| && (b < i || k < j) ensures g.strt[b][k] != o {
      if g.strt[b][k] == o { OnePlace(g, b, k, i, j); }
    }
  }

  lemma OnePlace(g: Global, b: nat, k: nat, i: nat, j: nat)
    requires g.Ok() && b < |g.strt| && k < |g.strt[b]| && i < |g.strt| && j < |g.strt[i]| && g.strt[b][k] == g.strt[i][j]
    ensures b == i && k == j
  {
    hide Global.Ok;
    BucketOf(g, b, k);
    BucketOf(g, i, j);
  }

  lemma BucketOf(g: Global, b: nat, k: nat)
    requires g.Ok() && b < |g.strt| && k < |g.strt[b]|
    ensures g.strt[b][k] in g.objs && g.objs[g.strt[b][k]].Str? && Bucket(g.objs[g.strt[b][k]].chars, |g.strt|) == b
    ensures NoDup(g.strt[b])
  {
    hide LiveOk, OpenLists, RootList, OpenRing, Global.Phase, Bucket, NoDup;
    var o := g.strt[b][k];
    assert o in g.strt[b];
  }

  lemma RehashNext(objs: Heap, strt: seq<seq<Id>>, i: nat, newhash: seq<seq<Id>>)
    requires i < |strt| && Rehashed(objs, strt, i, |strt[i]|, newhash)
    ensures Rehashed(objs, strt, i + 1, 0, newhash)
  {
    hide Bucket;
    forall o ensures Visited(strt, i, |strt[i]|, o) <==> Visited(strt, i + 1, 0, o) {}
  }

  lemma RehashDone(g: Global, newhash: seq<seq<Id>>)
    requires g.Ok() && Rehashed(g.objs, g.strt, |g.strt|, 0, newhash)
    ensures StringTable(g.objs, newhash)
  {
    hide LiveOk, OpenLists, RootList, OpenRing, Global.Phase, Bucket, NoDup;
    forall o | o in g.objs && g.objs[o].Str? ensures o in newhash[Bucket(g.objs[o].chars, |newhash|)] {
      var b := Bucket(g.objs[o].chars, |g.strt|);
      assert o in g.strt[b];
      var k :| 0 <= k < |g.strt[b]| && g.strt[b][k] == o;
      assert Visited(g.strt, |g.strt|, 0, o);
    }
  }

  lemma RunningLive(g: Global)
    requires g.Ok()
    ensures LiveId(g, g.running) && g.objs[g.running].Thread?
  {
    hide ShapeOk, LiveOk, Global.Phase;
    LiveRoot(g, g.running);
    OkOpen(g);
  }

  lemma OpenFound(g: Global, th: Id, i: nat)
    requires g.Ok() && th in g.objs && g.objs[th].Thread? && i < |g.objs[th].openupval|
    ensures var u := g.objs[th].openupval[i];
            u in g.objs && u in g.mark && g.objs[u] == Upval(Open(th, Level(g.objs, u)))
    ensures forall j :: i < j < |g.objs[th].openupval| ==> Level(g.objs, g.objs[th].openupval[j]) < Level(g.objs, g.objs[th].openupval[i])
  {
    hide Global.Ok;
    OkOpen(g);
    OpenAt(g.objs, th, i);
  }

  /** An open upvalue of a live thread refers to something live. */
  lemma OpenRefers(g: Global, th: Id, u: Id)
    requires g.Ok() && LiveId(g, th) && u in g.objs && g.objs[u].Upval? && g.objs[u].box.Open? && g.objs[u].box.th == th
    ensures forall x :: Edge(g.objs, u, x) ==> LiveId(g, x)
  {
    hide Global.Ok;
    OkOpen(g);
    assert OnOpenList(g.objs, u);
    forall x | Edge(g.objs, u, x) ensures LiveId(g, x) {
      assert g.objs[th].stack[g.objs[u].box.level] == Ref(x);
      assert Edge(g.objs, th, x);
      LiveNext(g, th, x);
    }
  }

  lemma UpvalFits(g: Global, th: Id, level: nat, i: nat)
    requires g.Ok() && th in g.objs && g.objs[th].Thread? && level < |g.objs[th].stack| && i <= |g.objs[th].openupval|
    requires forall j :: 0 <= j < i ==> level < Level(g.objs, g.objs[th].openupval[j])
    requires i < |g.objs[th].openupval| ==> Level(g.objs, g.objs[th].openupval[i]) < level
    ensures Fits(g, th, level, i)
  {
    hide Global.Ok;
    if i < |g.objs[th].openupval| { OpenFound(g, th, i); }
  }

  // ----- operands of the mutator's instructions -----

  /** Where a new closure finds a captured variable: a slot, or an upvalue of the closure that
      creates it. */
  datatype Capture = FromSlot(level: nat) | FromUpval(index: nat)

  datatype Op =
    | Move(a: nat, b: nat)
    | LoadPrim(a: nat, prim: Value)
    | Push
    | Pop
    | NewTable(a: nat)
    | LoadString(a: nat, chars: string)
    | NewUserdata(a: nat)
    | NewThread(a: nat)
    | LoadFunction(a: nat, constants: seq<nat>, functions: seq<nat>)
    | GetTable(a: nat, t: nat, key: nat)
    | SetTable(t: nat, key: nat, val: nat)
    | SetMetatable(t: nat, m: nat)
    | MakeClosure(a: nat, cl: nat, p: nat, captures: seq<Capture>)
    | GetUpval(a: nat, cl: nat, index: nat)
    | SetUpval(cl: nat, index: nat, val: nat)
    | CloseUpvals(level: nat)
    | Resume(t: nat)
    | MoveAcross(t: nat, val: nat)
    | SetBasicMetatable(i: nat, m: nat)
    | AddConstant(cl: nat, val: nat)
    | FixString(a: nat)
    | ResizeTable(newsize: nat)
    | GcStep
    | GcFull

  /** The stack of the running thread. */
  function Stack(g: Global): seq<Value> {
    if g.running in g.objs && g.objs[g.running].Thread? then g.objs[g.running].stack else []
  }

  /** The value in slot `i` of the running thread, nil beyond its end. */
  function Slot(g: Global, i: nat): Value {
    if i < |Stack(g)| then Stack(g)[i] else Nil
  }

  lemma SlotLive(g: Global, i: nat)
    requires g.Ok()
    ensures LiveValue(g, Slot(g, i))
  {
    hide Global.Ok;
    RunningLive(g);
    var v := Slot(g, i);
    if v.Ref? {
      assert v in Stack(g);
      assert Edge(g.objs, g.running, v.id);
      LiveNext(g, g.running, v.id);
    }
  }

  lemma WriteSlotOk(g: Global, a: nat, v: Value)
    requires g.Ok() && a < |Stack(g)| && LiveValue(g, v)
    ensures g.running in g.objs && g.objs[g.running].Thread? && SetStack(g, g.running, Stack(g)[a := v]).Ok()
  {
    hide Global.Ok;
    var th := g.running;
    RestackSame(g, th, Stack(g)[a := v]);
    StackOk(g, th, Stack(g)[a := v]);
  }

  lemma RestackSame(g: Global, th: Id, st: seq<Value>)
    requires g.Ok() && th in g.objs && g.objs[th].Thread? && |st| >= |g.objs[th].stack|
    requires forall i :: 0 <= i < |st| ==> (i < |g.objs[th].stack| && st[i] == g.objs[th].stack[i]) || LiveValue(g, st[i])
    ensures Restacks(g, th, st)
  {
    hide Global.Ok;
    OkOpen(g);
    forall u | OpenOn(g.objs, u, th) ensures Level(g.objs, u) < |st| { assert OnOpenList(g.objs, u); }
  }

  lemma PopOk(g: Global)
    requires g.Ok() && Stack(g) != []
    requires forall i :: 0 <= i < |g.objs[g.running].openupval| ==> Level(g.objs, g.objs[g.running].openupval[i]) < |Stack(g)| - 1
    ensures g.running in g.objs && g.objs[g.running].Thread? && SetStack(g, g.running, Stack(g)[..|Stack(g)| - 1]).Ok()
  {
    hide Global.Ok;
    OkOpen(g);
    var th, st := g.running, Stack(g)[..|Stack(g)| - 1];
    forall u | OpenOn(g.objs, u, th) ensures Level(g.objs, u) < |st| { assert OnOpenList(g.objs, u); }
    StackOk(g, th, st);
  }

  lemma FreshBodies(g: Global)
    requires g.Ok()
    ensures Fresh(g, Table(None, map[]))
    ensures LiveValue(g, g.objs[g.running].gt) && Fresh(g, Thread(g.objs[g.running].gt, [Nil], []))
  {
    hide Global.Ok;
    RunningLive(g);
    var gt := g.objs[g.running].gt;
    if gt.Ref? {
      assert Edge(g.objs, g.running, gt.id);
      LiveNext(g, g.running, gt.id);
    }
  }

  lemma FreshClosure(g: Global, env: Id, p: Id, ups: seq<Id>)
    requires LiveId(g, env) && LiveId(g, p) && forall u :: u in ups ==> LiveId(g, u)
    ensures Fresh(g, LClosure(env, p, ups))
  {
  }

  lemma FreshProto(g: Global, ks: seq<Value>, ps: seq<Id>)
    requires (forall v :: v in ks ==> LiveValue(g, v)) && forall p :: p in ps ==> LiveId(g, p)
    ensures Fresh(g, Proto(ks, ps))
  {
  }

  /** What an allocation leaves: the new object is live, and so is everything that was. */
  lemma AllocatedLive(g: Global, b: Body, q: nat)
    requires g.Ok() && q <= |g.rootgc|
    ensures LiveId(Allocated(g, b, q), g.nextId) && Allocated(g, b, q).objs[g.nextId] == b
    ensures forall o :: LiveId(g, o) ==> LiveId(Allocated(g, b, q), o) && Allocated(g, b, q).objs[o] == g.objs[o]
    ensures g.nextId != g.running && Stack(Allocated(g, b, q)) == Stack(g)
  {
    hide Global.Ok;
    FreshId(g);
    RunningLive(g);
  }

  /** Everything a live closure refers to is live. */
  lemma ClosureLive(g: Global, c: Id)
    requires g.Ok() && LiveId(g, c) && g.objs[c].LClosure?
    ensures LiveId(g, g.objs[c].lenv) && LiveId(g, g.objs[c].proto) && forall u :: u in g.objs[c].upvals ==> LiveId(g, u)
  {
    hide Global.Ok;
    OtherEdges(g.objs, g.modeName, c);
    assert Edge(g.objs, c, g.objs[c].lenv) && Edge(g.objs, c, g.objs[c].proto);
    LiveNext(g, c, g.objs[c].lenv);
    LiveNext(g, c, g.objs[c].proto);
    forall u | u in g.objs[c].upvals ensures LiveId(g, u) { LiveNext(g, c, u); }
  }

  lemma ProtoLive(g: Global, p: Id, i: nat)
    requires g.Ok() && LiveId(g, p) && g.objs[p].Proto? && i < |g.objs[p].nested|
    ensures LiveId(g, g.objs[p].nested[i])
  {
    hide Global.Ok;
    var q := g.objs[p].nested[i];
    assert q in g.objs[p].nested;
    assert Edge(g.objs, p, q);
    LiveNext(g, p, q);
  }

  lemma EntryLive(g: Global, t: Id, k: Value)
    requires g.Ok() && LiveId(g, t) && g.objs[t].Table? && k in g.objs[t].entries
    ensures LiveValue(g, g.objs[t].entries[k])
  {
    hide Global.Ok, Edge;
    TableEdges(g.objs, g.modeName, t);
    var v := g.objs[t].entries[k];
    if v.Ref? { LiveNext(g, t, v.id); }
  }

  lemma UpvalLive(g: Global, u: Id)
    requires g.Ok() && LiveId(g, u) && g.objs[u].Upval?
    ensures LiveValue(g, BoxValue(g.objs, g.objs[u].box))
  {
    hide Global.Ok;
    var v := BoxValue(g.objs, g.objs[u].box);
    if v.Ref? {
      assert Edge(g.objs, u, v.id);
      LiveNext(g, u, v.id);
    }
  }

  lemma UpvalReplaces(g: Global, u: Id, v: Value)
    requires g.Ok() && LiveId(g, u) && g.objs[u].Upval? && g.objs[u].box.Closed? && LiveValue(g, v)
    ensures Replaces(g, u, Upval(Closed(v))) && AddsOnly(g, u, Upval(Closed(v)), v)
  {
    hide Global.Ok;
  }

  lemma UdataReplaces(g: Global, u: Id, m: Id)
    requires g.Ok() && LiveId(g, u) && g.objs[u].Udata? && LiveId(g, m)
    ensures Replaces(g, u, g.objs[u].(udMeta := Some(m))) && AddsOnly(g, u, g.objs[u].(udMeta := Some(m)), Ref(m))
  {
    hide Global.Ok;
  }

  lemma ProtoReplaces(g: Global, p: Id, v: Value)
    requires g.Ok() && LiveId(g, p) && g.objs[p].Proto? && LiveValue(g, v)
    ensures Replaces(g, p, g.objs[p].(k := g.objs[p].k + [v])) && AddsOnly(g, p, g.objs[p].(k := g.objs[p].k + [v]), v)
  {
    hide Global.Ok;
    var b := g.objs[p].(k := g.objs[p].k + [v]);
    forall x | Edge(g.objs[p := b], p, x) ensures Edge(g.objs, p, x) || v == Ref(x) {
      assert Ref(x) in g.objs[p].k + [v] ==> Ref(x) in g.objs[p].k || v == Ref(x);
    }
  }

  lemma OpenSlotOk(g: Global, u: Id, v: Value)
    requires g.Ok() && LiveId(g, u) && IsOpen(g.objs[u]) && LiveValue(g, v)
    ensures var th, level := g.objs[u].box.th, g.objs[u].box.level;
            th in g.objs && g.objs[th].Thread? && level < |g.objs[th].stack|
            && SetStack(g, th, g.objs[th].stack[level := v]).Ok()
  {
    hide Global.Ok;
    OkOpen(g);
    assert OnOpenList(g.objs, u);
    var th := g.objs[u].box.th;
    RestackSame(g, th, g.objs[th].stack[g.objs[u].box.level := v]);
    StackOk(g, th, g.objs[th].stack[g.objs[u].box.level := v]);
  }

  lemma StaysLive(g: Global, g': Global)
    requires g.Ok() && g'.Ok() && g'.cw == g.cw
    requires forall o :: o in g.mark ==> o in g'.mark && (IsDead(g'.mark, g'.cw, o) ==> IsDead(g.mark, g.cw, o))
    ensures forall o :: LiveId(g, o) ==> LiveId(g', o)
  {
    hide Global.Ok;
    OkOpen(g);
    OkOpen(g');
  }

  // ----- the initial state -----

  const MIN_STRING_TABLE_SIZE := 32
  const NUM_TAGS := 9

  /** A fresh state: the main thread, its globals, the registry, and the fixed name `__mode`. */
  function InitialState(): Global {
    var modeBucket := Bucket("__mode", MIN_STRING_TABLE_SIZE);
    var white := Mark(White(false), false);
    Global(
      map[0 := Thread(Ref(1), [Nil], []), 1 := Table(None, map[]), 2 := Table(None, map[]), 3 := Str("__mode")],
      map[0 := white.(fixed := true), 1 := white, 2 := white, 3 := white.(fixed := true)],
      false, Pause, [2, 1, 0], 0,
      seq(MIN_STRING_TABLE_SIZE, i => if i == modeBucket then [3] else []), 0,
      [], [], [], [], seq(NUM_TAGS, i => None), 0, 4, 0, 2, 3)
  }

  lemma InitialOk()
    ensures InitialState().Ok()
  {
    var g := InitialState();
    InitialShape();
    InitialLive();
    AllParts(g);
  }

  lemma InitialShape()
    ensures InitialState().Shape()
  {
    hide RootList, StringTable, OpenLists, OpenRing, Bucket;
    InitialLists();
    InitialStrings();
  }

  lemma InitialLists()
    ensures var g := InitialState();
            RootList(g.objs, g.rootgc) && OpenLists(g.objs) && OpenRing(g.objs, g.uvhead)
  {
    hide Bucket;
    var g := InitialState();
    var l := g.rootgc;
    assert l[0] == 2 && l[1] == 1 && l[2] == 0;
    assert forall o :: o in l ==> o == 0 || o == 1 || o == 2;
    assert OpenList(g.objs, 0, []);
  }

  lemma InitialStrings()
    ensures StringTable(InitialState().objs, InitialState().strt)
  {
    hide Bucket;
    var strt := InitialState().strt;
    var m := Bucket("__mode", MIN_STRING_TABLE_SIZE);
    assert strt[m] == [3];
    var o := strt[m][0];
    assert o in strt[m];
    assert forall b, o :: 0 <= b < |strt| && o in strt[b] ==> b == m && o == 3;
  }

  lemma InitialLive()
    ensures InitialState().Live()
  {
    hide Bucket;
  }

  /** What is interned and never collected: the names of the metamethods (ltm.c), the reserved words
      (llex.c) and the message for lack of memory. */
  const FIXED_NAMES := [
    "__index", "__newindex", "__gc", "__mode", "__eq", "__add", "__sub", "__mul", "__div", "__mod",
    "__pow", "__unm", "__len", "__lt", "__le", "__concat", "__call",
    "and", "break", "do", "else", "elseif", "end", "false", "for", "function", "if", "in", "local", "nil",
    "not", "or", "repeat", "return", "then", "true", "until", "while",
    "not enough memory"]

  /** The string `n` is there and fixed. */
  /** `modeName` is the string `__mode`, and fixed. */
  ghost predicate ModeNamed(g: Global) {
    g.modeName in g.objs && g.objs[g.modeName] == Str("__mode") && g.modeName in g.mark && g.mark[g.modeName].fixed
  }

  lemma StillModeNamed(g: Global, g': Global)
    requires g.Ok() && g'.modeName == g.modeName && (forall o :: o in g.objs && o != g.nextId ==> o in g'.objs && g'.objs[o] == g.objs[o])
    requires forall o :: o in g.mark ==> o in g'.mark && g'.mark[o].fixed == g.mark[o].fixed
    ensures ModeNamed(g) ==> ModeNamed(g')
  {
    hide ShapeOk, Global.Live, Global.Phase;
    FreshId(g);
  }

  ghost predicate NameFixed(g: Global, n: string) {
    exists s :: s in g.objs && s in g.mark && g.objs[s] == Str(n) && g.mark[s].fixed
  }

  /** Interning and fixing one more name keeps the others fixed. */
  lemma NameStaysFixed(g: Global, g': Global, s: Id, name: string, n: string)
    requires s in g'.objs && s in g'.mark && g'.objs[s] == Str(name)
    requires g'.objs == g.objs || (s == g.nextId && g'.objs == g.objs[s := Str(name)] && s !in g.objs)
    requires forall o :: o in g.mark ==> o in g'.mark && g'.mark[o].fixed == g.mark[o].fixed
    requires n == name || NameFixed(g, n)
    ensures NameFixed(Fixed(g', s), n)
  {
    if n == name {
      assert s in Fixed(g', s).objs;
    } else {
      var o :| o in g.objs && o in g.mark && g.objs[o] == Str(n) && g.mark[o].fixed;
      assert o in Fixed(g', s).objs;
    }
  }
}
