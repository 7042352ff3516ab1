/**
  The incremental mark-and-sweep collector over the global state, and the mutator steps that
  may be interleaved with it.
 */
module GarbageCollector {
  import opened Wrappers
  import opened LuaHeap
  import opened GcInvariants
  import opened GcSweeping
  import opened GcCycles
  import opened GcMutator
  import opened Instructions
  import WeakModes

  class Collector {
    var g: Global

    /** `lua_newstate` and `f_luaopen`: a main thread, its globals and the registry, and the names that
        are never collected. */
    constructor ()
      ensures g.Ok() && g.gcstate == Pause && forall n :: n in FIXED_NAMES ==> NameFixed(g, n)
      ensures ModeNamed(g)
    {
      InitialOk();
      g := InitialState();
      new;
      FixNames(FIXED_NAMES);
    }

    /** `luaT_init` and `luaX_init`: the strings are interned and fixed. */
    method FixNames(names: seq<string>)
      requires g.Ok()
      modifies this
      ensures g.Ok() && g.gcstate == old(g).gcstate && forall n :: n in names ==> NameFixed(g, n)
      ensures forall o :: o in old(g.mark) && old(g.mark)[o].fixed ==> o in g.mark && g.mark[o].fixed
      ensures ModeNamed(old(g)) ==> ModeNamed(g)
    {
      hide Global.Ok, NameFixed;
      for i := 0 to |names|
        invariant g.Ok() && g.gcstate == old(g).gcstate
        invariant forall o :: o in old(g.mark) && old(g.mark)[o].fixed ==> o in g.mark && g.mark[o].fixed
        invariant ModeNamed(old(g)) ==> ModeNamed(g)
        invariant forall j :: 0 <= j < i ==> NameFixed(g, names[j])
      {
        ghost var g1 := g;
        FreshId(g1);
        var s := NewString(names[i]);
        ghost var g2 := g;
        StillModeNamed(g1, g2);
        FixOk(g, s);
        g := Fixed(g, s);
        forall j | 0 <= j <= i ensures NameFixed(g, names[j]) { NameStaysFixed(g1, g2, s, names[i], names[j]); }
      }
    }

    // ----- marking -----

    method MarkValue(v: Value, ghost x: set<Id>, ghost s: iset<Id>)
      requires Marking(g, x, s) && (v.Ref? ==> v.id in g.objs && v.id in s)
      modifies this
      ensures Marking(g, x, s) && Gains(old(g), g)
      ensures v.Ref? ==> NonWhite(g.mark, v.id)
      decreases White2(g.mark), 2
    {
      if v.Ref? && g.mark[v.id].color.White? {
        ReallyMarkObject(v.id, x, s);
      }
    }

    method ReallyMarkObject(o: Id, ghost x: set<Id>, ghost s: iset<Id>)
      requires Marking(g, x, s) && IsWhite(g.mark, o) && o in s
      modifies this
      ensures Marking(g, x, s) && Gains(old(g), g) && NonWhite(g.mark, o)
      decreases White2(g.mark), 1
    {
      hide Edge, StrongEdge, GrayTracked, TriColor, NoBlackToWhite, NoDup, NeverBlack;
      match g.objs[o] {
        case Str(_) =>
          MarkEdges(g.objs, g.modeName, o);
          MarkExcepted(g.objs, g.mark, g.cw, g.modeName, g.gray, g.grayagain, g.weak, x, o, Gray);
          g := g.(mark := Paint(g.mark, o, Gray));
          Settle(g.objs, g.mark, g.cw, g.modeName, g.gray, g.grayagain, g.weak, x, o, Gray);
          assert Paint(g.mark, o, Gray) == g.mark;
        case Udata(_, _) => MarkUdata(o, x, s);
        case Upval(_) => MarkUpval(o, x, s);
        case _ =>
          PushGray(g.objs, g.mark, g.cw, g.modeName, g.gray, g.grayagain, g.weak, x, o);
          g := g.(mark := Paint(g.mark, o, Gray), gray := [o] + g.gray);
      }
    }

    /** Userdata are never gray: black at once, then their metatable and environment. */
    method MarkUdata(o: Id, ghost x: set<Id>, ghost s: iset<Id>)
      requires Marking(g, x, s) && IsWhite(g.mark, o) && o in s && g.objs[o].Udata?
      modifies this
      ensures Marking(g, x, s) && Gains(old(g), g) && NonWhite(g.mark, o)
      decreases White2(g.mark), 0
    {
      hide Edge, StrongEdge, GrayTracked, TriColor, NoBlackToWhite, NoDup, NeverBlack, Gained, Marked;
      var Udata(m, e) := g.objs[o];
      MarkEdges(g.objs, g.modeName, o);
      MarkWithin(g.objs, g.modeName, s, o);
      MarkExcepted(g.objs, g.mark, g.cw, g.modeName, g.gray, g.grayagain, g.weak, x, o, Black);
      PaintGains(g, o, Black);
      g := g.(mark := Paint(g.mark, o, Black));
      ghost var g1 := g;
      if m.Some? {
        assert Edge(g.objs, o, m.value);
        MarkValue(Ref(m.value), x + {o}, s);
        GainsWhite(g1, g);
        GainsTransitive(old(g), g1, g);
        GainsKeeps(g1, g, o);
      }
      assert Edge(g.objs, o, e);
      ghost var g2 := g;
      MarkValue(Ref(e), x + {o}, s);
      GainsWhite(g2, g);
      GainsTransitive(old(g), g2, g);
      GainsKeeps(g2, g, o);
      Settle(g.objs, g.mark, g.cw, g.modeName, g.gray, g.grayagain, g.weak, x, o, Black);
      assert Paint(g.mark, o, Black) == g.mark;
    }

    /** Marks the value; a closed upvalue turns black, an open one stays gray. */
    method MarkUpval(o: Id, ghost x: set<Id>, ghost s: iset<Id>)
      requires Marking(g, x, s) && IsWhite(g.mark, o) && o in s && g.objs[o].Upval?
      modifies this
      ensures Marking(g, x, s) && Gains(old(g), g) && NonWhite(g.mark, o)
      decreases White2(g.mark), 0
    {
      hide Edge, StrongEdge, GrayTracked, TriColor, NoBlackToWhite, NoDup, NeverBlack, Gained, Marked;
      MarkEdges(g.objs, g.modeName, o);
      MarkWithin(g.objs, g.modeName, s, o);
      MarkExcepted(g.objs, g.mark, g.cw, g.modeName, g.gray, g.grayagain, g.weak, x, o, Gray);
      PaintGains(g, o, Gray);
      g := g.(mark := Paint(g.mark, o, Gray));
      ghost var g1 := g;
      var v := BoxValue(g.objs, g.objs[o].box);
      assert v.Ref? ==> Edge(g.objs, o, v.id);
      MarkValue(v, x + {o}, s);
      GainsTransitive(old(g), g1, g);
      GainsKeeps(g1, g, o);
      if g.objs[o].box.Closed? {
        RepaintGains(old(g), g, o, Black);
        Settle(g.objs, g.mark, g.cw, g.modeName, g.gray, g.grayagain, g.weak, x, o, Black);
        g := g.(mark := Paint(g.mark, o, Black));
      } else {
        Settle(g.objs, g.mark, g.cw, g.modeName, g.gray, g.grayagain, g.weak, x, o, Gray);
      }
    }

    // ----- traversing one gray object -----

    method MarkValues(vs: seq<Value>, ghost x: set<Id>, ghost s: iset<Id>)
      requires Marking(g, x, s)
      requires forall v :: v in vs && v.Ref? ==> v.id in g.objs && v.id in s
      modifies this
      ensures Marking(g, x, s) && Gains(old(g), g)
      ensures forall v :: v in vs && v.Ref? ==> NonWhite(g.mark, v.id)
    {
      hide Marking;
      for i := 0 to |vs|
        invariant Marking(g, x, s) && Gains(old(g), g)
        invariant forall j :: 0 <= j < i && vs[j].Ref? ==> NonWhite(g.mark, vs[j].id)
      {
        ghost var g1 := g;
        MarkValue(vs[i], x, s);
        GainsTransitive(old(g), g1, g);
        GainsWhite(g1, g);
      }
    }

    method MarkObjects(ids: seq<Id>, ghost x: set<Id>, ghost s: iset<Id>)
      requires Marking(g, x, s)
      requires forall o :: o in ids ==> o in g.objs && o in s
      modifies this
      ensures Marking(g, x, s) && Gains(old(g), g)
      ensures forall o :: o in ids ==> NonWhite(g.mark, o)
    {
      hide Marking;
      for i := 0 to |ids|
        invariant Marking(g, x, s) && Gains(old(g), g)
        invariant forall j :: 0 <= j < i ==> NonWhite(g.mark, ids[j])
      {
        ghost var g1 := g;
        MarkValue(Ref(ids[i]), x, s);
        GainsTransitive(old(g), g1, g);
        GainsWhite(g1, g);
      }
    }

    method MarkEntries(es: map<Value, Value>, weakkey: bool, weakvalue: bool, ghost x: set<Id>, ghost s: iset<Id>)
      requires Marking(g, x, s)
      requires !weakkey ==> forall k :: k in es && k.Ref? ==> k.id in g.objs && k.id in s
      requires !weakvalue ==> forall k :: k in es && es[k].Ref? ==> es[k].id in g.objs && es[k].id in s
      modifies this
      ensures Marking(g, x, s) && Gains(old(g), g)
      ensures !weakkey ==> forall k :: k in es && k.Ref? ==> NonWhite(g.mark, k.id)
      ensures !weakvalue ==> forall k :: k in es && es[k].Ref? ==> NonWhite(g.mark, es[k].id)
    {
      hide Marking;
      var todo := es.Keys;
      while todo != {}
        invariant todo <= es.Keys
        invariant Marking(g, x, s) && Gains(old(g), g)
        invariant !weakkey ==> forall k :: k in es && k !in todo && k.Ref? ==> NonWhite(g.mark, k.id)
        invariant !weakvalue ==> forall k :: k in es && k !in todo && es[k].Ref? ==> NonWhite(g.mark, es[k].id)
      {
        var n :| n in todo;
        todo := todo - {n};
        ghost var g1 := g;
        if !weakkey {
          MarkValue(n, x, s);
          GainsTransitive(old(g), g1, g);
          GainsWhite(g1, g);
        }
        ghost var g2 := g;
        if !weakvalue {
          MarkValue(es[n], x, s);
          GainsTransitive(old(g), g2, g);
          GainsWhite(g2, g);
        }
      }
    }

    method TraverseTable(h: Id, ghost x: set<Id>, ghost s: iset<Id>) returns (isWeak: bool)
      requires Marking(g, x, s) && h in g.objs && g.objs[h].Table? && h in s
      modifies this
      ensures Marking(g, x, s) && Gains(old(g), g)
      ensures isWeak == IsWeak(g.objs, g.modeName, h)
      ensures forall b :: StrongEdge(g.objs, g.modeName, h, b) ==> NonWhite(g.mark, b)
    {
      hide Edge, StrongEdge, Mode, HasFlag, TriColor, GrayTracked, GrayLists, NoBlackToWhite, NeverBlack;
      TableEdges(g.objs, g.modeName, h);
      MarkWithin(g.objs, g.modeName, s, h);
      if g.objs[h].meta.Some? {
        MarkValue(Ref(g.objs[h].meta.value), x, s);
      }
      var weakkey, weakvalue := WeakKey(g.objs, g.modeName, h), WeakValue(g.objs, g.modeName, h);
      ghost var g1 := g;
      MarkEntries(g.objs[h].entries, weakkey, weakvalue, x, s);
      GainsTransitive(old(g), g1, g);
      GainsWhite(g1, g);
      TableMarked(g.objs, g.mark, g.modeName, h);
      return weakkey || weakvalue;
    }

    /** Closures, threads and prototypes hold everything strongly. */
    method TraverseOther(o: Id, ghost x: set<Id>, ghost s: iset<Id>)
      requires Marking(g, x, s) && o in g.objs && IsContainer(g.objs[o]) && !g.objs[o].Table? && o in s
      modifies this
      ensures Marking(g, x, s) && Gains(old(g), g)
      ensures forall b :: Edge(g.objs, o, b) ==> NonWhite(g.mark, b)
    {
      hide Edge, StrongEdge, Mode, HasFlag, TriColor, GrayTracked, GrayLists, NoBlackToWhite, NeverBlack;
      OtherEdges(g.objs, g.modeName, o);
      MarkWithin(g.objs, g.modeName, s, o);
      match g.objs[o] {
        case LClosure(env, p, us) =>
          assert Edge(g.objs, o, env) && Edge(g.objs, o, p);
          MarkObjects([env, p] + us, x, s);
          assert env in [env, p] + us && p in [env, p] + us && forall u :: u in us ==> u in [env, p] + us;
        case CClosure(env, vs) =>
          assert Edge(g.objs, o, env) && forall v :: v in vs && v.Ref? ==> Edge(g.objs, o, v.id);
          MarkValues([Ref(env)] + vs, x, s);
          assert Ref(env) in [Ref(env)] + vs && forall v :: v in vs ==> v in [Ref(env)] + vs;
        case Thread(gt, stack, _) =>
          assert gt.Ref? ==> Edge(g.objs, o, gt.id);
          assert forall v :: v in stack && v.Ref? ==> Edge(g.objs, o, v.id);
          MarkValues([gt] + stack, x, s);
          assert gt in [gt] + stack && forall v :: v in stack ==> v in [gt] + stack;
        case Proto(k, ps) =>
          assert forall v :: v in k && v.Ref? ==> Edge(g.objs, o, v.id);
          assert forall p :: p in ps ==> Edge(g.objs, o, p);
          MarkValues(k, x, s);
          ghost var g1 := g;
          MarkObjects(ps, x, s);
          GainsTransitive(old(g), g1, g);
          forall b | Edge(g.objs, o, b) ensures NonWhite(g.mark, b) {
            if Ref(b) in k { assert NonWhite(g1.mark, Ref(b).id); }
          }
      }
    }

    // ----- propagation -----

    /** Takes one object off the gray list, marks what it holds and turns it black; threads
        and weak tables stay gray and wait for the atomic step. */
    method PropagateMark(ghost x: set<Id>, ghost s: iset<Id>)
      requires Marking(g, x, s) && g.gray != []
      modifies this
      ensures Marking(g, x, s) && Propagates(old(g), g)
      ensures Progress(old(g.mark), old(g.gray), g.mark, g.gray)
    {
      hide Edge, StrongEdge, Mode, TriColor, GrayTracked, NoBlackToWhite, NeverBlack, ClosedSet, Propagates;
      assert g.gray[0] in g.gray;
      if g.objs[g.gray[0]].Thread? {
        PropagateThread(x, s);
      } else if g.objs[g.gray[0]].Table? {
        PropagateTable(x, s);
      } else {
        PropagateOther(x, s);
      }
    }

    method PropagateThread(ghost x: set<Id>, ghost s: iset<Id>)
      requires Marking(g, x, s) && g.gray != [] && g.gray[0] in g.objs && g.objs[g.gray[0]].Thread?
      modifies this
      ensures Marking(g, x, s) && Propagates(old(g), g)
      ensures Progress(old(g.mark), old(g.gray), g.mark, g.gray)
    {
      hide Edge, StrongEdge, Mode, HasFlag, TriColor, GrayTracked, NoBlackToWhite, NeverBlack, ClosedSet;
      var o := g.gray[0];
      PopThread(g.objs, g.mark, g.cw, g.modeName, g.gray, g.grayagain, g.weak, x);
      g := g.(gray := g.gray[1..], grayagain := [o] + g.grayagain);
      ghost var g1 := g;
      OtherEdges(g.objs, g.modeName, o);
      TraverseOther(o, x + {o}, s);
      DropException(g.objs, g.mark, g.cw, g.modeName, g.gray, g.grayagain, g.weak, x, o);
      GainsProgress(g1, g);
    }

    method PropagateTable(ghost x: set<Id>, ghost s: iset<Id>)
      requires Marking(g, x, s) && g.gray != [] && g.gray[0] in g.objs && g.objs[g.gray[0]].Table?
      modifies this
      ensures Marking(g, x, s) && Propagates(old(g), g)
      ensures Progress(old(g.mark), old(g.gray), g.mark, g.gray)
    {
      hide Edge, StrongEdge, Mode, HasFlag, TriColor, GrayTracked, NoBlackToWhite, NeverBlack, ClosedSet, Gained, Marked, Propagated;
      var o := g.gray[0];
      PopBlack(g.objs, g.mark, g.cw, g.modeName, g.gray, g.grayagain, g.weak, x);
      g := g.(mark := Paint(g.mark, o, Black), gray := g.gray[1..]);
      ghost var g1 := g;
      assert White2(g1.mark) == White2(old(g.mark));
      var isWeak := TraverseTable(o, x + {o}, s);
      GainsProgress(g1, g);
      TraversedPropagates(old(g), g1, g);
      GainsKeeps(g1, g, o);
      if isWeak {
        KeepWeak(g.objs, g.mark, g.cw, g.modeName, g.gray, g.grayagain, g.weak, x, o);
        WeakPropagates(old(g), g, o);
        g := g.(mark := Paint(g.mark, o, Gray), weak := [o] + g.weak);
      } else {
        forall b | Edge(g.objs, o, b) ensures NonWhite(g.mark, b) { StrongIsEdge(g.objs, g.modeName, o, b); }
        Settle(g.objs, g.mark, g.cw, g.modeName, g.gray, g.grayagain, g.weak, x, o, Black);
      }
    }

    method PropagateOther(ghost x: set<Id>, ghost s: iset<Id>)
      requires Marking(g, x, s) && g.gray != [] && g.gray[0] in g.objs && !g.objs[g.gray[0]].Table? && !g.objs[g.gray[0]].Thread?
      modifies this
      ensures Marking(g, x, s) && Propagates(old(g), g)
      ensures Progress(old(g.mark), old(g.gray), g.mark, g.gray)
    {
      hide Edge, StrongEdge, Mode, HasFlag, TriColor, GrayTracked, NoBlackToWhite, NeverBlack, ClosedSet;
      var o := g.gray[0];
      PopBlack(g.objs, g.mark, g.cw, g.modeName, g.gray, g.grayagain, g.weak, x);
      g := g.(mark := Paint(g.mark, o, Black), gray := g.gray[1..]);
      ghost var g1 := g;
      assert White2(g1.mark) == White2(old(g.mark));
      TraverseOther(o, x + {o}, s);
      GainsProgress(g1, g);
      Settle(g.objs, g.mark, g.cw, g.modeName, g.gray, g.grayagain, g.weak, x, o, Black);
      assert Paint(g.mark, o, Black) == g.mark;
    }

    method PropagateAll(ghost x: set<Id>, ghost s: iset<Id>)
      requires Marking(g, x, s)
      modifies this
      ensures Marking(g, x, s) && g.gray == [] && Propagates(old(g), g)
    {
      hide Marking;
      while g.gray != []
        invariant Marking(g, x, s) && Propagates(old(g), g)
        decreases White2(g.mark), |g.gray|
      {
        ghost var g1 := g;
        PropagateMark(x, s);
        PropagatesTransitive(old(g), g1, g);
      }
    }

    /** Marks the values of the gray open upvalues again: their slots may have been written
        since, in the stack of a thread that nothing else marks. */
    method RemarkUpvals(ghost x: set<Id>, ghost s: iset<Id>)
      requires Marking(g, x + Elems(g.uvhead), s)
      requires forall u :: u in g.uvhead ==> u in g.objs && IsOpen(g.objs[u])
      modifies this
      ensures Marking(g, x, s) && Gains(old(g), g)
    {
      hide Edge, StrongEdge, TriColor, GrayTracked, NoBlackToWhite, GrayLists, ClosedSet;
      var i := 0;
      while i < |g.uvhead|
        invariant i <= |g.uvhead|
        invariant Marking(g, x + Elems(g.uvhead[i..]), s) && Gains(old(g), g)
      {
        var uv := g.uvhead[i];
        ghost var x' := x + Elems(g.uvhead[i + 1..]);
        assert x + Elems(g.uvhead[i..]) == x' + {uv};
        MarkEdges(g.objs, g.modeName, uv);
        if g.mark[uv].color.Gray? {
          var v := BoxValue(g.objs, g.objs[uv].box);
          assert v.Ref? ==> Edge(g.objs, uv, v.id);
          MarkWithin(g.objs, g.modeName, s, uv);
          ghost var g1 := g;
          MarkValue(v, x' + {uv}, s);
          GainsTransitive(old(g), g1, g);
        }
        DropException(g.objs, g.mark, g.cw, g.modeName, g.gray, g.grayagain, g.weak, x', uv);
        i := i + 1;
      }
      assert x + Elems(g.uvhead[i..]) == x;
    }

    // ----- clearing weak tables -----

    /** Whether an entry must go because of `v`.  Strings count as values: they are marked and
        never removed. */
    method IsCleared(v: Value, ghost s: iset<Id>) returns (c: bool)
      requires g.mark.Keys == g.objs.Keys && RefWithin(g.objs, s, v) && MarkedWithin(g.mark, s)
      modifies this
      ensures g == old(g).(mark := g.mark) && StringsMarked(g.objs, old(g.mark), g.mark) && MarkedWithin(g.mark, s)
      ensures c == Clearable(g.objs, old(g.mark), v)
      ensures !c && v.Ref? ==> NonWhite(g.mark, v.id)
    {
      if !v.Ref? {
        c := false;
      } else if g.objs[v.id].Str? {
        if g.mark[v.id].color.White? {
          g := g.(mark := Paint(g.mark, v.id, Gray));
        }
        c := false;
      } else {
        c := g.mark[v.id].color.White?;
      }
    }

    /** Whether an entry must go because of its key or its value. */
    method EntryCleared(k: Value, v: Value, ghost s: iset<Id>) returns (c: bool)
      requires g.mark.Keys == g.objs.Keys && MarkedWithin(g.mark, s)
      requires RefWithin(g.objs, s, k) && RefWithin(g.objs, s, v)
      modifies this
      ensures g == old(g).(mark := g.mark) && StringsMarked(g.objs, old(g.mark), g.mark) && MarkedWithin(g.mark, s)
      ensures g.mark.Keys == old(g.mark).Keys && forall o :: NonWhite(old(g.mark), o) ==> NonWhite(g.mark, o)
      ensures c <==> Clearable(g.objs, g.mark, k) || Clearable(g.objs, g.mark, v)
      ensures !c ==> (k.Ref? ==> NonWhite(g.mark, k.id)) && (v.Ref? ==> NonWhite(g.mark, v.id))
    {
      c := IsCleared(k, s);
      if !c {
        c := IsCleared(v, s);
      }
    }

    /** The entries that survive: those of which neither the key nor the value must go. */
    method ClearEntries(es: map<Value, Value>, ghost s: iset<Id>) returns (kept: map<Value, Value>)
      requires g.mark.Keys == g.objs.Keys && MarkedWithin(g.mark, s)
      requires forall k :: k in es ==> RefWithin(g.objs, s, k) && RefWithin(g.objs, s, es[k])
      modifies this
      ensures g == old(g).(mark := g.mark) && StringsMarked(g.objs, old(g.mark), g.mark) && MarkedWithin(g.mark, s)
      ensures EntriesMarked(g.mark, kept) && Survivors(g.objs, g.mark, es, kept)
    {
      hide StringsMarked, Clearable, MarkedWithin;
      StringsMarkedNone(g.objs, g.mark);
      kept := es;
      var todo := es.Keys;
      while todo != {}
        invariant todo <= es.Keys && g.mark.Keys == g.objs.Keys && MarkedWithin(g.mark, s)
        invariant g == old(g).(mark := g.mark) && StringsMarked(g.objs, old(g.mark), g.mark)
        invariant forall k :: k in kept ==> k in es && kept[k] == es[k]
        invariant forall k :: k in kept && k !in todo ==>
                    (k.Ref? ==> NonWhite(g.mark, k.id)) && (es[k].Ref? ==> NonWhite(g.mark, es[k].id))
        invariant forall k :: k in es ==>
                    (k in kept <==> k in todo || !(Clearable(g.objs, g.mark, k) || Clearable(g.objs, g.mark, es[k])))
      {
        var n :| n in todo;
        todo := todo - {n};
        ghost var mark := g.mark;
        var c := EntryCleared(n, es[n], s);
        StringsMarkedTransitive(g.objs, g.objs, old(g.mark), mark, g.mark);
        ClearableStays(g.objs, mark, g.mark);
        if c {
          kept := kept - {n};
        }
      }
    }

    /** One weak table, where `objs` was the heap before any was cleared. */
    method ClearTable(h: Id, ghost objs: Heap, ghost s: iset<Id>)
      requires g.mark.Keys == g.objs.Keys == objs.Keys && HeapClosed(objs) && ClosedSet(objs, g.modeName, s) && MarkedWithin(g.mark, s)
      requires EntriesRemoved(objs, g.objs, Elems(g.weak)) && h in g.weak && SameAt(objs, g.objs, h) && g.objs[h].Table? && h in s
      modifies this
      ensures h in g.objs && g == old(g).(objs := old(g.objs)[h := g.objs[h]], mark := g.mark) && MarkedWithin(g.mark, s)
      ensures EntriesRemoved(objs, g.objs, Elems(g.weak)) && StringsMarked(old(g.objs), old(g.mark), g.mark)
      ensures ClearedTable(objs, g.objs, g.mark, h) && g.mark.Keys == g.objs.Keys
    {
      hide Edge, EntriesRemoved, EntriesMarked, StringsMarked, Survivors, MarkedWithin, ClearedTable, ClosedSet, HeapClosed, RefWithin;
      ghost var g1 := g;
      EntriesWithin(objs, g.objs, Elems(g.weak), g.modeName, h, s);
      var kept := ClearEntries(g.objs[h].entries, s);
      StringsAreMarked(g.objs, g1.mark, g.mark);
      SurvivorsLess(g1.objs, g.mark, g1.objs[h].entries, kept);
      RemovedMore(objs, g.objs, Elems(g.weak), h, kept);
      g := g.(objs := g.objs[h := g.objs[h].(entries := kept)]);
      TableCleared(objs, g1.objs, g.objs, g.mark, Elems(g.weak), h, kept);
    }

    /** Weak tables keep exactly the entries that survive. */
    method ClearTables(ghost s: iset<Id>)
      requires g.mark.Keys == g.objs.Keys && HeapClosed(g.objs) && ClosedSet(g.objs, g.modeName, s) && MarkedWithin(g.mark, s)
      requires NoDup(g.weak) && forall h :: h in g.weak ==> h in g.objs && g.objs[h].Table? && h in s
      modifies this
      ensures g == old(g).(objs := g.objs, mark := g.mark) && MarkedWithin(g.mark, s)
      ensures EntriesRemoved(old(g.objs), g.objs, Elems(g.weak)) && StringsMarked(old(g.objs), old(g.mark), g.mark)
      ensures forall h :: h in g.weak ==> ClearedTable(old(g.objs), g.objs, g.mark, h)
      ensures g.weak == [] ==> g == old(g)
    {
      hide Edge, EntriesRemoved, StringsMarked, MarkedWithin, ClearedTable, ClosedSet, HeapClosed;
      NothingCleared(g.objs, g.mark, Elems(g.weak));
      var i := 0;
      while i < |g.weak|
        invariant i <= |g.weak| && MarkedWithin(g.mark, s)
        invariant g == old(g).(objs := g.objs, mark := g.mark)
        invariant EntriesRemoved(old(g.objs), g.objs, Elems(g.weak)) && StringsMarked(old(g.objs), old(g.mark), g.mark)
        invariant forall j :: 0 <= j < i ==> ClearedTable(old(g.objs), g.objs, g.mark, g.weak[j])
        invariant forall j :: i <= j < |g.weak| ==> SameAt(old(g.objs), g.objs, g.weak[j])
        invariant i == 0 ==> g == old(g)
      {
        assert g.weak[i] in g.weak;
        ghost var g1 := g;
        SameStrings(old(g.objs), g.objs, old(g.mark), g.mark, Elems(g.weak));
        ClearTable(g.weak[i], old(g.objs), s);
        StringsMarkedTransitive(old(g.objs), g1.objs, old(g.mark), g1.mark, g.mark);
        forall j | 0 <= j < i ensures ClearedTable(old(g.objs), g.objs, g.mark, g.weak[j]) {
          StaysCleared(old(g.objs), g1.objs, g1.mark, g.objs, g.mark, Elems(g.weak), g.weak[j]);
        }
        i := i + 1;
      }
      forall h | h in g.weak ensures ClearedTable(old(g.objs), g.objs, g.mark, h) {
        var j :| 0 <= j < |g.weak| && g.weak[j] == h;
      }
    }

    // ----- starting and finishing the mark phase -----

    method MarkMt(ghost x: set<Id>, ghost s: iset<Id>)
      requires Marking(g, x, s)
      requires forall m :: m in g.mt && m.Some? ==> m.value in g.objs && m.value in s
      modifies this
      ensures Marking(g, x, s) && Gains(old(g), g)
      ensures forall m :: m in g.mt && m.Some? ==> NonWhite(g.mark, m.value)
    {
      hide Marking;
      var i := 0;
      while i < |g.mt|
        invariant i <= |g.mt|
        invariant Marking(g, x, s) && Gains(old(g), g)
        invariant forall j :: 0 <= j < i && g.mt[j].Some? ==> NonWhite(g.mark, g.mt[j].value)
      {
        if g.mt[i].Some? {
          ghost var g1 := g;
          MarkValue(Ref(g.mt[i].value), x, s);
          GainsTransitive(old(g), g1, g);
          GainsWhite(g1, g);
        }
        i := i + 1;
      }
    }

    /** Starts a cycle: everything is white, the roots are marked. */
    method MarkRoot(ghost s: iset<Id>)
      requires g.Ok() && (g.gcstate == Pause || g.gcstate == Finalize)
      requires ClosedSet(g.objs, g.modeName, s) && forall r :: r in g.Roots() ==> r in s
      modifies this
      ensures g.Ok() && g.gcstate == Propagate && MarkedWithin(g.mark, s)
      ensures g == old(g).(mark := g.mark, gray := g.gray, grayagain := [], weak := [], gcstate := Propagate)
      ensures Marked(old(g.mark), g.mark)
    {
      hide Global.Ok, MarkOk;
      StartCycle(g);
      g := g.(gray := [], grayagain := [], weak := []);
      ghost var g1 := g;
      OtherEdges(g.objs, g.modeName, g.main);
      MarkWithin(g.objs, g.modeName, s, g.main);
      assert g.objs[g.main].gt.Ref? ==> Edge(g.objs, g.main, g.objs[g.main].gt.id);
      MarkValue(Ref(g.main), {}, s);
      MarkValue(g.objs[g.main].gt, {}, s);
      ghost var g2 := g;
      MarkValue(Ref(g.registry), {}, s);
      GainsTransitive(g1, g2, g);
      GainsWhite(g2, g);
      ghost var g3 := g;
      forall m | m in g.mt && m.Some? ensures m.value in g.objs && m.value in s { var r := m.value; assert r in g.Roots(); }
      MarkMt({}, s);
      GainsTransitive(g1, g3, g);
      GainsWhite(g3, g);
      CycleStarted(old(g), g);
      g := g.(gcstate := Propagate);
    }

    method RemarkWeak(ghost a: set<Id>, ghost w: set<Id>, ghost s: iset<Id>)
      requires Marking(g, a + w, s) && g.gray == [] && w <= Elems(g.weak)
      requires forall r :: r in g.Roots() ==> r in g.objs && r in s
      modifies this
      ensures Marking(g, a, s) && g.gray == [] && Propagates(old(g).(weak := []), g)
      ensures NonWhite(g.mark, g.running) && forall m :: m in g.mt && m.Some? ==> NonWhite(g.mark, m.value)
    {
      hide MarkOk, ClosedSet, MarkedWithin;
      Refill(g.objs, g.mark, g.cw, g.modeName, g.grayagain, g.weak, a + w, true);
      ghost var x := (a + w) - Elems(g.weak);
      assert x <= a;
      g := g.(gray := g.weak, weak := []);
      WidenException(g.objs, g.mark, g.cw, g.modeName, g.gray, g.grayagain, g.weak, x, a);
      ghost var g1 := g;
      MarkValue(Ref(g.running), a, s);
      forall m | m in g.mt && m.Some? ensures m.value in g.objs && m.value in s { var r := m.value; assert r in g.Roots(); }
      ghost var g2 := g;
      MarkMt(a, s);
      GainsTransitive(g1, g2, g);
      GainsWhite(g2, g);
      ghost var g3 := g;
      PropagateAll(a, s);
      PropagatesTransitive(g1, g3, g);
    }

    /** The marking half of the atomic step: upvalues, weak tables, the running thread and the
        basic metatables, and everything caught by the backward barrier. */
    method MarkAtomic(ghost s: iset<Id>)
      requires Marking(g, g.Deferred(), s) && g.gray == []
      requires forall r :: r in g.Roots() ==> r in g.objs && r in s
      requires forall u :: u in g.uvhead ==> u in g.objs && IsOpen(g.objs[u])
      modifies this
      ensures Marking(g, {}, s) && g.gray == []
      ensures g == old(g).(mark := g.mark, gray := [], grayagain := g.grayagain, weak := g.weak)
      ensures Marked'(old(g.mark), g.mark)
      ensures forall o :: o in g.grayagain ==> o in g.objs && g.objs[o].Thread?
      ensures NonWhite(g.mark, g.running) && forall m :: m in g.mt && m.Some? ==> NonWhite(g.mark, m.value)
      ensures NoWeak(g.objs, g.modeName) && old(g.weak) == [] ==> g.weak == []
      ensures forall h :: h in g.weak ==> IsWeak(g.objs, g.modeName, h)
    {
      hide MarkOk, ClosedSet, MarkedWithin, Gains;
      ghost var a, w := Elems(g.grayagain), Elems(g.weak);
      RemarkUpvals(a + w, s);
      GainsPropagates(old(g), g);
      ghost var g1 := g;
      PropagateAll(a + w, s);
      PropagatesTransitive(old(g), g1, g);
      ElemsSubset(old(g.weak), g.weak);
      ghost var g2 := g;
      RemarkWeak(a, w, s);
      ElemsSubset(old(g.grayagain), g.grayagain);
      // remark gray again
      Refill(g.objs, g.mark, g.cw, g.modeName, g.grayagain, g.weak, a, false);
      assert a - Elems(g.grayagain) == {};
      g := g.(gray := g.grayagain, grayagain := []);
      PropagateAll({}, s);
    }

    /** Finishes the mark phase in one go and flips the current white.  Afterwards what is not dead
        lies in `s`, and what is strongly reachable is not dead. */
    method Atomic(ghost s: iset<Id>)
      requires g.Ok() && g.gcstate == Propagate && g.gray == []
      requires ClosedSet(g.objs, g.modeName, s) && MarkedWithin(g.mark, s) && forall r :: r in g.Roots() ==> r in s
      modifies this
      ensures g.Ok() && AtomicEffect(old(g), g, s) && g.gcstate == SweepString
    {
      hide Global.Ok, MarkOk, ClosedSet, MarkedWithin, EntriesRemoved, NeverBlack, NoneDead, EntriesMarked, StringsMarked, HeapClosed,
           ClearedTable, Clearable, Preserves, AtomicEffect, StronglyReachable, IsWeak, Marking, Marked', NoWeak;
      BeginAtomic(g);
      MarkingFrom(g, g.Deferred(), s);
      MarkAtomic(s);
      MarkingGives(g, {}, s);
      ghost var g1 := g;
      WeakTables(g.objs, g.mark, g.cw, g.modeName, g.gray, g.grayagain, g.weak, {}, s);
      ClearTables(s);
      EndAtomic(old(g), g1, g, s);
      g := g.(cw := !g.cw, sweepstrgc := 0, sweepgc := 0, gcstate := SweepString);
      AtomicPreserves(old(g), g);
      AtomicDone(old(g), g, s);
    }

    // ----- closing upvalues -----

    /** The barrier on a closed upvalue that has just turned black. */
    method BarrierClosed(u: Id, ghost x: set<Id>)
      requires g.MarkInv(x + {u}) && u in g.objs && g.objs[u].Upval? && g.objs[u].box.Closed? && IsBlack(g.mark, u)
      modifies this
      ensures g.MarkInv(x) && g == old(g).(mark := g.mark, gray := g.gray) && Marked(old(g.mark), g.mark)
    {
      hide Edge, NoDup, MarkOk;
      MarkEdges(g.objs, g.modeName, u);
      MarkOkNoneDead(g.objs, g.mark, g.cw, g.modeName, g.gray, g.grayagain, g.weak, x + {u});
      AnySet(g.objs, g.modeName, g.mark);
      var v := g.objs[u].box.value;
      assert v.Ref? ==> Edge(g.objs, u, v.id);
      MarkValue(v, x + {u}, AllIds());
      NotListed(g.objs, g.mark, g.cw, g.modeName, g.gray, g.grayagain, g.weak, x + {u}, u);
      Settle(g.objs, g.mark, g.cw, g.modeName, g.gray, g.grayagain, g.weak, x, u, Black);
      assert Paint(g.mark, u, Black) == g.mark;
    }

    /** Closes the first open upvalue of a thread, or frees it when it is dead. */
    method CloseOne(th: Id)
      requires g.Ok() && th in g.objs && g.objs[th].Thread? && g.objs[th].openupval != []
      modifies this
      ensures g.Ok() && CloseStep(old(g), g, th)
    {
      hide Global.Ok, NoDup, MarkOk, Edge, RootSet, CloseStep, Marked, DeferredSet;
      var u := g.objs[th].openupval[0];
      ghost var g0 := g;
      OpenFirstOk(g, th);
      if IsDead(g.mark, g.cw, u) {
        CloseDeadOk(g, th, u);
        g := g.(objs := Unhook(g.objs, th, 0) - {u}, mark := g.mark - {u}, uvhead := Without(g.uvhead, u));
      } else {
        var wasGray, m := g.mark[u].color.Gray?, g.mark;
        if wasGray {
          m := if g.gcstate == Propagate then Paint(g.mark, u, Black) else MakeWhite(g.mark, g.cw, u);
        }
        if g.gcstate == Propagate { ClosePropagateStart(g, th); } else { CloseOtherOk(g, th, m); }
        g := CloseLinked(g, th, m);
        if g.gcstate == Propagate {
          if wasGray {
            BarrierClosed(u, g.Deferred());
          }
          ClosePropagateOk(g0, th, g.mark, g.gray);
        }
      }
    }

    /** Closes every open upvalue of a thread at `level` or above. */
    method Close(th: Id, level: nat)
      requires g.Ok() && th in g.objs && g.objs[th].Thread?
      modifies this
      ensures g.Ok() && Closes(old(g), g, th) && ClosedFrom(old(g.objs), old(g.mark), old(g.cw), g.objs, th, level)
      ensures forall u :: OpenOn(g.objs, u, th) ==> Level(g.objs, u) < level
    {
      hide Global.Ok, Kept, Swept, Linked, Marked', ClosedSome, ClosedFrom, OpenLists, ClosedHeap;
      ghost var l := g.objs[th].openupval;
      ClosesSelf(g, th);
      OkOpen(g);
      while g.objs[th].openupval != [] && Level(g.objs, g.objs[th].openupval[0]) >= level
        invariant g.Ok() && th in g.objs && g.objs[th].Thread?
        invariant Closes(old(g), g, th) && g.objs[th].openupval == l[|l| - |g.objs[th].openupval|..]
        invariant forall j :: 0 <= j < |l| - |g.objs[th].openupval| ==> Level(old(g.objs), l[j]) >= level
        decreases |g.objs[th].openupval|
      {
        ghost var g1 := g;
        LevelKept(old(g), g, th);
        CloseOne(th);
        ClosesStep(old(g), g1, g, th);
      }
      ClosedAbove(g, th, level);
      if g.objs[th].openupval != [] { LevelKept(old(g), g, th); }
      ClosedAll(old(g.objs), old(g.mark), g.cw, g.objs, th, |l| - |g.objs[th].openupval|, level);
    }

    // ----- sweeping -----

    /** Sweeps the open upvalues of one thread: dead ones are freed, the others turn white. */
    method SweepOpenUpvals(th: Id)
      requires g.Ok() && g.gcstate == Sweep && th in g.objs && g.objs[th].Thread?
      modifies this
      ensures g.Ok() && Sweeps(old(g), g)
      ensures g == old(g).(objs := g.objs, mark := g.mark, uvhead := g.uvhead)
      ensures th in g.objs && g.objs[th].Thread? && (IsDoomed(g.mark, g.cw, th) <==> IsDoomed(old(g.mark), g.cw, th))
      ensures forall i :: 0 <= i < |g.objs[th].openupval| ==> IsCurrent(g.mark, g.cw, g.objs[th].openupval[i])
    {
      hide Global.Ok, Sweeps;
      SweepsSelf(g);
      var j: nat := 0;
      while j < |g.objs[th].openupval|
        invariant g.Ok() && Sweeps(old(g), g)
        invariant g == old(g).(objs := g.objs, mark := g.mark, uvhead := g.uvhead)
        invariant th in g.objs && g.objs[th].Thread? && j <= |g.objs[th].openupval|
        invariant IsDoomed(g.mark, g.cw, th) <==> IsDoomed(old(g.mark), g.cw, th)
        invariant forall i :: 0 <= i < j ==> IsCurrent(g.mark, g.cw, g.objs[th].openupval[i])
        decreases |g.objs[th].openupval| - j
      {
        ghost var g1 := g;
        var u := g.objs[th].openupval[j];
        if IsDoomed(g.mark, g.cw, u) {
          FreeOpenOk(g, th, j, u);
          g := g.(objs := Unhook(g.objs, th, j) - {u}, mark := g.mark - {u}, uvhead := Without(g.uvhead, u));
        } else {
          OpenListed(g, th, j);
          OpenDiffers(g, th, j);
          RepaintOk(g, u);
          g := g.(mark := MakeWhite(g.mark, g.cw, u));
          j := j + 1;
        }
        SweepsTransitive(old(g), g1, g);
      }
    }

    /** One object of the root list: it is freed if it is dead and not fixed. */
    method SweepOne()
      requires g.Ok() && g.gcstate == Sweep && g.sweepgc < |g.rootgc|
      modifies this
      ensures var curr := old(g.rootgc[g.sweepgc]); curr in g.objs <==> !IsDoomed(old(g.mark), g.cw, curr)
      ensures g.Ok() && g.gcstate == Sweep && Sweeps(old(g), g)
      ensures Less(g, old(g))
    {
      hide Global.Ok, Sweeps;
      var curr := g.rootgc[g.sweepgc];
      OnList(g, g.sweepgc);
      SweepsSelf(g);
      if g.objs[curr].Thread? {
        SweepOpenUpvals(curr);
      }
      ghost var g1 := g;
      SweepsShrinks(old(g), g);
      OnList(g, g.sweepgc);
      if IsDoomed(g.mark, g.cw, curr) {
        if g.objs[curr].Thread? {
          Close(curr, 0);
          StillDoomed(g1, g, curr);
          NothingOpen(g, curr);
        }
        ghost var g2 := g;
        FreeRootOk(g, curr);
        g := g.(objs := g.objs - {curr}, mark := g.mark - {curr}, rootgc := Without(g.rootgc, curr));
        if g1.objs[curr].Thread? { ThreadFreed(g1, g2, g, curr); }
        SweepsTransitive(old(g), g1, g);
      } else {
        OpenCurrent(g, curr);
        RepaintOk(g, curr);
        StillCurrent(g, curr);
        g := g.(mark := MakeWhite(g.mark, g.cw, curr));
        SweepsTransitive(old(g), g1, g);
        ghost var g2 := g;
        AdvanceOk(g);
        g := g.(sweepgc := g.sweepgc + 1);
        SweepsTransitive(old(g), g2, g);
      }
    }

    /** At most `count` objects of the root list. */
    method SweepList(count: nat)
      requires g.Ok() && g.gcstate == Sweep
      modifies this
      ensures g.Ok() && g.gcstate == Sweep && Sweeps(old(g), g)
      ensures count == 0 || old(g.sweepgc) == |old(g.rootgc)| || Less(g, old(g))
      ensures Less(g, old(g)) || g == old(g)
    {
      hide Global.Ok, Sweeps;
      SweepsSelf(g);
      var c := count;
      while c > 0 && g.sweepgc < |g.rootgc|
        invariant g.Ok() && g.gcstate == Sweep && Sweeps(old(g), g)
        invariant c == count ==> g == old(g)
        invariant Less(g, old(g)) || (g == old(g) && c == count)
        decreases c
      {
        ghost var g1 := g;
        SweepOne();
        SweepsTransitive(old(g), g1, g);
        c := c - 1;
      }
      OkOpen(old(g));
    }

    /** One bucket of the string table. */
    method SweepBucket()
      requires g.Ok() && g.gcstate == SweepString
      modifies this
      ensures g.Ok() && Sweeps(old(g), g) && g.sweepstrgc == old(g.sweepstrgc) + 1
      ensures g.gcstate == if g.sweepstrgc >= |g.strt| then Sweep else SweepString
    {
      hide Sweeps, Global.Shape, Global.Live, Global.Phase;
      SweepsSelf(g);
      BucketInRange(g);
      var b := g.sweepstrgc;
      var i := 0;
      while i < |g.strt[b]|
        invariant g.Ok() && Sweeps(old(g), g) && g.gcstate == SweepString && g.sweepstrgc == b < |g.strt|
        invariant |g.strt| == |old(g.strt)|
        invariant i <= |g.strt[b]|
        invariant forall j :: 0 <= j < i ==> IsCurrent(g.mark, g.cw, g.strt[b][j])
        decreases |g.strt[b]| - i
      {
        ghost var g1 := g;
        var o := g.strt[b][i];
        InBucket(g, i);
        if IsDoomed(g.mark, g.cw, o) {
          FreeStringOk(g, o);
          WithoutAt(g.strt[b], i);
          g := g.(objs := g.objs - {o}, mark := g.mark - {o}, strt := g.strt[b := Without(g.strt[b], o)]);
        } else {
          RepaintOk(g, o);
          g := g.(mark := MakeWhite(g.mark, g.cw, o));
          i := i + 1;
        }
        SweepsTransitive(old(g), g1, g);
      }
      ghost var g1 := g;
      NextBucketOk(g);
      g := g.(sweepstrgc := g.sweepstrgc + 1);
      if g.sweepstrgc >= |g.strt| {
        SweepsState(g1, g, Sweep);
        g := g.(gcstate := Sweep);
      }
      SweepsTransitive(old(g), g1, g);
    }

    // ----- the step machine -----

    /** One step of the collector.  `s` bounds what may be marked: it holds the roots, what its members
        refer to strongly, and the strings that they refer to. */
    method SingleStep(ghost s: iset<Id>)
      requires g.Ok()
      requires g.gcstate == Pause || g.gcstate == Propagate ==>
                 ClosedSet(g.objs, g.modeName, s) && forall r :: r in g.Roots() ==> r in s
      requires g.gcstate == Propagate ==> MarkedWithin(g.mark, s)
      modifies this
      ensures g.Ok() && StepEffect(old(g), g, s)
      ensures g.gcstate == Propagate ==> MarkedWithin(g.mark, s)
      ensures Preserves(old(g.objs), old(g.modeName), g)
      ensures forall o :: Reachable(old(g.objs), old(g.Roots()), o) ==> o in g.objs
    {
      hide Global.Ok, Global.Roots, ClosedSet, MarkedWithin, Sweeps, Propagates, Marking, Reachable, AtomicEffect, Preserves;
      match g.gcstate {
        case Pause =>
          MarkRoot(s);
        case Propagate =>
          if g.gray != [] {
            BeginAtomic(g);
            assert Marking(g, g.Deferred(), s) by { MarkingFrom(g, g.Deferred(), s); }
            PropagateMark(g.Deferred(), s);
            MarkingGives(g, old(g.Deferred()), s);
            PropagateOk(old(g), g);
          } else {
            Atomic(s);
          }
        case SweepString =>
          SweepBucket();
        case Sweep =>
          SweepList(40);
          OkOpen(g);
          if g.sweepgc == |g.rootgc| {
            SweepDone(g);
            FinalizeOk(g);
            SweepsState(old(g), g, Finalize);
            g := g.(gcstate := Finalize);
          }
        case Finalize =>
          PauseOk(g);
          g := g.(gcstate := Pause);
      }
      StepPreserves(old(g), g, s);
      forall o | Reachable(old(g.objs), old(g.Roots()), o) ensures o in g.objs {
        StepSafe(old(g), g, s, o);
      }
    }

    /** The first sweep of a full collection: a pending one is finished; from pause or propagate the
        marks are given up by a sweep that frees nothing. */
    method PreliminarySweep() returns (ghost g0: Global)
      requires g.Ok()
      modifies this
      ensures g.Ok() && g.gcstate == Finalize && Sweeps(g0, g)
      ensures g0.Ok() && g0 == if old(g).gcstate == Pause || old(g).gcstate == Propagate then Restarted(old(g)) else old(g)
      ensures old(g).gcstate == Pause || old(g).gcstate == Propagate ==> g.objs.Keys == old(g.objs).Keys
    {
      hide Global.Ok, Sweeps, NoneDead;
      if g.gcstate == Pause || g.gcstate == Propagate {
        ResetOk(g);
        g := Restarted(g);
      }
      g0 := g;
      FinishSweep();
    }

    /** A full collection from any state: a pending or preliminary sweep, then a whole cycle. */
    method FullGC()
      requires g.Ok()
      modifies this
      ensures g.Ok() && FullCollection(old(g), g) && WeakModes.WeakExact(old(g), g)
      ensures ModeNamed(old(g)) ==> ModeNamed(g)
    {
      hide Global.Ok, Preserves, Left, Global.Roots, StepEffect, InCycle, AllWhite, Collected, Sweeps, ClosedSet, NoWeak, MarkedWithin, Reachable, Whites, Grays, Buckets, Opens, ToSweep;
      ghost var exact := NoWeak(g.objs, g.modeName);
      ghost var g0 := PreliminarySweep();
      SameReach(old(g), g0);
      SweepsProgram(g0, g);
      ghost var g1 := g;
      ghost var s := iset o | Held(g1, o);
      HeldSet(g1, s);
      MarkRoot(s);
      ghost var g2 := g;
      BeginCycle(g0, g1, g, s, exact);
      while g.gcstate != Pause
        invariant g.Ok() && InCycle(g1, g2, g, s, exact) && SameProgram(old(g), g)
        invariant g.gcstate == Propagate ==>
                    ClosedSet(g.objs, g.modeName, s) && (forall r :: r in g.Roots() ==> r in s) && MarkedWithin(g.mark, s)
        decreases PhaseRank(g), Whites(g), Grays(g), Buckets(g), Opens(g), ToSweep(g)
      {
        ghost var g3 := g;
        SingleStep(s);
        StepDescends(g3, g, s);
        StepProgram(g3, g, s);
        CycleStep(g1, g2, g3, g, s, exact);
        StepClosed(g3, g, s);
        if g3.gcstate == Propagate && g3.gray == [] {
          g2 := g;
        }
      }
      EndCycle(old(g), g0, g1, g2, g, s, exact);
      WeakModes.CollectedExactly(old(g), g);
      WeakModes.ModeNameStays(old(g), g);
    }

    /** Finishes a pending sweep. */
    method FinishSweep()
      requires g.Ok() && (Sweeping(g) || g.gcstate == Finalize)
      modifies this
      ensures g.Ok() && g.gcstate == Finalize && Sweeps(old(g), g)
      ensures NoneDead(old(g.mark), old(g.cw)) ==> g.objs.Keys == old(g.objs).Keys
    {
      hide Global.Ok, Sweeps, ClosedSet, Reachable;
      SweepsSelf(g);
      while g.gcstate != Finalize
        invariant g.Ok() && (Sweeping(g) || g.gcstate == Finalize) && Sweeps(old(g), g)
        decreases PhaseRank(g), Whites(g), Grays(g), Buckets(g), Opens(g), ToSweep(g)
      {
        ghost var g1 := g;
        AnySet(g.objs, g.modeName, g.mark);
        forall r | r in g.Roots() ensures r in AllIds() { assert AnyId(r); }
        SingleStep(AllIds());
        StepDescends(g1, g, AllIds());
        SweepsTransitive(old(g), g1, g);
      }
      NothingFreed(old(g), g);
    }

    // ----- barriers and stores -----

    /** The backward barrier of tables: a black table that got a white value is gray again and
        waits in `grayagain`. */
    method BarrierBack(t: Id)
      requires t in g.mark && IsBlack(g.mark, t)
      modifies this
      ensures g == BlackToGray(old(g), t)
    {
      g := g.(mark := Paint(g.mark, t, Gray), grayagain := [t] + g.grayagain);
    }

    /** `t[k] := v`.  A new key gets its barrier before the value is stored. */
    method StoreTable(t: Id, k: Value, v: Value)
      requires g.Ok() && LiveId(g, t) && g.objs[t].Table? && LiveValue(g, k) && LiveValue(g, v)
      modifies this
      ensures g.Ok() && g == old(g).(objs := g.objs, mark := g.mark, grayagain := g.grayagain)
      ensures t in old(g.objs) && old(g.objs[t]).Table?
      ensures g.objs == old(g.objs)[t := old(g.objs[t]).(entries := SetEntry(old(g.objs[t]).entries, k, v))]
    {
      hide Global.Ok, MarkOk, ShapeOk, LiveOk, Edge, Replaces;
      ghost var g0 := g;
      if k !in g.objs[t].entries && WhiteValue(g.mark, k) && g.mark[t].color.Black? {
        BarrierBackOk(g, t);
        BarrierBack(t);
      }
      StillLive(g0, g, t);
      StillLiveValue(g0, g, t, k);
      StillLiveValue(g0, g, t, v);
      StoreTableOk(g, t, k, v);
      g := g.(objs := g.objs[t := g.objs[t].(entries := SetEntry(g.objs[t].entries, k, v))]);
      if WhiteValue(g.mark, v) && g.mark[t].color.Black? {
        BarrierBack(t);
      }
    }

    /** `setmetatable` on a table. */
    method StoreTableMeta(t: Id, m: Option<Id>)
      requires g.Ok() && LiveId(g, t) && g.objs[t].Table? && (m.Some? ==> LiveId(g, m.value))
      modifies this
      ensures g.Ok() && g == old(g).(objs := g.objs, mark := g.mark, grayagain := g.grayagain)
      ensures t in old(g.objs) && old(g.objs[t]).Table? && g.objs == old(g.objs)[t := old(g.objs[t]).(meta := m)]
    {
      hide Global.Ok, MarkOk, ShapeOk, LiveOk, Edge, Replaces;
      StoreMetaOk(g, t, m);
      g := g.(objs := g.objs[t := g.objs[t].(meta := m)]);
      if m.Some? && WhiteValue(g.mark, Ref(m.value)) && g.mark[t].color.Black? {
        BarrierBack(t);
      }
    }

    /** The forward barrier: keep the invariant by marking the value, or, while sweeping, sweep
        the object early. */
    method BarrierForward(o: Id, v: Value, ghost b: Body, ghost g0: Global)
      requires g0.Ok() && Replaces(g0, o, b) && AddsOnly(g0, o, b, v) && !b.Table? && g == g0.(objs := g0.objs[o := b])
      requires IsBlack(g.mark, o) && WhiteValue(g.mark, v)
      modifies this
      ensures g.Ok() && g == old(g).(mark := g.mark, gray := g.gray)
      ensures if g.gcstate == Propagate then NonWhite(g.mark, v.id) else g.mark == MakeWhite(old(g.mark), g.cw, o)
    {
      hide Global.Ok, MarkOk, ShapeOk, LiveOk, Edge, Replaces, AddsOnly;
      if g.gcstate == Propagate {
        ForwardStart(g0, o, b, v);
        AnySet(g.objs, g.modeName, g.mark);
        MarkValue(v, g.Deferred() + {o}, AllIds());
        ForwardDone(g0, o, b, v, g);
      } else {
        ReplaceOk(g0, o, b);
        BlackNotDead(g, o);
        RepaintOk(g, o);
        g := g.(mark := MakeWhite(g.mark, g.cw, o));
      }
    }

    /** A store of `v` into an object other than a table or a thread. */
    method StoreForward(o: Id, b: Body, v: Value)
      requires g.Ok() && Replaces(g, o, b) && AddsOnly(g, o, b, v) && !b.Table?
      modifies this
      ensures g.Ok() && g == old(g).(objs := g.objs, mark := g.mark, gray := g.gray)
      ensures g.objs == old(g.objs)[o := b]
      ensures o in old(g.mark) && if !(WhiteValue(old(g.mark), v) && IsBlack(old(g.mark), o)) then g.mark == old(g.mark)
              else if g.gcstate == Propagate then NonWhite(g.mark, v.id) else g.mark == MakeWhite(old(g.mark), g.cw, o)
    {
      hide Global.Ok, MarkOk, ShapeOk, LiveOk, Edge, AddsOnly;
      ghost var g0 := g;
      g := g.(objs := g.objs[o := b]);
      if WhiteValue(g.mark, v) && g.mark[o].color.Black? {
        BarrierForward(o, v, b, g0);
      } else {
        StoreQuiet(g0, o, b, v);
      }
    }

    // ----- allocation -----

    /** `luaC_link`: a new object at the head of the root list, white. */
    method Link(b: Body) returns (o: Id)
      requires g.Ok() && Fresh(g, b) && !b.Udata?
      modifies this
      ensures g.Ok() && o == old(g.nextId) && g == Allocated(old(g), b, 0)
    {
      hide Global.Ok, Fresh;
      AllocOk(g, b, 0);
      o := g.nextId;
      g := Allocated(g, b, 0);
    }

    /** New userdata are linked right after the main thread. */
    method NewUdata(env: Id) returns (o: Id)
      requires g.Ok() && LiveId(g, env)
      modifies this
      ensures g.Ok() && o == old(g.nextId) && LiveId(g, o) && g.objs == old(g.objs)[o := Udata(None, env)]
      ensures g == old(g).(objs := g.objs, mark := g.mark, rootgc := g.rootgc, sweepgc := g.sweepgc, nextId := g.nextId)
    {
      hide Global.Ok, Fresh;
      var q := 0;
      while q < |g.rootgc| && g.rootgc[q] != g.main
        invariant q <= |g.rootgc|
      {
        q := q + 1;
      }
      if q < |g.rootgc| {
        q := q + 1;
      }
      FreshUdata(g, env);
      AllocOk(g, Udata(None, env), q);
      o := g.nextId;
      g := Allocated(g, Udata(None, env), q);
    }

    /** The string with these characters: the one in the table, back to life if it was dead, or
        a new one. */
    method NewString(chars: string) returns (s: Id)
      requires g.Ok()
      modifies this
      ensures g.Ok() && LiveId(g, s) && g.objs[s] == Str(chars)
      ensures g.objs == old(g.objs) || (s == old(g.nextId) && g.objs == old(g.objs)[s := Str(chars)])
      ensures g == old(g).(objs := g.objs, mark := g.mark, strt := g.strt, nextId := g.nextId)
      ensures forall o :: o in old(g.mark) ==> o in g.mark && (IsDead(g.mark, g.cw, o) ==> IsDead(old(g.mark), g.cw, o))
      ensures forall o :: o in old(g.mark) ==> g.mark[o].fixed == old(g.mark)[o].fixed
    {
      hide Global.Ok, Bucket;
      StringsIn(g);
      var b := Bucket(chars, |g.strt|);
      var i := 0;
      while i < |g.strt[b]|
        invariant g == old(g) && i <= |g.strt[b]|
        invariant forall j :: 0 <= j < i ==> g.strt[b][j] in g.objs && g.objs[g.strt[b][j]] != Str(chars)
      {
        s := g.strt[b][i];
        InBucketAt(g, b, i);
        if g.objs[s] == Str(chars) {
          if IsDead(g.mark, g.cw, s) {
            MarkEdges(g.objs, g.modeName, s);
            ReviveOk(g, s);
            g := Revived(g, s);
          }
          return;
        }
        i := i + 1;
      }
      forall o | o in g.strt[b] ensures o in g.objs && g.objs[o] != Str(chars) {
        var j :| 0 <= j < |g.strt[b]| && g.strt[b][j] == o;
      }
      FreshId(g);
      NewStringOk(g, chars);
      s := g.nextId;
      g := WithString(g, chars);
    }

    /** Rebuilds the string table with `newsize` buckets, except while it is being swept. */
    method ResizeStrings(newsize: nat)
      requires g.Ok() && newsize > 0
      modifies this
      ensures g.Ok() && g == old(g).(strt := g.strt)
      ensures if old(g.gcstate) == SweepString then g == old(g) else |g.strt| == newsize
    {
      hide Global.Ok, Bucket, Rehashed;
      if g.gcstate == SweepString {
        return;
      }
      var newhash: seq<seq<Id>> := seq(newsize, i => []);
      StartRehash(g, newhash);
      var i := 0;
      while i < |g.strt|
        invariant g == old(g) && i <= |g.strt| && |newhash| == newsize
        invariant Rehashed(g.objs, g.strt, i, 0, newhash)
      {
        var j := 0;
        while j < |g.strt[i]|
          invariant g == old(g) && j <= |g.strt[i]| && |newhash| == newsize
          invariant Rehashed(g.objs, g.strt, i, j, newhash)
        {
          var p := g.strt[i][j];
          InBucketAt(g, i, j);
          var h1 := Bucket(g.objs[p].chars, newsize);
          RehashOne(g, i, j, newhash);
          newhash := newhash[h1 := [p] + newhash[h1]];
          j := j + 1;
        }
        RehashNext(g.objs, g.strt, i, newhash);
        i := i + 1;
      }
      RehashDone(g, newhash);
      ResizeOk(g, newhash);
      g := g.(strt := newhash);
    }

    // ----- upvalues -----

    /** The open upvalue on slot `level` of the running thread: the one on its list, back to life
        if it was dead, or a new one in its place. */
    method FindUpval(level: nat) returns (u: Id)
      requires g.Ok() && g.running in g.objs && g.objs[g.running].Thread? && level < |g.objs[g.running].stack|
      modifies this
      ensures g.Ok() && LiveId(g, u) && g.objs[u] == Upval(Open(g.running, level))
      ensures g == old(g).(objs := g.objs, mark := g.mark, uvhead := g.uvhead, nextId := g.nextId)
      ensures g == old(g).(mark := g.mark)
              || (u == old(g.nextId) && exists i: nat :: i <= |old(g.objs[g.running].openupval)| && g == WithUpval(old(g), g.running, level, i))
      ensures forall o :: o in old(g.mark) ==> o in g.mark && (IsDead(g.mark, g.cw, o) ==> IsDead(old(g.mark), g.cw, o))
    {
      hide Global.Ok, Fits;
      var th := g.running;
      RunningLive(g);
      var i: nat := 0;
      while i < |g.objs[th].openupval| && Level(g.objs, g.objs[th].openupval[i]) >= level
        invariant g == old(g) && i <= |g.objs[th].openupval|
        invariant forall j :: 0 <= j < i ==> level < Level(g.objs, g.objs[th].openupval[j])
      {
        u := g.objs[th].openupval[i];
        OpenFound(g, th, i);
        if Level(g.objs, u) == level {
          if IsDead(g.mark, g.cw, u) {
            OpenRefers(g, th, u);
            ReviveOk(g, u);
            g := Revived(g, u);
          }
          return;
        }
        i := i + 1;
      }
      UpvalFits(g, th, level, i);
      FreshId(g);
      NewUpvalOk(g, th, level, i);
      u := g.nextId;
      g := WithUpval(g, th, level, i);
    }

    // ----- the mutator's instructions -----

    /** `slot a := v`: stacks have no barrier, because threads are never black. */
    method WriteSlot(a: nat, v: Value)
      requires g.Ok() && LiveValue(g, v)
      modifies this
      ensures g.Ok() && g == Write(old(g), a, v)
    {
      hide Global.Ok;
      if a < |Stack(g)| {
        WriteSlotOk(g, a, v);
        g := SetStack(g, g.running, Stack(g)[a := v]);
      }
    }

    method DoMove(a: nat, b: nat)
      requires g.Ok()
      modifies this
      ensures g.Ok() && g == Write(old(g), a, Slot(old(g), b))
    {
      hide Global.Ok;
      SlotLive(g, b);
      WriteSlot(a, Slot(g, b));
    }

    method DoPush()
      requires Mutates(g)
      modifies this
      ensures g.Ok() && Effect(old(g), Push, g)
    {
      hide Global.Ok;
      RestackSame(g, g.running, Stack(g) + [Nil]);
      StackOk(g, g.running, Stack(g) + [Nil]);
      g := SetStack(g, g.running, Stack(g) + [Nil]);
    }

    method DoPop()
      requires Mutates(g)
      modifies this
      ensures g.Ok() && Effect(old(g), Pop, g)
    {
      hide Global.Ok;
      var st, l := Stack(g), g.objs[g.running].openupval;
      if st == [] || (l != [] && Level(g.objs, l[0]) >= |st| - 1) {
        return;
      }
      if l != [] {
        OpenFound(g, g.running, 0);
      }
      PopOk(g);
      g := SetStack(g, g.running, st[..|st| - 1]);
    }

    method DoNew(a: nat, thread: bool)
      requires Mutates(g)
      modifies this
      ensures g.Ok() && Effect(old(g), if thread then NewThread(a) else NewTable(a), g)
    {
      hide Global.Ok, Fresh, Allocated, Write;
      FreshBodies(g);
      var b := if thread then Thread(g.objs[g.running].gt, [Nil], []) else Table(None, map[]);
      AllocatedLive(g, b, 0);
      var o := Link(b);
      WriteSlot(a, Ref(o));
    }

    method DoLoadString(a: nat, chars: string)
      requires Mutates(g)
      modifies this
      ensures g.Ok() && Effect(old(g), LoadString(a, chars), g)
    {
      hide Global.Ok, Write;
      var s := NewString(chars);
      assert Interned(old(g), chars, s, g);
      WriteSlot(a, Ref(s));
    }

    method DoNewUserdata(a: nat)
      requires Mutates(g)
      modifies this
      ensures g.Ok() && Effect(old(g), NewUserdata(a), g)
    {
      hide Global.Ok, Write;
      RunningLive(g);
      FreshBodies(g);
      var gt := g.objs[g.running].gt;
      if gt.Ref? {
        var o := NewUdata(gt.id);
        assert Objects(old(g), g, old(g.objs)[old(g.nextId) := Udata(None, gt.id)]);
        WriteSlot(a, Ref(o));
      }
    }

    /** A new prototype over constants and the prototypes of existing closures, and a closure of
        it, as loading a chunk makes them. */
    method DoLoadFunction(a: nat, constants: seq<nat>, functions: seq<nat>)
      requires Mutates(g)
      modifies this
      ensures g.Ok() && Effect(old(g), LoadFunction(a, constants, functions), g)
    {
      hide Global.Ok, Fresh, Allocated, Write;
      RunningLive(g);
      FreshBodies(g);
      var gt := g.objs[g.running].gt;
      if !gt.Ref? {
        return;
      }
      var ks, ps: seq<Id> := [], [];
      for i := 0 to |constants|
        invariant g == old(g) && forall v :: v in ks ==> LiveValue(g, v)
        invariant |ks| == i && forall j :: 0 <= j < i ==> ks[j] == Slot(g, constants[j])
      {
        SlotLive(g, constants[i]);
        ks := ks + [Slot(g, constants[i])];
      }
      for i := 0 to |functions|
        invariant g == old(g) && forall p :: p in ps ==> LiveId(g, p)
        invariant ps == Protos(g, functions[..i])
      {
        SlotLive(g, functions[i]);
        ProtosNext(g, functions, i);
        var v := Slot(g, functions[i]);
        if v.Ref? && g.objs[v.id].LClosure? {
          ClosureLive(g, v.id);
          ps := ps + [g.objs[v.id].proto];
        }
      }
      assert ks == Slots(g, constants) && functions[..|functions|] == functions;
      FreshProto(g, ks, ps);
      AllocatedLive(g, Proto(ks, ps), 0);
      var p := Link(Proto(ks, ps));
      FreshClosure(g, gt.id, p, []);
      AllocatedLive(g, LClosure(gt.id, p, []), 0);
      var c := Link(LClosure(gt.id, p, []));
      WriteSlot(a, Ref(c));
    }

    method DoGetTable(a: nat, t: nat, key: nat)
      requires Mutates(g)
      modifies this
      ensures g.Ok() && Effect(old(g), GetTable(a, t, key), g)
    {
      hide Global.Ok, Write;
      SlotLive(g, t);
      var h, k := Slot(g, t), Slot(g, key);
      if h.Ref? && g.objs[h.id].Table? {
        if k in g.objs[h.id].entries {
          EntryLive(g, h.id, k);
          WriteSlot(a, g.objs[h.id].entries[k]);
        } else {
          WriteSlot(a, Nil);
        }
      }
    }

    method DoSetTable(t: nat, key: nat, val: nat)
      requires Mutates(g)
      modifies this
      ensures g.Ok() && Effect(old(g), SetTable(t, key, val), g)
    {
      hide Global.Ok;
      SlotLive(g, t);
      SlotLive(g, key);
      SlotLive(g, val);
      var h := Slot(g, t);
      if h.Ref? && g.objs[h.id].Table? && !Slot(g, key).Nil? {
        StoreTable(h.id, Slot(g, key), Slot(g, val));
      }
    }

    method DoSetMetatable(t: nat, m: nat)
      requires Mutates(g)
      modifies this
      ensures g.Ok() && Effect(old(g), SetMetatable(t, m), g)
    {
      hide Global.Ok, Replaces, AddsOnly;
      SlotLive(g, t);
      SlotLive(g, m);
      var h, v := Slot(g, t), Slot(g, m);
      if h.Ref? && g.objs[h.id].Table? && (v.Nil? || (v.Ref? && g.objs[v.id].Table?)) {
        StoreTableMeta(h.id, if v.Nil? then None else Some(v.id));
      } else if h.Ref? && g.objs[h.id].Udata? && v.Ref? && g.objs[v.id].Table? {
        UdataReplaces(g, h.id, v.id);
        StoreForward(h.id, g.objs[h.id].(udMeta := Some(v.id)), v);
      }
    }

    /** Captures slots in open upvalues, or shares those of the creating closure. */
    method Capture(captures: seq<Capture>, env: Id, proto: Id, shared: seq<Id>) returns (ups: seq<Id>)
      requires Mutates(g) && forall i :: 0 <= i < |captures| ==> Usable(g, |shared|, captures[i])
      requires LiveId(g, env) && LiveId(g, proto) && forall u :: u in shared ==> LiveId(g, u)
      modifies this
      ensures Mutates(g) && Captured(old(g), g, shared, captures, ups)
      ensures LiveId(g, env) && LiveId(g, proto) && forall u :: u in ups ==> LiveId(g, u)
    {
      hide Global.Ok, Captures;
      ups := [];
      CapturesSelf(g);
      for i := 0 to |captures|
        invariant Mutates(g) && LiveId(g, env) && LiveId(g, proto) && Captured(old(g), g, shared, captures[..i], ups)
        invariant forall u :: u in shared ==> LiveId(g, u)
        invariant forall u :: u in ups ==> LiveId(g, u)
      {
        ghost var g1 := g;
        var u: Id;
        CapturesSelf(g);
        UsableStays(old(g), g, |shared|, captures[i]);
        match captures[i] {
          case FromUpval(j) =>
            u := shared[j];
            assert u in shared;
          case FromSlot(level) =>
            FreshId(g);
            u := FindUpval(level);
            StaysLive(g1, g);
            CapturesFound(g1, g, level, u);
        }
        ups := ups + [u];
        CapturedMore(old(g), g1, g, shared, captures, i, ups);
      }
      assert captures[..|captures|] == captures;
    }

    /** `OP_CLOSURE`. */
    method DoMakeClosure(a: nat, cl: nat, p: nat, captures: seq<Capture>)
      requires Mutates(g)
      modifies this
      ensures g.Ok() && Effect(old(g), MakeClosure(a, cl, p, captures), g)
    {
      hide Global.Ok, Fresh, Allocated, Write, Captured;
      SlotLive(g, cl);
      var f := Slot(g, cl);
      if !(f.Ref? && g.objs[f.id].LClosure?) {
        return;
      }
      ClosureLive(g, f.id);
      var LClosure(env, outer, shared) := g.objs[f.id];
      if !(g.objs[outer].Proto? && p < |g.objs[outer].nested|) {
        return;
      }
      if !(forall i :: 0 <= i < |captures| ==> Usable(g, |shared|, captures[i])) {
        return;
      }
      ProtoLive(g, outer, p);
      var proto := g.objs[outer].nested[p];
      var ups := Capture(captures, env, proto, shared);
      FreshClosure(g, env, proto, ups);
      AllocatedLive(g, LClosure(env, proto, ups), 0);
      var o := Link(LClosure(env, proto, ups));
      WriteSlot(a, Ref(o));
    }

    method DoGetUpval(a: nat, cl: nat, index: nat)
      requires Mutates(g)
      modifies this
      ensures g.Ok() && Effect(old(g), GetUpval(a, cl, index), g)
    {
      hide Global.Ok, Write;
      SlotLive(g, cl);
      var f := Slot(g, cl);
      if f.Ref? && g.objs[f.id].LClosure? && index < |g.objs[f.id].upvals| {
        ClosureLive(g, f.id);
        var u := g.objs[f.id].upvals[index];
        assert u in g.objs[f.id].upvals;
        if g.objs[u].Upval? {
          UpvalLive(g, u);
          WriteSlot(a, BoxValue(g.objs, g.objs[u].box));
        }
      }
    }

    /** `OP_SETUPVAL`: an open upvalue writes a stack slot, a closed one needs the forward
        barrier. */
    method DoSetUpval(cl: nat, index: nat, val: nat)
      requires Mutates(g)
      modifies this
      ensures g.Ok() && Effect(old(g), SetUpval(cl, index, val), g)
    {
      hide Global.Ok, Replaces, AddsOnly;
      SlotLive(g, cl);
      SlotLive(g, val);
      var f, v := Slot(g, cl), Slot(g, val);
      if f.Ref? && g.objs[f.id].LClosure? && index < |g.objs[f.id].upvals| {
        ClosureLive(g, f.id);
        var u := g.objs[f.id].upvals[index];
        assert u in g.objs[f.id].upvals;
        if IsOpen(g.objs[u]) {
          OpenSlotOk(g, u, v);
          var th, level := g.objs[u].box.th, g.objs[u].box.level;
          g := SetStack(g, th, g.objs[th].stack[level := v]);
        } else if g.objs[u].Upval? {
          UpvalReplaces(g, u, v);
          StoreForward(u, Upval(Closed(v)), v);
        }
      }
    }

    method DoResume(t: nat)
      requires Mutates(g)
      modifies this
      ensures g.Ok() && Effect(old(g), Resume(t), g)
    {
      hide Global.Ok;
      SlotLive(g, t);
      var v := Slot(g, t);
      if v.Ref? && g.objs[v.id].Thread? {
        ResumeOk(g, v.id);
        g := g.(running := v.id);
      }
    }

    /** Pushes a value on the stack of another thread. */
    method DoMoveAcross(t: nat, val: nat)
      requires Mutates(g)
      modifies this
      ensures g.Ok() && Effect(old(g), MoveAcross(t, val), g)
    {
      hide Global.Ok;
      SlotLive(g, t);
      SlotLive(g, val);
      var th, v := Slot(g, t), Slot(g, val);
      if th.Ref? && g.objs[th.id].Thread? {
        var st := g.objs[th.id].stack + [v];
        RestackSame(g, th.id, st);
        StackOk(g, th.id, st);
        g := SetStack(g, th.id, st);
      }
    }

    method DoSetBasicMetatable(i: nat, m: nat)
      requires Mutates(g)
      modifies this
      ensures g.Ok() && Effect(old(g), SetBasicMetatable(i, m), g)
    {
      hide Global.Ok;
      SlotLive(g, m);
      var v := Slot(g, m);
      if i < |g.mt| {
        SetMtOk(g, i, if v.Ref? then Some(v.id) else None);
        g := g.(mt := g.mt[i := if v.Ref? then Some(v.id) else None]);
      }
    }

    /** The compiler adds a constant to a prototype it is still building. */
    method DoAddConstant(cl: nat, val: nat)
      requires Mutates(g)
      modifies this
      ensures g.Ok() && Effect(old(g), AddConstant(cl, val), g)
    {
      hide Global.Ok, Replaces, AddsOnly;
      SlotLive(g, cl);
      SlotLive(g, val);
      var f, v := Slot(g, cl), Slot(g, val);
      if f.Ref? && g.objs[f.id].LClosure? {
        ClosureLive(g, f.id);
        var p := g.objs[f.id].proto;
        if g.objs[p].Proto? {
          ProtoReplaces(g, p, v);
          StoreForward(p, g.objs[p].(k := g.objs[p].k + [v]), v);
        }
      }
    }

    method DoFixString(a: nat)
      requires Mutates(g)
      modifies this
      ensures g.Ok() && Effect(old(g), FixString(a), g)
    {
      hide Global.Ok;
      SlotLive(g, a);
      var v := Slot(g, a);
      if v.Ref? && g.objs[v.id].Str? {
        FixOk(g, v.id);
        g := Fixed(g, v.id);
      }
    }

    method DoGcStep()
      requires g.Ok()
      modifies this
      ensures g.Ok() && StepEffect(old(g), g, AllIds()) && Preserves(old(g.objs), old(g.modeName), g)
      ensures forall o :: Reachable(old(g.objs), old(g.Roots()), o) ==> o in g.objs
    {
      hide Global.Ok, Reachable, StepEffect;
      AnySet(g.objs, g.modeName, g.mark);
      forall r | r in g.Roots() ensures r in AllIds() { assert AnyId(r); }
      SingleStep(AllIds());
    }

    // ----- whole runs -----

    /** One instruction, or collector step, and what it does. */
    method Execute(op: Op)
      requires g.Ok()
      modifies this
      ensures g.Ok() && Mutates(old(g)) && Effect(old(g), op, g)
    {
      hide Global.Ok, Reachable, FullCollection, StepEffect, Preserves, Closes, ClosedFrom, Objects, Captured;
      RunningLive(g);
      match op {
        case Move(a, b) => DoMove(a, b);
        case LoadPrim(a, prim) => if !prim.Ref? { WriteSlot(a, prim); }
        case Push => DoPush();
        case Pop => DoPop();
        case NewTable(a) => DoNew(a, false);
        case LoadString(a, chars) => DoLoadString(a, chars);
        case NewUserdata(a) => DoNewUserdata(a);
        case NewThread(a) => DoNew(a, true);
        case LoadFunction(a, constants, functions) => DoLoadFunction(a, constants, functions);
        case GetTable(a, t, key) => DoGetTable(a, t, key);
        case SetTable(t, key, val) => DoSetTable(t, key, val);
        case SetMetatable(t, m) => DoSetMetatable(t, m);
        case MakeClosure(a, cl, p, captures) => DoMakeClosure(a, cl, p, captures);
        case GetUpval(a, cl, index) => DoGetUpval(a, cl, index);
        case SetUpval(cl, index, val) => DoSetUpval(cl, index, val);
        case CloseUpvals(level) => Close(g.running, level);
        case Resume(t) => DoResume(t);
        case MoveAcross(t, val) => DoMoveAcross(t, val);
        case SetBasicMetatable(i, m) => DoSetBasicMetatable(i, m);
        case AddConstant(cl, val) => DoAddConstant(cl, val);
        case FixString(a) => DoFixString(a);
        case ResizeTable(newsize) => if newsize > 0 { ResizeStrings(newsize); }
        case GcStep => DoGcStep();
        case GcFull => FullGC();
      }
    }

    /** Every interleaving of mutator instructions and collector steps: each has its effect, and
        whatever can be reached in between and afterwards has not been freed and is not about to be. */
    method Run(ops: seq<Op>) returns (ghost states: seq<Global>)
      requires g.Ok()
      modifies this
      ensures g.Ok() && |states| == |ops| + 1 && states[0] == old(g) && states[|ops|] == g
      ensures forall i :: 0 <= i < |ops| ==> Follows(states[i], ops[i], states[i + 1])
      ensures forall i, o :: 0 <= i <= |ops| && Reachable(states[i].objs, states[i].Roots(), o) ==>
                o in states[i].objs && !IsDead(states[i].mark, states[i].cw, o)
    {
      hide Global.Ok, Reachable, Global.Roots, Effect;
      states := [g];
      for i := 0 to |ops|
        invariant |states| == i + 1 && states[0] == old(g) && states[i] == g
        invariant forall j :: 0 <= j <= i ==> states[j].Ok()
        invariant forall j :: 0 <= j < i ==> Follows(states[j], ops[j], states[j + 1])
      {
        Execute(ops[i]);
        states := states + [g];
      }
      forall i, o | 0 <= i <= |ops| && Reachable(states[i].objs, states[i].Roots(), o)
        ensures o in states[i].objs && !IsDead(states[i].mark, states[i].cw, o)
      {
        ReachLive(states[i], o);
      }
    }
  }
}
