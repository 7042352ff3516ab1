/** Single steps of the collector, whole cycles and full collections: what they leave, what they
    change, and why they end. */
module GcCycles {
  import opened Wrappers
  import opened LuaHeap
  import opened GcInvariants
  import opened GcSweeping

  // ----- single steps -----

  lemma {:induction false} ReachLive(g: Global, o: Id)
    requires g.Ok() && Reachable(g.objs, g.Roots(), o)
    ensures o in g.objs && !IsDead(g.mark, g.cw, o)
  {
    var p :| Path(g.objs, g.Roots(), p) && p[|p| - 1] == o;
    PathLive(g, p);
  }

  lemma {:induction false} PathLive(g: Global, p: seq<Id>)
    requires g.Ok() && Path(g.objs, g.Roots(), p)
    ensures p[|p| - 1] in g.objs && !IsDead(g.mark, g.cw, p[|p| - 1])
  {
    hide Edge, ShapeOk, Global.Phase;
    if |p| == 1 {
      var r := p[0];
      assert r in g.Roots();
    } else {
      PathLive(g, p[..|p| - 1]);
      var a, b := p[|p| - 2], p[|p| - 1];
      assert Edge(g.objs, a, b);
    }
  }

  /** Every reference of an object that survives sweeping survives with it. */
  lemma SweptReach(g: Global, g': Global, o: Id)
    requires g.Ok() && g'.Ok() && Swept(g.objs, g.mark, g.cw, g'.objs, g'.mark) && g.Roots() == g'.Roots()
    ensures Reachable(g.objs, g.Roots(), o) <==> Reachable(g'.objs, g'.Roots(), o)
  {
    hide Global.Ok, Swept, Edge;
    if Reachable(g.objs, g.Roots(), o) {
      var p :| Path(g.objs, g.Roots(), p) && p[|p| - 1] == o;
      forall i | 0 < i < |p| ensures Edge(g'.objs, p[i - 1], p[i]) {
        assert Path(g.objs, g.Roots(), p[..i]);
        PathLive(g, p[..i]);
        assert p[..i][|p[..i]| - 1] == p[i - 1];
        SweptSameEdge(g, g', p[i - 1], p[i]);
      }
      assert Path(g'.objs, g'.Roots(), p);
    }
    if Reachable(g'.objs, g'.Roots(), o) {
      var p :| Path(g'.objs, g'.Roots(), p) && p[|p| - 1] == o;
      forall i | 0 < i < |p| ensures Edge(g.objs, p[i - 1], p[i]) {
        SweptSameEdge(g, g', p[i - 1], p[i]);
      }
      assert Path(g.objs, g.Roots(), p);
    }
  }

  lemma SweptSameEdge(g: Global, g': Global, a: Id, b: Id)
    requires g.Ok() && g'.Ok() && Swept(g.objs, g.mark, g.cw, g'.objs, g'.mark)
    ensures Edge(g'.objs, a, b) ==> Edge(g.objs, a, b)
    ensures Edge(g.objs, a, b) && a in g.objs && !IsDead(g.mark, g.cw, a) ==> Edge(g'.objs, a, b)
  {
    hide Global.Ok, Edge, BodyKept;
    OkOpen(g');
    KeptEdge(g.objs, g'.objs, a, b);
  }

  lemma PropagateOk(g: Global, g': Global)
    requires g.Ok() && g.gcstate == Propagate && Propagates(g, g') && g'.MarkInv(g.Deferred())
    ensures g'.Ok()
  {
    hide Edge, OpenLists, RootList, StringTable, OpenRing, NoDup, MarkOk, NeverBlack, LiveClosed;
    ElemsSubset(g.grayagain, g'.grayagain);
    ElemsSubset(g.weak, g'.weak);
    WidenException(g'.objs, g'.mark, g'.cw, g'.modeName, g'.gray, g'.grayagain, g'.weak, g.Deferred(), g'.Deferred());
    MarkOkNoneDead(g'.objs, g'.mark, g'.cw, g'.modeName, g'.gray, g'.grayagain, g'.weak, g'.Deferred());
    MarkedLive'(g, g');
  }

  lemma MarkedLive'(g: Global, g': Global)
    requires g.Live() && Marked'(g.mark, g'.mark) && NoneDead(g'.mark, g.cw) && g'.objs == g.objs && g'.cw == g.cw
    requires g'.Roots() == g.Roots() && g.mark.Keys == g.objs.Keys
    requires MarkOk(g.objs, g.mark, g.cw, g.modeName, g.gray, g.grayagain, g.weak, g.Deferred())
    ensures LiveClosed(g'.objs, g'.mark, g'.cw) && RootsLive(g'.objs, g'.mark, g'.cw, g'.Roots())
  {
    hide Edge, StrongEdge, NoDup, NeverBlack, GrayLists, TriColor, NoBlackToWhite, GrayTracked;
  }

  /** Marking given up for the preliminary sweep of a full collection. */
  function Restarted(g: Global): Global {
    g.(sweepstrgc := 0, sweepgc := 0, gray := [], grayagain := [], weak := [], gcstate := SweepString)
  }

  /** The preliminary sweep of a full collection: nothing is dead, so nothing will be freed. */
  lemma ResetOk(g: Global)
    requires g.Ok() && (g.gcstate == Pause || g.gcstate == Propagate)
    ensures NoneDead(g.mark, g.cw)
    ensures Restarted(g).Ok() && Restarted(g).mark == g.mark && Restarted(g).objs == g.objs
  {
    hide Edge, OpenLists, RootList, OpenRing, NoDup, MarkOk, Bucket, LiveClosed;
    if g.gcstate == Propagate {
      MarkOkNoneDead(g.objs, g.mark, g.cw, g.modeName, g.gray, g.grayagain, g.weak, g.Deferred());
    }
  }

  /** A finished sweep leaves everything white. */
  lemma SweepDone(g: Global)
    requires g.Ok() && g.gcstate == Sweep && g.sweepgc == |g.rootgc|
    ensures AllWhite(g.mark, g.cw)
  {
    hide Edge, LiveOk, Bucket, NoDup;
    forall o | o in g.mark ensures g.mark[o].color == White(g.cw) {
      AllSwept(g, o);
    }
  }

  lemma AllSwept(g: Global, o: Id)
    requires g.Ok() && g.gcstate == Sweep && g.sweepgc == |g.rootgc| && o in g.mark
    ensures IsCurrent(g.mark, g.cw, o)
  {
    hide Edge, LiveOk, Bucket, NoDup, OpenLists;
    assert o in g.objs;
    if g.objs[o].Str? {
      var b := Bucket(g.objs[o].chars, |g.strt|);
      assert o in g.strt[b];
    } else if IsOpen(g.objs[o]) {
      var th := g.objs[o].box.th;
      OpenThread(g.objs, o);
      assert th in g.rootgc;
      var i :| 0 <= i < |g.rootgc| && g.rootgc[i] == th;
      assert OpenOn(g.objs, o, g.rootgc[i]);
    } else {
      assert o in g.rootgc;
    }
  }

  // ----- what collecting changes -----

  /** The object that `v` refers to, no string, is gone or will be freed by the sweep. */
  predicate Lost(objs: Heap, g': Global, v: Value) {
    v.Ref? && v.id in objs && !objs[v.id].Str? && (v.id !in g'.objs || IsDoomed(g'.mark, g'.cw, v.id))
  }

  /** An object as it was, but that a weak table has lost entries whose key or value is lost. */
  ghost predicate Spared(objs: Heap, modeName: Id, g': Global, o: Id)
    requires o in objs && o in g'.objs
  {
    if objs[o].Table? then
      var es, b := objs[o].entries, g'.objs[o];
      && b.Table? && b.meta == objs[o].meta
      && (forall k :: k in b.entries ==> k in es && b.entries[k] == es[k])
      && (forall k :: k in es && k !in b.entries ==> IsWeak(objs, modeName, o) && (Lost(objs, g', k) || Lost(objs, g', es[k])))
    else Untouched(objs, g'.objs, o)
  }

  /** Objects are gone, weak tables have lost entries with them, and nothing else has changed. */
  ghost predicate Preserves(objs: Heap, modeName: Id, g': Global) {
    g'.objs.Keys <= objs.Keys && forall o :: o in g'.objs ==> Spared(objs, modeName, g', o)
  }

  lemma SweptPreserves(objs: Heap, modeName: Id, g': Global)
    requires OnlyFreed(objs, g'.objs)
    ensures Preserves(objs, modeName, g')
  {
    hide IsWeak;
    forall o | o in g'.objs ensures Spared(objs, modeName, g', o) { assert Untouched(objs, g'.objs, o); }
  }

  lemma AtomicPreserves(g: Global, g': Global)
    requires g.Ok() && EntriesRemoved(g.objs, g'.objs, Elems(g'.weak))
    requires forall h :: h in g'.weak ==> IsWeak(g.objs, g.modeName, h) && ClearedTable(g.objs, g'.objs, g'.mark, h)
    requires forall v :: Clearable(g.objs, g'.mark, v) ==> IsDoomed(g'.mark, g'.cw, v.id)
    ensures Preserves(g.objs, g.modeName, g')
  {
    hide Global.Ok, IsWeak, OpenLists, EntriesMarked;
    OkOpen(g);
    forall o | o in g'.objs ensures Spared(g.objs, g.modeName, g', o) {
      if g.objs[o].Thread? { ListedThere(g.objs, o); }
      if o in g'.weak {
        assert ClearedTable(g.objs, g'.objs, g'.mark, o);
        ClearedSpared(g.objs, g.modeName, g', o);
      } else {
        assert o !in Elems(g'.weak);
      }
    }
  }

  lemma ClearedSpared(objs: Heap, modeName: Id, g': Global, h: Id)
    requires ClearedTable(objs, g'.objs, g'.mark, h) && IsWeak(objs, modeName, h) && g'.objs[h].meta == objs[h].meta
    requires forall v :: Clearable(objs, g'.mark, v) ==> IsDoomed(g'.mark, g'.cw, v.id)
    ensures Spared(objs, modeName, g', h)
  {
    hide IsWeak, EntriesMarked;
  }

  /** What the atomic step does: weak tables lose entries, marks move, the white flips, everything
      strongly reachable survives, and nothing outside `s` does. */
  ghost predicate AtomicEffect(g: Global, g': Global, s: iset<Id>) {
    && g' == g.(objs := g'.objs, mark := g'.mark, gray := [], grayagain := g'.grayagain, weak := g'.weak,
                cw := !g.cw, sweepgc := 0, sweepstrgc := 0, gcstate := SweepString)
    && EntriesRemoved(g.objs, g'.objs, Elems(g'.weak)) && Preserves(g.objs, g.modeName, g')
    && (forall o :: StronglyReachable(g.objs, g.modeName, g.Roots(), o) ==> o in g'.objs && !IsDead(g'.mark, g'.cw, o))
    && (forall o :: o in g'.objs ==> o in g'.mark && o in g.mark && g'.mark[o].fixed == g.mark[o].fixed)
    && (forall o :: o in g'.objs && !IsDead(g'.mark, g'.cw, o) ==> o in s)
    && (NoWeak(g.objs, g.modeName) && g.weak == [] ==> g'.objs == g.objs)
  }

  lemma AtomicDone(g: Global, g': Global, s: iset<Id>)
    requires g' == g.(objs := g'.objs, mark := g'.mark, gray := [], grayagain := g'.grayagain, weak := g'.weak,
                      cw := !g.cw, sweepgc := 0, sweepstrgc := 0, gcstate := SweepString)
    requires EntriesRemoved(g.objs, g'.objs, Elems(g'.weak)) && Preserves(g.objs, g.modeName, g')
    requires forall o :: StronglyReachable(g.objs, g.modeName, g.Roots(), o) ==> o in g'.objs && !IsDead(g'.mark, g'.cw, o)
    requires forall o :: o in g'.objs ==> o in g'.mark && o in g.mark && g'.mark[o].fixed == g.mark[o].fixed
    requires forall o :: o in g'.objs && !IsDead(g'.mark, g'.cw, o) ==> o in s
    requires NoWeak(g.objs, g.modeName) && g.weak == [] ==> g'.objs == g.objs
    ensures AtomicEffect(g, g', s)
  {
  }

  /** The effect of one collector step, by the state it starts in. */
  ghost predicate StepEffect(g: Global, g': Global, s: iset<Id>) {
    match g.gcstate
    case Pause =>
      g' == g.(mark := g'.mark, gray := g'.gray, grayagain := [], weak := [], gcstate := Propagate) && Marked(g.mark, g'.mark)
    case Propagate =>
      if g.gray != [] then Propagates(g, g') && Progress(g.mark, g.gray, g'.mark, g'.gray) else AtomicEffect(g, g', s)
    case SweepString =>
      Sweeps(g, g') && g'.sweepstrgc == g.sweepstrgc + 1
      && g'.gcstate == if g'.sweepstrgc >= |g'.strt| then Sweep else SweepString
    case Sweep =>
      Sweeps(g, g') && (g'.gcstate == Finalize || (g'.gcstate == Sweep && Less(g', g)))
    case Finalize =>
      g' == g.(gcstate := Pause)
  }

  /** A step changes nothing but entries of weak tables whose key or value will be freed. */
  lemma StepPreserves(g: Global, g': Global, s: iset<Id>)
    requires g.Ok() && g'.Ok() && StepEffect(g, g', s)
    ensures Preserves(g.objs, g.modeName, g')
  {
    hide Global.Ok, Swept, OnlyFreed, OpenLists, Preserves, StronglyReachable;
    if g'.objs == g.objs {
      OkOpen(g);
      OnlyFreedSelf(g.objs);
    }
    if OnlyFreed(g.objs, g'.objs) { SweptPreserves(g.objs, g.modeName, g'); }
  }

  /** No collector step frees an object that is reachable. */
  lemma StepSafe(g: Global, g': Global, s: iset<Id>, o: Id)
    requires g.Ok() && g'.Ok() && StepEffect(g, g', s)
    requires Reachable(g.objs, g.Roots(), o)
    ensures o in g'.objs
  {
    hide Global.Ok, Global.Roots, Edge, BodyKept;
    ReachLive(g, o);
  }

  lemma MarkingFrom(g: Global, x: set<Id>, s: iset<Id>)
    requires g.MarkInv(x) && ClosedSet(g.objs, g.modeName, s) && MarkedWithin(g.mark, s)
    ensures Marking(g, x, s)
  {
  }

  lemma MarkingGives(g: Global, x: set<Id>, s: iset<Id>)
    requires Marking(g, x, s)
    ensures g.MarkInv(x) && MarkedWithin(g.mark, s)
  {
  }

  lemma FinalizeOk(g: Global)
    requires g.Ok() && AllWhite(g.mark, g.cw)
    ensures g.(gcstate := Finalize).Ok()
  {
    hide ShapeOk, LiveOk, FixedOk, AllWhite;
  }

  lemma PauseOk(g: Global)
    requires g.Ok() && g.gcstate == Finalize
    ensures g.(gcstate := Pause).Ok()
  {
    hide ShapeOk, LiveOk, FixedOk, AllWhite;
  }

  // ----- a full collection -----

  /** What is left at the end of a cycle: the reachable objects and the fixed ones, as they were. */
  ghost predicate Collected(g: Global, g': Global) {
    && (forall o :: o in g'.objs <==> o in g.objs && o in g.mark && (Reachable(g.objs, g.Roots(), o) || g.mark[o].fixed))
    && OnlyFreed(g.objs, g'.objs)
  }

  /** Whatever can be reached without weak references is still there, and so are the fixed objects;
      nothing else is, but for strings that can be reached in another way. */
  ghost predicate Left(g: Global, g': Global) {
    && (forall o :: StronglyReachable(g.objs, g.modeName, g.Roots(), o) ==> o in g'.objs)
    && (forall o :: o in g.objs && o in g.mark && g.mark[o].fixed ==> o in g'.objs && o in g'.mark && g'.mark[o].fixed)
    && (forall o :: o in g'.objs ==> o in g.mark && (Held(g, o) || g.mark[o].fixed))
  }

  /** `o` can be reached without weak references or, if it is a string, in any way. */
  ghost predicate Held(g: Global, o: Id) {
    StronglyReachable(g.objs, g.modeName, g.Roots(), o) || (o in g.objs && g.objs[o].Str? && Reachable(g.objs, g.Roots(), o))
  }

  /** What belongs to the program beside the heap. */
  ghost predicate SameProgram(g: Global, g': Global) {
    && g'.mt == g.mt && g'.running == g.running && g'.nextId == g.nextId
    && g'.main == g.main && g'.registry == g.registry && g'.modeName == g.modeName
  }

  lemma StepProgram(g: Global, g': Global, s: iset<Id>)
    requires StepEffect(g, g', s)
    ensures SameProgram(g, g')
  {
    hide Swept, OnlyFreed, Propagated, EntriesRemoved, Preserves, StronglyReachable, NoWeak, Marked;
  }

  lemma SweepsProgram(g: Global, g': Global)
    requires Sweeps(g, g')
    ensures SameProgram(g, g')
  {
    hide Swept, OnlyFreed;
  }

  /** A full collection: nothing is marked or dead afterwards, nothing is left that cannot be reached,
      and nothing has changed but entries of weak tables whose key or value is gone; without weak
      tables all that can be reached is left. */
  ghost predicate FullCollection(g: Global, g': Global) {
    && SameProgram(g, g') && g'.gcstate == Pause && AllWhite(g'.mark, g'.cw)
    && Preserves(g.objs, g.modeName, g') && Left(g, g')
    && (NoWeak(g.objs, g.modeName) ==> Collected(g, g'))
  }

  /** A sweep after something that preserves the heap: what was doomed is gone or still is. */
  lemma PreservesSwept(objs: Heap, modeName: Id, g: Global, g': Global)
    requires Preserves(objs, modeName, g) && Sweeps(g, g') && OpenLists(g.objs)
    ensures Preserves(objs, modeName, g')
  {
    hide OpenLists, IsWeak, Untouched;
    StillLost(objs, g, g');
    forall o | o in g'.objs ensures Spared(objs, modeName, g', o) {
      assert Spared(objs, modeName, g, o) && Untouched(g.objs, g'.objs, o);
      if objs[o].Table? {
        SameTable(g.objs, g'.objs, o);
      } else {
        SparedUntouched(objs, modeName, g, g'.objs, o);
      }
    }
  }

  lemma SameTable(objs: Heap, objs': Heap, o: Id)
    requires o in objs && o in objs' && Untouched(objs, objs', o) && objs[o].Table?
    ensures objs'[o] == objs[o]
  {
  }

  lemma StillLost(objs: Heap, g: Global, g': Global)
    requires Sweeps(g, g')
    ensures forall v :: Lost(objs, g, v) ==> Lost(objs, g', v)
  {
    hide BodyKept, OnlyFreed;
  }

  /** An object other than a table, left alone twice. */
  lemma SparedUntouched(objs: Heap, modeName: Id, g: Global, objs': Heap, o: Id)
    requires Preserves(objs, modeName, g) && OnlyFreed(g.objs, objs') && OpenLists(g.objs) && o in objs' && !objs[o].Table?
    ensures Untouched(objs, objs', o)
  {
    hide OpenLists, IsWeak;
    assert Spared(objs, modeName, g, o) && Untouched(g.objs, objs', o);
    if IsOpen(objs[o]) && IsOpen(g.objs[o]) {
      OpenThread(g.objs, o);
      assert Spared(objs, modeName, g, g.objs[o].box.th);
    }
  }

  /** A sweep before something that preserves the heap. */
  lemma SweptThenPreserves(g: Global, g1: Global, g': Global)
    requires Sweeps(g, g1) && Preserves(g1.objs, g1.modeName, g') && OpenLists(g1.objs)
    ensures Preserves(g.objs, g.modeName, g')
  {
    hide OpenLists, IsWeak, Untouched, Swept;
    assert OnlyFreed(g.objs, g1.objs);
    forall o | o in g'.objs ensures Spared(g.objs, g.modeName, g', o) {
      assert Spared(g1.objs, g1.modeName, g', o) && Untouched(g.objs, g1.objs, o);
      if g.objs[o].Table? {
        SameTable(g.objs, g1.objs, o);
        WeakBefore(g, g1, o);
        LostBefore(g, g1, g');
      } else {
        UntouchedSpared(g.objs, g1.objs, g1.modeName, g', o);
      }
    }
  }

  lemma LostBefore(g: Global, g1: Global, g': Global)
    requires Sweeps(g, g1)
    ensures forall v :: Lost(g1.objs, g', v) ==> Lost(g.objs, g', v)
  {
    hide Swept;
    forall v | Lost(g1.objs, g', v) ensures Lost(g.objs, g', v) { assert Untouched(g.objs, g1.objs, v.id); }
  }

  lemma WeakBefore(g: Global, g1: Global, o: Id)
    requires Sweeps(g, g1) && o in g1.objs
    ensures IsWeak(g1.objs, g.modeName, o) ==> IsWeak(g.objs, g.modeName, o)
  {
    hide OnlyFreed, Swept, Mode;
    ModeKept(g.objs, g.mark, g.cw, g1.objs, g1.mark, g.modeName, o);
    NoFlag();
  }

  lemma UntouchedSpared(objs: Heap, objs1: Heap, modeName: Id, g': Global, o: Id)
    requires OnlyFreed(objs, objs1) && Preserves(objs1, modeName, g') && OpenLists(objs1) && o in g'.objs && !objs[o].Table?
    ensures Untouched(objs, g'.objs, o)
  {
    hide OpenLists, IsWeak;
    assert Untouched(objs, objs1, o) && Spared(objs1, modeName, g', o);
    if IsOpen(objs[o]) && IsOpen(objs1[o]) {
      OpenThread(objs1, o);
      assert Untouched(objs, objs1, objs1[o].box.th);
    }
  }

  /** Sweeping keeps strong references: a table is as weak as before, or no longer weak. */
  lemma SweptStrongEdge(g: Global, g': Global, a: Id, b: Id)
    requires g.Ok() && g'.Ok() && Swept(g.objs, g.mark, g.cw, g'.objs, g'.mark) && g'.modeName == g.modeName
    requires StrongEdge(g.objs, g.modeName, a, b) && a in g.objs && !IsDead(g.mark, g.cw, a)
    ensures StrongEdge(g'.objs, g.modeName, a, b)
  {
    hide Global.Ok, Edge, Mode, HasFlag;
    SweptSameEdge(g, g', a, b);
    assert a in g'.objs && BodyKept(g.objs, g'.objs, a);
    ModeKept(g.objs, g.mark, g.cw, g'.objs, g'.mark, g.modeName, a);
    NoFlag();
  }

  lemma NoFlag()
    ensures forall c :: !HasFlag("", c)
  {
  }

  lemma SweptStrong(g: Global, g': Global, o: Id)
    requires g.Ok() && g'.Ok() && Swept(g.objs, g.mark, g.cw, g'.objs, g'.mark) && g.Roots() == g'.Roots() && g'.modeName == g.modeName
    requires StronglyReachable(g.objs, g.modeName, g.Roots(), o)
    ensures StronglyReachable(g'.objs, g'.modeName, g'.Roots(), o)
  {
    hide Global.Ok, Global.Roots, Swept, Edge, StrongEdge;
    var p :| StrongPath(g.objs, g.modeName, g.Roots(), p) && p[|p| - 1] == o;
    forall i | 0 < i < |p| ensures StrongEdge(g'.objs, g.modeName, p[i - 1], p[i]) {
      StrongPrefix(g, p, i);
      SweptStrongEdge(g, g', p[i - 1], p[i]);
    }
    assert StrongPath(g'.objs, g'.modeName, g'.Roots(), p);
  }

  lemma StrongPrefix(g: Global, p: seq<Id>, i: nat)
    requires g.Ok() && StrongPath(g.objs, g.modeName, g.Roots(), p) && 0 < i < |p|
    ensures p[i - 1] in g.objs && !IsDead(g.mark, g.cw, p[i - 1]) && StrongEdge(g.objs, g.modeName, p[i - 1], p[i])
  {
    hide Global.Ok, Global.Roots, Edge;
    var q := p[..i];
    forall j | 0 < j < |q| ensures Edge(g.objs, q[j - 1], q[j]) {
      assert StrongEdge(g.objs, g.modeName, p[j - 1], p[j]);
    }
    assert Path(g.objs, g.Roots(), q);
    PathLive(g, q);
  }

  /** Sweeping to the end removes exactly the doomed objects. */
  lemma SweptExactly(g: Global, g': Global)
    requires g.Ok() && Sweeps(g, g') && AllWhite(g'.mark, g'.cw)
    ensures forall o :: o in g'.objs <==> o in g.objs && !IsDoomed(g.mark, g.cw, o)
  {
    hide Global.Ok, BodyKept;
    OkOpen(g);
    forall o | o in g'.objs ensures o in g.objs && !IsDoomed(g.mark, g.cw, o) {
      assert g'.mark[o].color == White(g.cw);
    }
  }

  /** From the state `g1` in which marking starts, through the atomic state `g2`, to the end: what
      is left was held or is fixed. */
  lemma CycleLeaves(g1: Global, g2: Global, g3: Global, s: iset<Id>)
    requires g1.Ok() && g2.Ok() && g2.objs.Keys == g1.objs.Keys && StrongLive(g1, g2)
    requires forall o :: o in g1.objs ==> o in g1.mark && o in g2.mark && g2.mark[o].fixed == g1.mark[o].fixed
    requires forall o :: o in g2.objs && !IsDead(g2.mark, g2.cw, o) ==> o in s
    requires forall o :: o in s ==> Held(g1, o)
    requires Sweeps(g2, g3) && AllWhite(g3.mark, g3.cw)
    ensures Left(g1, g3)
  {
    hide Global.Ok, Global.Roots, AllWhite, Reachable, StronglyReachable, Held, BodyKept, OnlyFreed;
    SweptExactly(g2, g3);
    forall o | o in g3.objs ensures o in g1.mark && (Held(g1, o) || g1.mark[o].fixed) {
      assert o in g2.objs && !IsDoomed(g2.mark, g2.cw, o);
    }
  }

  /** Without weak tables all that could be reached is left. */
  lemma CycleExact(g1: Global, g2: Global, g3: Global, s: iset<Id>)
    requires g1.Ok() && g2.Ok() && g2.objs == g1.objs && g2.Roots() == g1.Roots()
    requires forall o :: o in g1.objs ==> o in g1.mark && o in g2.mark && g2.mark[o].fixed == g1.mark[o].fixed
    requires forall o :: o in g2.objs && !IsDead(g2.mark, g2.cw, o) ==> o in s
    requires forall o :: o in s ==> Reachable(g1.objs, g1.Roots(), o)
    requires Sweeps(g2, g3) && AllWhite(g3.mark, g3.cw)
    ensures Collected(g1, g3)
  {
    hide Global.Ok, Global.Roots, AllWhite, Reachable, BodyKept;
    SweptExactly(g2, g3);
    forall o ensures o in g3.objs <==> o in g1.objs && o in g1.mark && (Reachable(g1.objs, g1.Roots(), o) || g1.mark[o].fixed) {
      if Reachable(g1.objs, g1.Roots(), o) { ReachLive(g2, o); }
    }
  }

  /** The preliminary sweep changes neither what is reachable nor what is fixed. */
  lemma PrefixExact(g0: Global, g1: Global, g3: Global)
    requires g0.Ok() && g1.Ok() && Sweeps(g0, g1) && Collected(g1, g3)
    ensures Collected(g0, g3)
  {
    hide Global.Ok, Global.Roots, BodyKept, Reachable, OnlyFreed, OpenLists;
    assert g1.Roots() == g0.Roots() by { SameRoots(g0, g1); }
    OkOpen(g0);
    OkOpen(g1);
    OnlyFreedTwice(g0.objs, g1.objs, g3.objs);
    forall o ensures o in g3.objs <==> o in g0.objs && o in g0.mark && (Reachable(g0.objs, g0.Roots(), o) || g0.mark[o].fixed) {
      SweptReach(g0, g1, o);
      if Reachable(g0.objs, g0.Roots(), o) { ReachLive(g0, o); }
    }
  }

  lemma SameRoots(g: Global, g': Global)
    requires Sweeps(g, g')
    ensures g'.Roots() == g.Roots() && g'.modeName == g.modeName
  {
    hide Swept, OnlyFreed;
  }

  lemma PrefixLeaves(g0: Global, g1: Global, g3: Global)
    requires g0.Ok() && g1.Ok() && Sweeps(g0, g1) && Left(g1, g3)
    ensures Left(g0, g3)
  {
    hide Global.Ok, Global.Roots, BodyKept, Reachable, StronglyReachable, OnlyFreed, OpenLists;
    SameRoots(g0, g1);
    OkOpen(g0);
    OkOpen(g1);
    forall o | StronglyReachable(g0.objs, g0.modeName, g0.Roots(), o) ensures o in g3.objs { SweptStrong(g0, g1, o); }
    forall o | o in g3.objs ensures o in g0.mark && (Held(g0, o) || g0.mark[o].fixed) {
      assert o in g1.mark && (Held(g1, o) || g1.mark[o].fixed);
      if Held(g1, o) { HeldBefore(g0, g1, o); }
    }
  }

  lemma {:induction false} StrongReach(objs: Heap, modeName: Id, roots: set<Id>, o: Id)
    requires StronglyReachable(objs, modeName, roots, o)
    ensures Reachable(objs, roots, o)
  {
    hide Edge;
    var p :| StrongPath(objs, modeName, roots, p) && p[|p| - 1] == o;
    forall i | 0 < i < |p| ensures Edge(objs, p[i - 1], p[i]) { assert StrongEdge(objs, modeName, p[i - 1], p[i]); }
    assert Path(objs, roots, p);
  }

  lemma HeldReach(g: Global, o: Id)
    requires Held(g, o)
    ensures Reachable(g.objs, g.Roots(), o)
  {
    hide Reachable, StronglyReachable, Global.Roots;
    if StronglyReachable(g.objs, g.modeName, g.Roots(), o) { StrongReach(g.objs, g.modeName, g.Roots(), o); }
  }

  /** A live table is as weak after sweeping as before. */
  lemma LiveMode(g: Global, g': Global, t: Id)
    requires g.Ok() && g'.Ok() && Swept(g.objs, g.mark, g.cw, g'.objs, g'.mark) && t in g.objs && !IsDead(g.mark, g.cw, t)
    ensures Mode(g'.objs, g.modeName, t) == Mode(g.objs, g.modeName, t)
  {
    hide ShapeOk, Global.Phase, BodyKept, Swept, HasFlag;
    LiveTable(g, g', t);
    if g.objs[t].Table? && g.objs[t].meta.Some? {
      var m := g.objs[t].meta.value;
      assert Edge(g.objs, t, m);
      LiveTable(g, g', m);
      if g.objs[m].Table? && Ref(g.modeName) in g.objs[m].entries && g.objs[m].entries[Ref(g.modeName)].Ref? {
        var id := g.objs[m].entries[Ref(g.modeName)].id;
        assert Edge(g.objs, m, id);
        LiveTable(g, g', id);
      }
    }
  }

  /** Live tables and strings stay, as they were. */
  lemma LiveTable(g: Global, g': Global, o: Id)
    requires g.Ok() && g'.Ok() && Swept(g.objs, g.mark, g.cw, g'.objs, g'.mark) && o in g.objs && !IsDead(g.mark, g.cw, o)
    ensures o in g'.objs && (g'.objs[o].Table? <==> g.objs[o].Table?) && (g'.objs[o].Str? <==> g.objs[o].Str?)
    ensures g.objs[o].Table? || g.objs[o].Str? ==> g'.objs[o] == g.objs[o]
  {
    hide Global.Ok;
    assert o in g'.objs && BodyKept(g.objs, g'.objs, o);
  }

  /** What is strongly reachable after a sweep was so before. */
  lemma StrongBefore(g: Global, g': Global, o: Id)
    requires g.Ok() && g'.Ok() && Swept(g.objs, g.mark, g.cw, g'.objs, g'.mark) && g.Roots() == g'.Roots() && g'.modeName == g.modeName
    requires StronglyReachable(g'.objs, g'.modeName, g'.Roots(), o)
    ensures StronglyReachable(g.objs, g.modeName, g.Roots(), o)
  {
    hide Global.Ok, Global.Roots, Swept, Edge, StrongEdge, Reachable;
    var p :| StrongPath(g'.objs, g'.modeName, g'.Roots(), p) && p[|p| - 1] == o;
    forall i | 0 < i < |p| ensures StrongEdge(g.objs, g.modeName, p[i - 1], p[i]) {
      var q := p[..i];
      assert StrongEdge(g'.objs, g'.modeName, p[i - 1], p[i]);
      assert StrongPath(g'.objs, g'.modeName, g'.Roots(), q) && q[|q| - 1] == p[i - 1];
      StrongReach(g'.objs, g'.modeName, g'.Roots(), p[i - 1]);
      SweptReach(g, g', p[i - 1]);
      ReachLive(g, p[i - 1]);
      StrongEdgeBefore(g, g', p[i - 1], p[i]);
    }
    assert StrongPath(g.objs, g.modeName, g.Roots(), p);
  }

  lemma StrongEdgeBefore(g: Global, g': Global, a: Id, b: Id)
    requires g.Ok() && g'.Ok() && Swept(g.objs, g.mark, g.cw, g'.objs, g'.mark) && g'.modeName == g.modeName
    requires StrongEdge(g'.objs, g.modeName, a, b) && a in g.objs && !IsDead(g.mark, g.cw, a)
    ensures StrongEdge(g.objs, g.modeName, a, b)
  {
    hide Global.Ok, Edge, Mode, HasFlag, Swept;
    SweptSameEdge(g, g', a, b);
    LiveTable(g, g', a);
    LiveMode(g, g', a);
  }

  lemma HeldBefore(g: Global, g': Global, o: Id)
    requires g.Ok() && g'.Ok() && Sweeps(g, g') && Held(g', o)
    ensures Held(g, o) && o in g'.objs
  {
    hide Global.Ok, Global.Roots, Reachable, StronglyReachable, BodyKept;
    SameRoots(g, g');
    HeldReach(g', o);
    ReachLive(g', o);
    SweptReach(g, g', o);
    if StronglyReachable(g'.objs, g'.modeName, g'.Roots(), o) {
      StrongBefore(g, g', o);
    } else {
      ReachLive(g, o);
      LiveTable(g, g', o);
    }
  }

  lemma NoWeakKept(objs: Heap, mark: Marks, cw: bool, objs': Heap, mark': Marks, modeName: Id)
    requires Swept(objs, mark, cw, objs', mark') && NoWeak(objs, modeName)
    ensures NoWeak(objs', modeName)
  {
    forall t | t in objs' ensures !IsWeak(objs', modeName, t) {
      assert BodyKept(objs, objs', t);
      ModeKept(objs, mark, cw, objs', mark', modeName, t);
      assert !IsWeak(objs, modeName, t);
    }
  }

  lemma ModeKept(objs: Heap, mark: Marks, cw: bool, objs': Heap, mark': Marks, modeName: Id, t: Id)
    requires Swept(objs, mark, cw, objs', mark') && t in objs'
    ensures Mode(objs', modeName, t) == "" || Mode(objs', modeName, t) == Mode(objs, modeName, t)
  {
    assert BodyKept(objs, objs', t);
    if objs'[t].Table? && objs'[t].meta.Some? && objs'[t].meta.value in objs' {
      var m := objs'[t].meta.value;
      assert BodyKept(objs, objs', m);
      if objs'[m].Table? && Ref(modeName) in objs'[m].entries {
        var v := objs'[m].entries[Ref(modeName)];
        if v.Ref? && v.id in objs' {
          assert BodyKept(objs, objs', v.id);
        }
      }
    }
  }

  ghost predicate StrongLive(g: Global, g': Global) {
    forall o :: StronglyReachable(g.objs, g.modeName, g.Roots(), o) ==> o in g'.objs && !IsDead(g'.mark, g'.cw, o)
  }

  /** How far a cycle has come: marking within `s`, or sweeping from the atomic state `g2`. */
  ghost predicate InCycle(g1: Global, g2: Global, g: Global, s: iset<Id>, exact: bool) {
    if g.gcstate == Propagate then
      && g.objs == g1.objs && g.Roots() == g1.Roots() && g.modeName == g1.modeName
      && g.mark.Keys == g1.mark.Keys && (forall o :: o in g1.mark ==> g.mark[o].fixed == g1.mark[o].fixed)
      && (exact ==> g.weak == [] && NoWeak(g.objs, g.modeName))
    else
      && Preserves(g1.objs, g1.modeName, g2) && StrongLive(g1, g2)
      && g2.Ok() && Sweeps(g2, g) && (g.gcstate == Finalize || g.gcstate == Pause ==> AllWhite(g.mark, g.cw))
      && g2.objs.Keys == g1.objs.Keys && g2.Roots() == g1.Roots()
      && (forall o :: o in g1.objs ==> o in g1.mark && o in g2.mark && g2.mark[o].fixed == g1.mark[o].fixed)
      && (forall o :: o in g2.objs && !IsDead(g2.mark, g2.cw, o) ==> o in s)
      && (exact ==> g2.objs == g1.objs)
  }

  /** One more step of the cycle; the atomic step fixes `g2`. */
  lemma CycleStep(g1: Global, g2: Global, g: Global, g': Global, s: iset<Id>, exact: bool)
    requires g1.Ok() && g.Ok() && g'.Ok() && g.gcstate != Pause && StepEffect(g, g', s) && InCycle(g1, g2, g, s, exact)
    ensures g.gcstate == Propagate && g.gray == [] ==> InCycle(g1, g', g', s, exact)
    ensures !(g.gcstate == Propagate && g.gray == []) ==> InCycle(g1, g2, g', s, exact)
  {
    hide Global.Ok, StepEffect, InCycle;
    if g.gcstate == Propagate {
      MarkingStep(g1, g2, g, g', s, exact);
    } else {
      SweepingStep(g1, g2, g, g', s, exact);
    }
  }

  lemma MarkingStep(g1: Global, g2: Global, g: Global, g': Global, s: iset<Id>, exact: bool)
    requires g1.Ok() && g.Ok() && g'.Ok() && g.gcstate == Propagate && StepEffect(g, g', s) && InCycle(g1, g2, g, s, exact)
    ensures InCycle(g1, if g.gray == [] then g' else g2, g', s, exact)
  {
    hide Global.Ok, SweptStrings, SweptRoots, Swept, StronglyReachable, IsWeak, Preserves, NoWeak;
    OkOpen(g1);
    OkOpen(g);
    OkOpen(g');
    if g.gray == [] {
      SweepsSelf(g');
    }
  }

  lemma SweepingStep(g1: Global, g2: Global, g: Global, g': Global, s: iset<Id>, exact: bool)
    requires g'.Ok() && g.Ok() && g.gcstate != Propagate && g.gcstate != Pause && StepEffect(g, g', s) && InCycle(g1, g2, g, s, exact)
    ensures InCycle(g1, g2, g', s, exact)
  {
    hide Global.Shape, Global.Live, MarkOk, Edge, Swept, StronglyReachable, IsWeak, Preserves, OnlyFreed, StrongLive;
    OkOpen(g);
    if g.gcstate == Finalize {
      SweepsSelf(g);
      SweepsState(g, g, Pause);
    }
    OkOpen(g2);
    SweepsTransitive(g2, g, g');
  }

  /** Where a cycle is, for its termination: marking, string buckets, root list, end. */
  function PhaseRank(g: Global): nat {
    match g.gcstate
    case Pause => 0
    case Finalize => 1
    case Sweep => 2
    case SweepString => 3
    case Propagate => 4
  }

  function Buckets(g: Global): nat {
    if g.gcstate == SweepString && g.sweepstrgc <= |g.strt| then |g.strt| - g.sweepstrgc else 0
  }

  function ToSweep(g: Global): nat {
    if g.gcstate == Sweep && g.sweepgc <= |g.rootgc| then |g.rootgc| - g.sweepgc else 0
  }

  ghost function Whites(g: Global): set<Id> {
    if g.gcstate == Propagate then White2(g.mark) else {}
  }

  function Grays(g: Global): nat {
    if g.gcstate == Propagate then |g.gray| else 0
  }

  function Opens(g: Global): nat {
    if g.gcstate == Sweep then |g.uvhead| else 0
  }

  /** Every step of a cycle comes closer to its end. */
  lemma StepDescends(g: Global, g': Global, s: iset<Id>)
    requires g.Ok() && g'.Ok() && StepEffect(g, g', s) && g.gcstate != Pause
    ensures PhaseRank(g') <= PhaseRank(g)
    ensures PhaseRank(g') == PhaseRank(g) ==>
              Whites(g') < Whites(g)
              || (Whites(g') == Whites(g) && Grays(g') < Grays(g))
              || (Whites(g') == Whites(g) && Grays(g') == Grays(g) && Buckets(g') < Buckets(g))
              || (Whites(g') == Whites(g) && Grays(g') == Grays(g) && Buckets(g') == Buckets(g) && Opens(g') < Opens(g))
              || (Whites(g') == Whites(g) && Grays(g') == Grays(g) && Buckets(g') == Buckets(g) && Opens(g') == Opens(g)
                  && ToSweep(g') < ToSweep(g))
  {
    hide Global.Live, MarkOk, SweptStrings, SweptRoots, Swept, ShapeOk, FixedOk, StronglyReachable, EntriesRemoved;
  }

  /** Resetting the sweep touches nothing that reachability or fixedness depends on. */
  ghost predicate SameHeap(g: Global, g': Global) {
    g'.objs == g.objs && g'.mark == g.mark && g'.cw == g.cw && g'.Roots() == g.Roots() && g'.modeName == g.modeName
  }

  lemma SameReach(g: Global, g': Global)
    requires g' == g.(sweepstrgc := g'.sweepstrgc, sweepgc := g'.sweepgc, gray := g'.gray, grayagain := g'.grayagain,
                      weak := g'.weak, gcstate := g'.gcstate)
    ensures SameHeap(g, g')
  {
  }

  lemma HeldSet(g: Global, s: iset<Id>)
    requires s == iset o | Held(g, o)
    ensures ClosedSet(g.objs, g.modeName, s) && forall r :: r in g.Roots() ==> r in s
  {
    hide Reachable, StronglyReachable, Edge, StrongEdge, Global.Roots;
    forall a, b | a in s && MayMark(g.objs, g.modeName, a, b) ensures b in s {
      HeldReach(g, a);
      if StrongEdge(g.objs, g.modeName, a, b) {
        NoStringEdge(g.objs, g.modeName, a, b);
        StrongStep(g.objs, g.modeName, g.Roots(), a, b);
      } else {
        ReachStep(g.objs, g.Roots(), a, b);
      }
    }
    forall r | r in g.Roots() ensures r in s { StrongRoot(g.objs, g.modeName, g.Roots(), r); }
  }

  lemma NoStringEdge(objs: Heap, modeName: Id, a: Id, b: Id)
    requires StrongEdge(objs, modeName, a, b)
    ensures a in objs && !objs[a].Str?
  {
  }

  lemma StrongRoot(objs: Heap, modeName: Id, roots: set<Id>, o: Id)
    requires o in roots
    ensures StronglyReachable(objs, modeName, roots, o)
  {
    assert StrongPath(objs, modeName, roots, [o]);
  }

  lemma StrongStep(objs: Heap, modeName: Id, roots: set<Id>, a: Id, b: Id)
    requires StronglyReachable(objs, modeName, roots, a) && StrongEdge(objs, modeName, a, b)
    ensures StronglyReachable(objs, modeName, roots, b)
  {
    hide StrongEdge;
    var p :| StrongPath(objs, modeName, roots, p) && p[|p| - 1] == a;
    assert StrongPath(objs, modeName, roots, p + [b]);
  }

  lemma BeginCycle(g0: Global, g1: Global, g: Global, s: iset<Id>, exact: bool)
    requires g0.Ok() && g1.Ok() && g.Ok() && Sweeps(g0, g1)
    requires g == g1.(mark := g.mark, gray := g.gray, grayagain := [], weak := [], gcstate := Propagate) && Marked(g1.mark, g.mark)
    requires exact ==> NoWeak(g0.objs, g0.modeName)
    ensures InCycle(g1, g, g, s, exact) && g.Roots() == g1.Roots()
  {
    hide Global.Ok, NoWeak, Swept;
    if exact { NoWeakKept(g0.objs, g0.mark, g0.cw, g1.objs, g1.mark, g0.modeName); }
  }

  /** While marking goes on the heap stays as it is. */
  lemma StepClosed(g: Global, g': Global, s: iset<Id>)
    requires StepEffect(g, g', s) && g.gcstate != Pause
    requires g.gcstate == Propagate ==> ClosedSet(g.objs, g.modeName, s) && forall r :: r in g.Roots() ==> r in s
    ensures g'.gcstate == Propagate ==> ClosedSet(g'.objs, g'.modeName, s) && forall r :: r in g'.Roots() ==> r in s
  {
    hide Swept, EntriesRemoved, StronglyReachable, ClosedSet, OnlyFreed, Preserves, NoWeak, Propagated;
  }

  lemma EndCycle(g: Global, g0: Global, g1: Global, g2: Global, g3: Global, s: iset<Id>, exact: bool)
    requires g0.Ok() && g1.Ok() && g3.Ok() && SameHeap(g, g0) && Sweeps(g0, g1)
    requires s == iset o | Held(g1, o)
    requires InCycle(g1, g2, g3, s, exact) && g3.gcstate == Pause
    ensures AllWhite(g3.mark, g3.cw) && (exact ==> Collected(g, g3)) && Preserves(g.objs, g.modeName, g3) && Left(g, g3)
  {
    hide Global.Ok, Reachable, Swept, AllWhite, Preserves, OnlyFreed, OpenLists, StronglyReachable, StrongLive;
    OkOpen(g1);
    OkOpen(g2);
    PreservesSwept(g1.objs, g1.modeName, g2, g3);
    SweptThenPreserves(g0, g1, g3);
    CycleLeaves(g1, g2, g3, s);
    PrefixLeaves(g0, g1, g3);
    if exact {
      forall o | o in s ensures Reachable(g1.objs, g1.Roots(), o) { HeldReach(g1, o); }
      CycleExact(g1, g2, g3, s);
      PrefixExact(g0, g1, g3);
    }
  }

  /** Sweeping when nothing is dead frees nothing. */
  lemma NothingFreed(g: Global, g': Global)
    requires Sweeps(g, g')
    ensures NoneDead(g.mark, g.cw) ==> g'.objs.Keys == g.objs.Keys
  {
    hide BodyKept;
    if NoneDead(g.mark, g.cw) {
      forall o | o in g.objs ensures o in g'.objs { assert o in g.mark; }
    }
  }
}
