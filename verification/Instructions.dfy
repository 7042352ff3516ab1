/** What the mutator's instructions do to the program's state (lvm.c, lapi.c, lfunc.c): objects,
    basic metatables and the running thread. Operands are slots of the running thread; an
    instruction whose operands have the wrong type raises an error in the machine, and here leaves
    the state alone. */
module Instructions {
  import opened Wrappers
  import opened LuaHeap
  import opened GcInvariants
  import GcSweeping
  import GcCycles
  import opened GcMutator

  function Write(g: Global, a: nat, v: Value): Global {
    if a < |Stack(g)| then SetStack(g, g.running, Stack(g)[a := v]) else g
  }

  predicate IsTable(g: Global, v: Value) { v.Ref? && v.id in g.objs && g.objs[v.id].Table? }

  predicate IsClosure(g: Global, v: Value) { v.Ref? && v.id in g.objs && g.objs[v.id].LClosure? }

  /** The upvalue a closure refers to by this index. */
  function UpvalOf(g: Global, f: Value, index: nat): Option<Id> {
    if IsClosure(g, f) && index < |g.objs[f.id].upvals| && g.objs[f.id].upvals[index] in g.objs
       && g.objs[g.objs[f.id].upvals[index]].Upval?
    then Some(g.objs[f.id].upvals[index]) else None
  }

  /** The top slot goes only when no open upvalue points to it. */
  predicate MayPop(g: Global) {
    && Stack(g) != []
    && (g.objs[g.running].openupval == [] || Level(g.objs, g.objs[g.running].openupval[0]) < |Stack(g)| - 1)
  }

  function Slots(g: Global, places: seq<nat>): seq<Value> {
    seq(|places|, i requires 0 <= i < |places| => Slot(g, places[i]))
  }

  /** The prototypes of the closures in these slots. */
  function Protos(g: Global, places: seq<nat>): seq<Id> {
    if places == [] then [] else
      var v := Slot(g, places[|places| - 1]);
      Protos(g, places[..|places| - 1]) + if IsClosure(g, v) then [g.objs[v.id].proto] else []
  }

  /** Only objects change, and what the barriers and the allocator keep. */
  ghost predicate Objects(g: Global, g': Global, objs: Heap) {
    && g' == g.(objs := objs, mark := g'.mark, gray := g'.gray, grayagain := g'.grayagain, strt := g'.strt, uvhead := g'.uvhead,
                rootgc := g'.rootgc, sweepgc := g'.sweepgc, nextId := g'.nextId)
  }

  /** `s` is the only string with these characters, found or new. */
  ghost predicate Interned(g: Global, chars: string, s: Id, g': Global) {
    && Objects(g, g', g'.objs) && s in g'.objs && g'.objs[s] == Str(chars)
    && (g'.objs == g.objs || (s == g.nextId && g'.objs == g.objs[s := Str(chars)]))
  }

  predicate Usable(g: Global, shared: nat, c: Capture) {
    if c.FromSlot? then c.level < |Stack(g)| else c.index < shared
  }

  /** Capturing adds open upvalues of the running thread and changes nothing else. */
  ghost predicate Captures(g: Global, g': Global) {
    && Objects(g, g', g'.objs) && g.nextId <= g'.nextId && g.objs.Keys <= g'.objs.Keys
    && (forall o :: o in g.objs ==> if o == g.running && g.objs[o].Thread? then Tied(g, g', o) else g'.objs[o] == g.objs[o])
    && (forall o :: o in g'.objs && o !in g.objs ==> IsOpen(g'.objs[o]) && g'.objs[o].box.th == g.running)
  }

  /** The list of thread `th` has the new upvalues beside the old ones. */
  ghost predicate Tied(g: Global, g': Global, th: Id)
    requires th in g.objs && g.objs[th].Thread? && th in g'.objs
  {
    && g'.objs[th].Thread? && g'.objs[th] == g.objs[th].(openupval := g'.objs[th].openupval)
    && (forall u :: u in g'.objs[th].openupval <==> u in g.objs[th].openupval || (u in g'.objs && u !in g.objs))
  }

  /** `u` is what a new closure gets for capture `c`. */
  predicate CapturedAs(g: Global, shared: seq<Id>, c: Capture, u: Id) {
    if c.FromSlot? then u in g.objs && g.objs[u] == Upval(Open(g.running, c.level))
    else c.index < |shared| && u == shared[c.index]
  }

  ghost predicate Captured(g: Global, g': Global, shared: seq<Id>, captures: seq<Capture>, ups: seq<Id>) {
    && Captures(g, g') && |ups| == |captures|
    && (forall i :: 0 <= i < |ups| ==> CapturedAs(g', shared, captures[i], ups[i]))
    && (forall o :: o in g'.objs && o !in g.objs ==> IsOpen(g'.objs[o]) && FromSlot(g'.objs[o].box.level) in captures)
  }

  /** A new closure of the `p`th function in that of the closure `f`. */
  ghost predicate Encloses(g: Global, f: Id, p: nat, captures: seq<Capture>, a: nat, g': Global)
    requires f in g.objs && g.objs[f].LClosure?
  {
    var LClosure(env, outer, shared) := g.objs[f];
    if outer in g.objs && g.objs[outer].Proto? && p < |g.objs[outer].nested|
       && forall i :: 0 <= i < |captures| ==> Usable(g, |shared|, captures[i])
    then exists g1: Global, ups ::
           Captured(g, g1, shared, captures, ups)
           && g' == Write(Allocated(g1, LClosure(env, g.objs[outer].nested[p], ups), 0), a, Ref(g1.nextId))
    else g' == g
  }

  /** The running thread is there, and the invariant holds. */
  ghost predicate Mutates(g: Global) {
    g.Ok() && g.running in g.objs && g.objs[g.running].Thread?
  }

  ghost predicate Effect(g: Global, op: Op, g': Global)
    requires g.running in g.objs && g.objs[g.running].Thread?
  {
    var gt := g.objs[g.running].gt;
    match op
    case Move(a, b) => g' == Write(g, a, Slot(g, b))
    case LoadPrim(a, prim) => g' == if prim.Ref? then g else Write(g, a, prim)
    case Push => g' == SetStack(g, g.running, Stack(g) + [Nil])
    case Pop => g' == if MayPop(g) then SetStack(g, g.running, Stack(g)[..|Stack(g)| - 1]) else g
    case NewTable(a) => g' == Write(Allocated(g, Table(None, map[]), 0), a, Ref(g.nextId))
    case NewThread(a) => g' == Write(Allocated(g, Thread(gt, [Nil], []), 0), a, Ref(g.nextId))
    case LoadString(a, chars) => exists s, g1: Global :: Interned(g, chars, s, g1) && g' == Write(g1, a, Ref(s))
    case NewUserdata(a) =>
      if gt.Ref? then exists g1: Global :: Objects(g, g1, g.objs[g.nextId := Udata(None, gt.id)]) && g' == Write(g1, a, Ref(g.nextId))
      else g' == g
    case LoadFunction(a, constants, functions) =>
      if gt.Ref? then
        var g1 := Allocated(g, Proto(Slots(g, constants), Protos(g, functions)), 0);
        g' == Write(Allocated(g1, LClosure(gt.id, g.nextId, []), 0), a, Ref(g1.nextId))
      else g' == g
    case GetTable(a, t, key) =>
      var h, k := Slot(g, t), Slot(g, key);
      g' == if !IsTable(g, h) then g else Write(g, a, if k in g.objs[h.id].entries then g.objs[h.id].entries[k] else Nil)
    case SetTable(t, key, val) =>
      var h, k, v := Slot(g, t), Slot(g, key), Slot(g, val);
      if IsTable(g, h) && k != Nil then Objects(g, g', g.objs[h.id := g.objs[h.id].(entries := SetEntry(g.objs[h.id].entries, k, v))])
      else g' == g
    case SetMetatable(t, m) =>
      var h, v := Slot(g, t), Slot(g, m);
      if IsTable(g, h) && (v == Nil || IsTable(g, v)) then
        Objects(g, g', g.objs[h.id := g.objs[h.id].(meta := if v == Nil then None else Some(v.id))])
      else if h.Ref? && h.id in g.objs && g.objs[h.id].Udata? && IsTable(g, v) then
        Objects(g, g', g.objs[h.id := g.objs[h.id].(udMeta := Some(v.id))])
      else g' == g
    case MakeClosure(a, cl, p, captures) =>
      var f := Slot(g, cl);
      if IsClosure(g, f) then Encloses(g, f.id, p, captures, a, g') else g' == g
    case GetUpval(a, cl, index) =>
      var u := UpvalOf(g, Slot(g, cl), index);
      g' == if u.Some? then Write(g, a, BoxValue(g.objs, g.objs[u.value].box)) else g
    case SetUpval(cl, index, val) =>
      var u, v := UpvalOf(g, Slot(g, cl), index), Slot(g, val);
      if u.None? then g' == g
      else if g.objs[u.value].box.Closed? then Objects(g, g', g.objs[u.value := Upval(Closed(v))])
      else
        var th, level := g.objs[u.value].box.th, g.objs[u.value].box.level;
        th in g.objs && g.objs[th].Thread? && level < |g.objs[th].stack| && g' == SetStack(g, th, g.objs[th].stack[level := v])
    case CloseUpvals(level) =>
      GcSweeping.Closes(g, g', g.running) && GcSweeping.ClosedFrom(g.objs, g.mark, g.cw, g'.objs, g.running, level)
    case Resume(t) =>
      var v := Slot(g, t);
      g' == if v.Ref? && v.id in g.objs && g.objs[v.id].Thread? then g.(running := v.id) else g
    case MoveAcross(t, val) =>
      var th := Slot(g, t);
      g' == if th.Ref? && th.id in g.objs && g.objs[th.id].Thread? then SetStack(g, th.id, g.objs[th.id].stack + [Slot(g, val)]) else g
    case SetBasicMetatable(i, m) =>
      var v := Slot(g, m);
      g' == if i < |g.mt| then g.(mt := g.mt[i := if v.Ref? then Some(v.id) else None]) else g
    case AddConstant(cl, val) =>
      var f := Slot(g, cl);
      if IsClosure(g, f) && g.objs[f.id].proto in g.objs && g.objs[g.objs[f.id].proto].Proto? then
        var p := g.objs[f.id].proto;
        Objects(g, g', g.objs[p := g.objs[p].(k := g.objs[p].k + [Slot(g, val)])])
      else g' == g
    case FixString(a) =>
      var v := Slot(g, a);
      g' == if v.Ref? && v.id in g.objs && g.objs[v.id].Str? && v.id in g.mark then Fixed(g, v.id) else g
    case ResizeTable(newsize) =>
      g' == g.(strt := g'.strt) && if newsize > 0 && g.gcstate != SweepString then |g'.strt| == newsize else g' == g
    case GcStep => GcCycles.StepEffect(g, g', AllIds()) && GcCycles.Preserves(g.objs, g.modeName, g')
    case GcFull => GcCycles.FullCollection(g, g')
  }

  /** One step of a run. */
  ghost predicate Follows(g: Global, op: Op, g': Global) {
    Mutates(g) && Effect(g, op, g')
  }

  lemma ProtosNext(g: Global, places: seq<nat>, i: nat)
    requires i < |places|
    ensures var v := Slot(g, places[i]);
            Protos(g, places[..i + 1]) == Protos(g, places[..i]) + if IsClosure(g, v) then [g.objs[v.id].proto] else []
  {
    assert places[..i + 1][..i] == places[..i];
  }

  lemma CapturesSelf(g: Global)
    ensures Captures(g, g)
  {
  }

  lemma CapturesTwice(g0: Global, g1: Global, g2: Global)
    requires Captures(g0, g1) && Captures(g1, g2)
    ensures Captures(g0, g2)
  {
  }

  /** Slots and upvalues stay usable while others are captured. */
  lemma UsableStays(g: Global, g': Global, shared: nat, c: Capture)
    requires Captures(g, g') && Usable(g, shared, c)
    ensures Usable(g', shared, c)
  {
  }

  lemma CapturesFound(g: Global, g': Global, level: nat, u: Id)
    requires g.running in g.objs && g.objs[g.running].Thread? && g.nextId !in g.objs
    requires g' == g.(objs := g'.objs, mark := g'.mark, uvhead := g'.uvhead, nextId := g'.nextId)
    requires g' == g.(mark := g'.mark)
             || (exists i: nat :: i <= |g.objs[g.running].openupval| && g' == WithUpval(g, g.running, level, i))
    requires u in g'.objs && g'.objs[u] == Upval(Open(g.running, level))
    ensures Captures(g, g') && CapturedAs(g', [], FromSlot(level), u)
    ensures forall o :: o in g'.objs && o !in g.objs ==> g'.objs[o] == Upval(Open(g.running, level))
  {
    if g' != g.(mark := g'.mark) {
      var i: nat :| i <= |g.objs[g.running].openupval| && g' == WithUpval(g, g.running, level, i);
      var l := g.objs[g.running].openupval;
      forall v ensures v in InsertAt(l, i, g.nextId) <==> v in l || v == g.nextId { InsertElem(l, i, g.nextId, v); }
    }
  }

  lemma CapturedMore(g: Global, g1: Global, g2: Global, shared: seq<Id>, captures: seq<Capture>, i: nat, ups: seq<Id>)
    requires i < |captures| && |ups| == i + 1 && Captured(g, g1, shared, captures[..i], ups[..i])
    requires Captures(g1, g2) && CapturedAs(g2, shared, captures[i], ups[i])
    requires forall o :: o in g2.objs && o !in g1.objs ==> IsOpen(g2.objs[o]) && FromSlot(g2.objs[o].box.level) == captures[i]
    ensures Captured(g, g2, shared, captures[..i + 1], ups)
  {
    CapturesTwice(g, g1, g2);
  }
}
