/** What instructions do to each other: what is stored is read, a captured variable is one variable
    for its slot and for every closure, and closing it keeps its value (lvm.c:402-470, lfunc.c:53-110).
    Slots, entries and upvalues are those of the heap itself. */
module InstructionLaws {
  import opened Wrappers
  import opened LuaHeap
  import opened GcInvariants
  import GcCycles
  import GcSweeping
  import opened GcMutator
  import opened Instructions

  /** Slot `i` of the running thread holds `v`. */
  ghost predicate Holds(g: Global, i: nat, v: Value) {
    g.running in g.objs && g.objs[g.running].Thread? && i < |g.objs[g.running].stack| && g.objs[g.running].stack[i] == v
  }

  ghost predicate HasSlot(g: Global, i: nat) { exists v :: Holds(g, i, v) }

  /** Slot `t` holds the table `h`. */
  ghost predicate TableIn(g: Global, t: nat, h: Id) {
    Holds(g, t, Ref(h)) && h in g.objs && g.objs[h].Table?
  }

  /** Table `h` has `v` under `key`, or has no such key and `v` is nil. */
  ghost predicate Has(g: Global, h: Id, key: Value, v: Value) {
    h in g.objs && g.objs[h].Table? &&
    if key in g.objs[h].entries then g.objs[h].entries[key] == v else v == Nil
  }

  /** Upvalue `i` of the closure in slot `f` is `u`. */
  ghost predicate Refers(g: Global, f: nat, i: nat, u: Id) {
    exists c :: Holds(g, f, Ref(c)) && c in g.objs && g.objs[c].LClosure? && i < |g.objs[c].upvals| && g.objs[c].upvals[i] == u
                && u in g.objs && g.objs[u].Upval?
  }

  lemma MoveCopies(g: Global, g': Global, a: nat, b: nat, v: Value)
    requires Follows(g, Move(a, b), g') && HasSlot(g, a) && Holds(g, b, v)
    ensures Holds(g', a, v)
    ensures forall i, w :: i != a && Holds(g, i, w) ==> Holds(g', i, w)
    ensures forall o :: o in g.objs && o != g.running ==> o in g'.objs && g'.objs[o] == g.objs[o]
  {
    hide Global.Ok;
  }

  // ----- tables -----

  lemma Stored(g: Global, g': Global, t: nat, k: nat, val: nat, h: Id, key: Value, v: Value)
    requires Follows(g, SetTable(t, k, val), g') && TableIn(g, t, h) && Holds(g, k, key) && key != Nil && Holds(g, val, v)
    ensures Has(g', h, key, v) && TableIn(g', t, h)
    ensures forall x, w :: x != key && Has(g, h, x, w) ==> Has(g', h, x, w)
    ensures forall i, w :: Holds(g, i, w) ==> Holds(g', i, w)
  {
    hide Global.Ok;
  }

  lemma Loaded(g: Global, g': Global, a: nat, t: nat, k: nat, h: Id, key: Value, v: Value)
    requires Follows(g, GetTable(a, t, k), g') && HasSlot(g, a) && TableIn(g, t, h) && Holds(g, k, key) && Has(g, h, key, v)
    ensures Holds(g', a, v)
  {
    hide Global.Ok;
  }

  lemma SlotStays(g: Global, g': Global, i: nat)
    requires HasSlot(g, i) && forall j, w :: Holds(g, j, w) ==> Holds(g', j, w)
    ensures HasSlot(g', i)
  {
    hide Holds;
    var v :| Holds(g, i, v);
    assert Holds(g', i, v);
  }

  /** What is stored under a key is read under it; nil removes the entry. */
  lemma StoredIsRead(g: Global, g1: Global, g2: Global, t: nat, k: nat, val: nat, a: nat, h: Id, key: Value, v: Value)
    requires Follows(g, SetTable(t, k, val), g1) && Follows(g1, GetTable(a, t, k), g2)
    requires TableIn(g, t, h) && Holds(g, k, key) && key != Nil && Holds(g, val, v) && HasSlot(g, a)
    ensures Holds(g2, a, v)
  {
    hide Follows, Holds, Has, TableIn;
    Stored(g, g1, t, k, val, h, key, v);
    SlotStays(g, g1, a);
    Loaded(g1, g2, a, t, k, h, key, v);
  }

  /** Other keys are read as before. */
  lemma OthersRead(g: Global, g1: Global, g2: Global, t: nat, k: nat, val: nat, a: nat, k2: nat, h: Id, key: Value, key2: Value, v: Value, w: Value)
    requires Follows(g, SetTable(t, k, val), g1) && Follows(g1, GetTable(a, t, k2), g2)
    requires TableIn(g, t, h) && Holds(g, k, key) && key != Nil && Holds(g, val, v) && HasSlot(g, a)
    requires Holds(g, k2, key2) && key2 != key && Has(g, h, key2, w)
    ensures Holds(g2, a, w)
  {
    hide Follows, Holds, Has, TableIn;
    Stored(g, g1, t, k, val, h, key, v);
    SlotStays(g, g1, a);
    Loaded(g1, g2, a, t, k2, h, key2, w);
  }

  // ----- captured variables -----

  lemma UpvalFound(g: Global, f: nat, i: nat, u: Id)
    requires Refers(g, f, i, u)
    ensures UpvalOf(g, Slot(g, f), i) == Some(u)
  {
  }

  /** The variable of an upvalue: the slot it is open on, or its own box. */
  ghost predicate Denotes(g: Global, u: Id, v: Value) {
    u in g.objs && g.objs[u].Upval? &&
    match g.objs[u].box
    case Closed(w) => v == w
    case Open(th, level) => th in g.objs && g.objs[th].Thread? && level < |g.objs[th].stack| && v == g.objs[th].stack[level]
  }

  /** Reading an upvalue gives the variable's value. */
  lemma UpvalRead(g: Global, g': Global, a: nat, f: nat, i: nat, u: Id, v: Value)
    requires Follows(g, GetUpval(a, f, i), g') && HasSlot(g, a) && Refers(g, f, i, u) && Denotes(g, u, v)
    ensures Holds(g', a, v)
  {
    hide Global.Ok;
    UpvalFound(g, f, i, u);
  }

  /** Writing an upvalue writes the variable, and no slot but the one it is open on. */
  lemma UpvalWritten(g: Global, g': Global, f: nat, i: nat, val: nat, u: Id, v: Value)
    requires Follows(g, SetUpval(f, i, val), g') && Refers(g, f, i, u) && Holds(g, val, v)
    ensures Denotes(g', u, v)
    ensures forall level: nat :: g.objs[u].box == Open(g.running, level) ==> Holds(g', level, v)
    ensures forall j: nat, w :: g.objs[u].box != Open(g.running, j) && Holds(g, j, w) ==> Holds(g', j, w)
    ensures forall c :: c in g.objs && g.objs[c].LClosure? ==> c in g'.objs && g'.objs[c] == g.objs[c]
  {
    hide Global.Ok;
    UpvalFound(g, f, i, u);
  }

  /** What one closure writes to a shared variable another one reads. */
  lemma SharedVariable(g: Global, g1: Global, g2: Global, f: nat, i: nat, val: nat, a: nat, f2: nat, j: nat, u: Id, v: Value)
    requires Follows(g, SetUpval(f, i, val), g1) && Follows(g1, GetUpval(a, f2, j), g2)
    requires Refers(g, f, i, u) && Refers(g, f2, j, u) && Holds(g, val, v) && HasSlot(g, a) && g.objs[u].box != Open(g.running, f2)
    ensures Holds(g2, a, v)
  {
    hide Follows;
    UpvalWritten(g, g1, f, i, val, u, v);
    assert Refers(g1, f2, j, u);
    var w :| Holds(g, a, w);
    assert HasSlot(g1, a) by { assert Holds(g1, a, w) || Holds(g1, a, v); }
    UpvalRead(g1, g2, a, f2, j, u, v);
  }

  /** Closing upvalues changes no variable that a closure in a slot refers to. */
  lemma ClosedKeepsValue(g: Global, g': Global, level: nat, f: nat, i: nat, u: Id, v: Value)
    requires Follows(g, CloseUpvals(level), g') && Refers(g, f, i, u) && Denotes(g, u, v)
    ensures Refers(g', f, i, u) && Denotes(g', u, v)
    ensures forall j, w :: Holds(g, j, w) ==> Holds(g', j, w)
  {
    hide Global.Ok, GcSweeping.Closes;
    RefersLive(g, f, i, u);
    StillRunning(g, g', g.running);
    var c :| Holds(g, f, Ref(c)) && c in g.objs && g.objs[c].LClosure? && i < |g.objs[c].upvals| && g.objs[c].upvals[i] == u;
    assert Holds(g', f, Ref(c)) && c in g'.objs && g'.objs[c] == g.objs[c];
  }

  lemma StillRunning(g: Global, g': Global, th: Id)
    requires GcSweeping.Closes(g, g', th)
    ensures g'.running == g.running
  {
  }

  lemma RefersLive(g: Global, f: nat, i: nat, u: Id)
    requires g.Ok() && Refers(g, f, i, u)
    ensures !IsDead(g.mark, g.cw, u)
  {
    hide Global.Ok;
    var c :| Holds(g, f, Ref(c)) && c in g.objs && g.objs[c].LClosure? && i < |g.objs[c].upvals| && g.objs[c].upvals[i] == u;
    assert Reachable(g.objs, g.Roots(), g.running) by { assert Path(g.objs, g.Roots(), [g.running]); }
    ReachStep(g.objs, g.Roots(), g.running, c);
    ReachStep(g.objs, g.Roots(), c, u);
    GcCycles.ReachLive(g, u);
  }
}
