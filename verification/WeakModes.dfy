/** Weak tables under a full collection (lgc.c:158-196, 337-375), in terms of the characters of the
    string under `__mode` and of plain references. */
module WeakModes {
  import opened Wrappers
  import opened LuaHeap
  import opened GcInvariants
  import opened GcCycles

  // ----- what weak means -----

  /** The metatable of `t` has the string `s` under `__mode`. */
  ghost predicate ModeIs(g: Global, t: Id, s: string) {
    t in g.objs && g.objs[t].Table? &&
    exists m, id :: g.objs[t].meta == Some(m) && m in g.objs && g.objs[m].Table? && id in g.objs && g.objs[id] == Str(s) &&
                    Ref(g.modeName) in g.objs[m].entries && g.objs[m].entries[Ref(g.modeName)] == Ref(id)
  }

  /** `c` is in `s`, and no NUL before it. */
  ghost predicate Occurs(c: char, s: string) {
    exists i :: 0 <= i < |s| && s[i] == c && forall j :: 0 <= j < i ==> s[j] != '\0'
  }

  ghost predicate Flagged(g: Global, t: Id, c: char) {
    exists s :: ModeIs(g, t, s) && Occurs(c, s)
  }

  lemma {:induction false} FlagOccurs(s: string, c: char)
    requires c != '\0'
    ensures HasFlag(s, c) <==> Occurs(c, s)
  {
    if s != [] {
      FlagOccurs(s[1..], c);
      if Occurs(c, s[1..]) && s[0] != '\0' {
        var i :| 0 <= i < |s[1..]| && s[1..][i] == c && forall j :: 0 <= j < i ==> s[1..][j] != '\0';
        forall j | 0 <= j < i + 1 ensures s[j] != '\0' { assert j > 0 ==> s[j] == s[1..][j - 1]; }
        assert s[i + 1] == c;
      }
      if Occurs(c, s) && s[0] != c {
        var i :| 0 <= i < |s| && s[i] == c && forall j :: 0 <= j < i ==> s[j] != '\0';
        assert s[0] != '\0' && s[1..][i - 1] == c;
        forall j | 0 <= j < i - 1 ensures s[1..][j] != '\0' { assert s[1..][j] == s[j + 1]; }
      }
    }
  }

  lemma ModeMeans(g: Global, t: Id, s: string)
    ensures ModeIs(g, t, s) ==> Mode(g.objs, g.modeName, t) == s
    ensures !(exists s' :: ModeIs(g, t, s')) ==> Mode(g.objs, g.modeName, t) == ""
  {
    var mode := Mode(g.objs, g.modeName, t);
    if mode != "" {
      var m := g.objs[t].meta.value;
      var id := g.objs[m].entries[Ref(g.modeName)].id;
      assert g.objs[id] == Str(mode);
      assert ModeIs(g, t, mode);
    }
  }

  /** Keys are weak with a 'k' in the mode, values with a 'v'. */
  lemma FlagMeans(g: Global, t: Id)
    ensures WeakKey(g.objs, g.modeName, t) <==> Flagged(g, t, 'k')
    ensures WeakValue(g.objs, g.modeName, t) <==> Flagged(g, t, 'v')
  {
    hide HasFlag, Mode, ModeIs;
    var mode := Mode(g.objs, g.modeName, t);
    FlagOccurs(mode, 'k');
    FlagOccurs(mode, 'v');
    FlagOccurs("", 'k');
    FlagOccurs("", 'v');
    NoFlag();
    ModeMeans(g, t, mode);
    forall s | ModeIs(g, t, s) ensures s == mode { ModeMeans(g, t, s); }
    if !ModeIs(g, t, mode) { ModeMeans(g, t, mode); }
  }

  /** A full collection keeps the name `__mode`, with its mark. */
  lemma ModeNameStays(g: Global, g': Global)
    requires g'.Ok() && FullCollection(g, g')
    ensures g.modeName in g.objs && g.objs[g.modeName] == Str("__mode") && g.modeName in g.mark && g.mark[g.modeName].fixed ==>
              g'.modeName in g'.objs && g'.objs[g'.modeName] == Str("__mode") && g'.modeName in g'.mark && g'.mark[g'.modeName].fixed
  {
    hide Reachable, StronglyReachable, Collected, IsWeak, Held;
    if g.modeName in g.objs && g.modeName in g.mark && g.mark[g.modeName].fixed && g.objs[g.modeName] == Str("__mode") {
      assert Spared(g.objs, g.modeName, g', g.modeName);
    }
  }

  // ----- what is kept alive -----

  /** `a` keeps `b` alive: it refers to it otherwise than by a weak key or a weak value. */
  ghost predicate Keeps(g: Global, a: Id, b: Id) {
    a in g.objs &&
    if g.objs[a].Table? then
      || g.objs[a].meta == Some(b)
      || (Ref(b) in g.objs[a].entries && !Flagged(g, a, 'k'))
      || (exists k :: k in g.objs[a].entries && g.objs[a].entries[k] == Ref(b) && !Flagged(g, a, 'v'))
    else Edge(g.objs, a, b)
  }

  ghost predicate Chain(g: Global, p: seq<Id>) {
    |p| > 0 && p[0] in g.Roots() && forall i :: 0 < i < |p| ==> Keeps(g, p[i - 1], p[i])
  }

  ghost predicate KeptAlive(g: Global, o: Id) {
    exists p :: Chain(g, p) && p[|p| - 1] == o
  }

  lemma KeepsMeans(g: Global, a: Id, b: Id)
    ensures StrongEdge(g.objs, g.modeName, a, b) <==> Keeps(g, a, b)
  {
    hide Flagged, WeakKey, WeakValue;
    FlagMeans(g, a);
  }

  lemma AliveMeans(g: Global, o: Id)
    ensures StronglyReachable(g.objs, g.modeName, g.Roots(), o) <==> KeptAlive(g, o)
  {
    hide Keeps, StrongEdge, Global.Roots;
    forall p ensures Chain(g, p) <==> StrongPath(g.objs, g.modeName, g.Roots(), p) {
      forall i | 0 < i < |p| ensures Keeps(g, p[i - 1], p[i]) <==> StrongEdge(g.objs, g.modeName, p[i - 1], p[i]) {
        KeepsMeans(g, p[i - 1], p[i]);
      }
    }
  }

  /** `v` is no object, a string, or kept alive by something. */
  ghost predicate Endures(g: Global, v: Value) {
    v.Ref? && v.id in g.objs && !g.objs[v.id].Str? ==> KeptAlive(g, v.id)
  }

  // ----- the laws -----

  /** Of the objects that are no strings a full collection leaves those that are kept alive. */
  ghost predicate OnlyAlive(g: Global, g': Global) {
    forall o :: o in g.objs && !g.objs[o].Str? ==> (o in g'.objs <==> KeptAlive(g, o))
  }

  /** A table that is left has exactly those of its entries whose key and value endure. Only weak
      halves can fail to: without a 'v' in the mode every value endures, without a 'k' every key. */
  ghost predicate EntriesExact(g: Global, g': Global, t: Id) {
    t in g.objs && t in g'.objs && g.objs[t].Table? && g'.objs[t].Table? &&
    var es, es' := g.objs[t].entries, g'.objs[t].entries;
    && (forall k :: k in es' ==> k in es && es'[k] == es[k])
    && (forall k :: k in es ==> (k in es' <==> Endures(g, k) && Endures(g, es[k])))
    && (!Flagged(g, t, 'v') ==> forall k :: k in es ==> Endures(g, es[k]))
    && (!Flagged(g, t, 'k') ==> forall k :: k in es ==> Endures(g, k))
    && (forall k :: k in es' ==> (k.Ref? ==> k.id in g'.objs) && (es'[k].Ref? ==> es'[k].id in g'.objs))
  }

  ghost predicate WeakExact(g: Global, g': Global) {
    OnlyAlive(g, g') && forall t :: t in g'.objs && t in g.objs && g.objs[t].Table? ==> EntriesExact(g, g', t)
  }

  lemma AliveLeft(g: Global, g': Global)
    requires g.Ok() && FullCollection(g, g')
    ensures OnlyAlive(g, g')
  {
    hide KeptAlive, StronglyReachable, ShapeOk, LiveOk, Preserves, Collected, AllWhite, Reachable, Global.Phase, Global.Roots;
    forall o | o in g.objs && !g.objs[o].Str? ensures o in g'.objs <==> KeptAlive(g, o) {
      AliveMeans(g, o);
      MainRoot(g);
      if o == g.main { StrongRoot(g.objs, g.modeName, g.Roots(), o); }
    }
  }

  lemma MainRoot(g: Global)
    ensures g.main in g.Roots()
  {
  }

  lemma NothingLost(g: Global, g': Global)
    requires g'.Ok() && AllWhite(g'.mark, g'.cw)
    ensures forall v :: Lost(g.objs, g', v) ==> v.id !in g'.objs
    ensures forall a, b :: Edge(g'.objs, a, b) ==> b in g'.objs
  {
    hide Edge, ShapeOk, NeverBlack, RootsLive, Global.Phase;
    NoneDeadNow(g'.objs, g'.mark, g'.cw);
  }

  lemma NoneDeadNow(objs: Heap, mark: Marks, cw: bool)
    requires AllWhite(mark, cw)
    ensures forall o :: !IsDead(mark, cw, o) && !IsDoomed(mark, cw, o)
  {
  }

  lemma AliveEntries(g: Global, g': Global, t: Id)
    requires g.Ok() && g'.Ok() && FullCollection(g, g') && OnlyAlive(g, g')
    requires t in g'.objs && t in g.objs && g.objs[t].Table?
    ensures EntriesExact(g, g', t)
  {
    hide KeptAlive, StronglyReachable, Global.Ok, Left, Collected, AllWhite, Reachable, Global.Roots, IsWeak, Flagged, SameProgram;
    NothingLost(g, g');
    assert Spared(g.objs, g.modeName, g', t);
    TableEdges(g'.objs, g'.modeName, t);
    TableClosed(g, t);
    StrongHalves(g, t);
  }

  lemma TableClosed(g: Global, t: Id)
    requires g.Ok() && KeptAlive(g, t) && t in g.objs && g.objs[t].Table?
    ensures forall b :: Edge(g.objs, t, b) ==> b in g.objs
  {
    hide StronglyReachable, Global.Ok, Global.Roots, KeptAlive, Edge;
    AliveMeans(g, t);
    StrongReach(g.objs, g.modeName, g.Roots(), t);
    forall b | Edge(g.objs, t, b) ensures b in g.objs {
      ReachStep(g.objs, g.Roots(), t, b);
      ReachLive(g, b);
    }
  }

  /** What a table that is kept alive holds strongly is kept alive. */
  lemma StrongHalves(g: Global, t: Id)
    requires KeptAlive(g, t) && t in g.objs && g.objs[t].Table?
    ensures !Flagged(g, t, 'v') ==> forall k :: k in g.objs[t].entries ==> Endures(g, g.objs[t].entries[k])
    ensures !Flagged(g, t, 'k') ==> forall k :: k in g.objs[t].entries ==> Endures(g, k)
  {
    hide Flagged, KeptAlive;
    forall b | Keeps(g, t, b) ensures KeptAlive(g, b) { AliveStep(g, t, b); }
  }

  lemma AliveStep(g: Global, a: Id, b: Id)
    requires KeptAlive(g, a) && Keeps(g, a, b)
    ensures KeptAlive(g, b)
  {
    hide Keeps, Global.Roots;
    var p :| Chain(g, p) && p[|p| - 1] == a;
    assert Chain(g, p + [b]);
  }

  /** A full collection treats weak tables as their modes say. */
  lemma CollectedExactly(g: Global, g': Global)
    requires g.Ok() && g'.Ok() && FullCollection(g, g')
    ensures WeakExact(g, g')
  {
    hide Global.Ok, FullCollection, EntriesExact, OnlyAlive;
    AliveLeft(g, g');
    forall t | t in g'.objs && t in g.objs && g.objs[t].Table? ensures EntriesExact(g, g', t) { AliveEntries(g, g', t); }
  }

  /** All that refers to `o` are weak halves of table entries. */
  ghost predicate HeldWeakly(g: Global, o: Id) {
    o !in g.Roots() && forall a :: Edge(g.objs, a, o) ==>
      && g.objs[a].Table? && g.objs[a].meta != Some(o)
      && (Ref(o) in g.objs[a].entries ==> Flagged(g, a, 'k'))
      && (forall k :: k in g.objs[a].entries && g.objs[a].entries[k] == Ref(o) ==> Flagged(g, a, 'v'))
  }

  /** An object, no string, that is held only by weak halves goes, and so do all entries with it. */
  lemma HeldWeaklyGoes(g: Global, g': Global, o: Id)
    requires WeakExact(g, g') && o in g.objs && !g.objs[o].Str? && HeldWeakly(g, o)
    ensures o !in g'.objs
    ensures forall t :: t in g'.objs && t in g.objs && g'.objs[t].Table? && g.objs[t].Table? ==>
              forall k :: k in g'.objs[t].entries ==> k != Ref(o) && g'.objs[t].entries[k] != Ref(o)
  {
    hide Global.Roots, Flagged;
    if KeptAlive(g, o) {
      var p :| Chain(g, p) && p[|p| - 1] == o;
      assert |p| > 1;
      var a := p[|p| - 2];
      assert Keeps(g, a, o);
      KeepsEdge(g, a, o);
    }
  }

  lemma KeepsEdge(g: Global, a: Id, b: Id)
    requires Keeps(g, a, b)
    ensures Edge(g.objs, a, b)
  {
  }
}
