/** Nothing that the program can come to holds the id of an object that has been freed. Ids are looked
    for in the objects themselves, field by field. */
module Dangling {
  import opened Wrappers
  import opened LuaHeap
  import opened GcInvariants
  import GcSweeping

  predicate In(v: Value, o: Id) { v == Ref(o) }

  /** `b` refers to `o`. */
  ghost predicate RefersTo(b: Body, o: Id) {
    match b
    case Str(_) => false
    case Udata(m, env) => m == Some(o) || env == o
    case Upval(Open(_, _)) => false
    case Upval(Closed(v)) => In(v, o)
    case LClosure(env, p, us) => env == o || p == o || o in us
    case CClosure(env, vs) => env == o || exists i :: 0 <= i < |vs| && In(vs[i], o)
    case Table(m, es) => m == Some(o) || exists k :: k in es && (In(k, o) || In(es[k], o))
    case Thread(gt, st, _) => In(gt, o) || exists i :: 0 <= i < |st| && In(st[i], o)
    case Proto(k, ps) => o in ps || exists i :: 0 <= i < |k| && In(k[i], o)
  }

  /** `u` is an upvalue open on a slot that refers to `o`. */
  ghost predicate ReadsFrom(g: Global, u: Id, o: Id) {
    && u in g.objs && g.objs[u].Upval? && g.objs[u].box.Open?
    && var th, level := g.objs[u].box.th, g.objs[u].box.level;
       th in g.objs && g.objs[th].Thread? && level < |g.objs[th].stack| && In(g.objs[th].stack[level], o)
  }

  /** The links between a thread and its open upvalues. */
  ghost predicate LinkedTo(b: Body, o: Id) {
    match b
    case Upval(Open(th, _)) => th == o
    case Thread(_, _, us) => o in us
    case _ => false
  }

  /** What the program starts from. */
  ghost predicate StartsFrom(g: Global, o: Id) {
    o == g.main || o == g.registry || o == g.running || exists i :: 0 <= i < |g.mt| && g.mt[i] == Some(o)
  }

  ghost predicate Leads(g: Global, a: Id, b: Id) {
    a in g.objs && (RefersTo(g.objs[a], b) || ReadsFrom(g, a, b))
  }

  ghost predicate Trail(g: Global, p: seq<Id>) {
    p != [] && StartsFrom(g, p[0]) && forall i :: 0 < i < |p| ==> Leads(g, p[i - 1], p[i])
  }

  /** In every state of a run, what references lead to has not been freed, and neither have the threads
      and upvalues that it is linked to. */
  lemma NoDangling(g: Global, p: seq<Id>)
    requires g.Ok() && Trail(g, p)
    ensures p[|p| - 1] in g.objs
    ensures forall o :: LinkedTo(g.objs[p[|p| - 1]], o) ==> o in g.objs
  {
    hide Global.Live, Global.Phase, MarkOk, RootList, StringTable, OpenRing;
    TrailLive(g, p);
    var last := p[|p| - 1];
    forall o | LinkedTo(g.objs[last], o) ensures o in g.objs {
      if g.objs[last].Thread? { GcSweeping.ListedThere(g.objs, last); } else { GcSweeping.OpenThread(g.objs, last); }
    }
  }

  lemma {:induction false} TrailLive(g: Global, p: seq<Id>)
    requires g.Ok() && Trail(g, p)
    ensures p[|p| - 1] in g.objs && !IsDead(g.mark, g.cw, p[|p| - 1])
  {
    hide Global.Ok, Leads, StartsFrom;
    if |p| == 1 {
      StartLive(g, p[0]);
    } else {
      TrailLive(g, p[..|p| - 1]);
      LeadsLive(g, p[|p| - 2], p[|p| - 1]);
    }
  }

  lemma StartLive(g: Global, o: Id)
    requires g.Ok() && StartsFrom(g, o)
    ensures o in g.objs && !IsDead(g.mark, g.cw, o)
  {
    hide ShapeOk, Global.Phase, LiveClosed, NeverBlack;
    assert o in g.Roots();
  }

  lemma LeadsLive(g: Global, a: Id, b: Id)
    requires g.Ok() && Leads(g, a, b) && !IsDead(g.mark, g.cw, a)
    ensures b in g.objs && !IsDead(g.mark, g.cw, b)
  {
    hide ShapeOk, Global.Phase, RootsLive, NeverBlack;
    assert Edge(g.objs, a, b);
  }
}
