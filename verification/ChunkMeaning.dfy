/** What the code of a sequence of statements means. */
module ChunkMeaning {
  import opened Wrappers
  import opened LuaVM
  import Expressions
  import opened Syntax
  import opened CodeState
  import opened ExpMeaning
  import ExpValues
  import ExpJumps

  ghost predicate SameLocals(n: int, locals: Regs, regs: Regs) {
    forall r :: 0 <= r < n ==> Get(regs, r) == Get(locals, r)
  }

  /** The outcome `o` of the code is that of the statements. */
  ghost predicate Matches(n: int, p: Progress, o: Outcome) {
    match p
    case Running(locals) => o.Fall? && SameLocals(n, locals, o.regs)
    case Finished(vs) => o == Returned(vs)
    case Raised => o == Error
  }

  ghost predicate NothingPending(fs: FS) {
    forall q :: !Outer(fs, q)
  }

  /** `fs` is the code of `stats`, which leave `n` locals. */
  ghost predicate BlockOk(env: Env, fs: FS, stats: seq<Stat>, n: int) {
    && FsOk(fs) && NothingPending(fs) && n == env.params + Count(stats)
    && (forall regs :: Clean(env, regs) ==>
          Matches(n, Execute(env.sem, stats, env.params, regs), Out(env, fs, regs)))
  }

  lemma LastStat(env: Env, stats: seq<Stat>, s: Stat, regs: Regs)
    ensures Count(stats + [s]) == Count(stats) + (if s.SLocal? then 1 else 0)
    ensures var p := Execute(env.sem, stats, env.params, regs);
            Execute(env.sem, stats + [s], env.params, regs) ==
            if p.Running? then ExecuteStat(env.sem, s, env.params + Count(stats), p.locals) else p
  {
    assert (stats + [s])[..|stats + [s]| - 1] == stats;
  }

  lemma NothingFramed(fs: FS, fs': FS)
    requires NothingPending(fs) && Frame(fs, fs', NoLists)
    ensures NothingPending(fs')
  {
    NoListsEmpty();
  }

  lemma EmptyBlock(env: Env, fs: FS)
    requires fs == FS([], [], map[], NO_JUMP, -1, [], {})
    ensures BlockOk(env, fs, [], env.params)
  {
  }

  lemma MeansOk(g: Goal, fs: FS, r: int)
    requires Means(g, fs, VNONRELOC(r), NoLists)
    ensures FsOk(fs) && Frame(g.start, fs, NoLists)
  {
    ExpValues.BodySame(fs, VNONRELOC(r));
  }

  /** Where the value of the goal's expression is after its code. */
  lemma ValueAt(g: Goal, fs: FS, r: int, stats: seq<Stat>, regs: Regs)
    requires BlockOk(g.env, g.start, stats, g.base) && Means(g, fs, VNONRELOC(r), NoLists) && Expressions.Scoped(g.expr, g.base)
    requires Clean(g.env, regs)
    ensures match Execute(g.env.sem, stats, g.env.params, regs)
            case Running(locals) =>
              var o := Out(g.env, fs, regs);
              (match Expressions.Eval(g.env.sem, g.expr, locals)
               case None => o == Error
               case Some(v) => o.Fall? && Get(o.regs, r) == v &&
                               forall i :: 0 <= i < g.base && i != g.dest ==> Get(o.regs, i) == Get(locals, i))
            case Finished(vs) => Out(g.env, fs, regs) == Returned(vs)
            case Raised => Out(g.env, fs, regs) == Error
  {
    hide FsOk, Frame;
    ExpValues.BodySame(fs, VNONRELOC(r));
    NoListsEmpty();
    var p := Execute(g.env.sem, stats, g.env.params, regs);
    var o := Out(g.env, g.start, regs);
    assert Matches(g.base, p, o);
    assert Delivers(g, o, Out(g.env, fs, regs), fs.code, fs.k, VNONRELOC(r), NoLists);
    if p.Running? { Expressions.EvalAgrees(g.env.sem, g.expr, g.base, p.locals, o.regs); }
  }

  lemma LocalDone(g: Goal, fs: FS, stats: seq<Stat>)
    requires BlockOk(g.env, g.start, stats, g.base) && Means(g, fs, VNONRELOC(g.base), NoLists) && Expressions.Scoped(g.expr, g.base) && g.dest == -1
    ensures BlockOk(g.env, fs, stats + [SLocal(Some(g.expr))], g.base + 1)
  {
    hide FsOk, Frame, Means;
    var s := SLocal(Some(g.expr));
    MeansOk(g, fs, g.base);
    NothingFramed(g.start, fs);
    LastStat(g.env, stats, s, map[]);
    forall regs | Clean(g.env, regs)
      ensures Matches(g.base + 1, Execute(g.env.sem, stats + [s], g.env.params, regs), Out(g.env, fs, regs))
    {
      LastStat(g.env, stats, s, regs);
      ValueAt(g, fs, g.base, stats, regs);
    }
  }

  lemma LocalNilDone(env: Env, fs: FS, fs': FS, stats: seq<Stat>, n: nat)
    requires BlockOk(env, fs, stats, n) && FsOk(fs') && Frame(fs, fs', NoLists) && ExpValues.Nils(env, fs, fs', n, 1)
    ensures BlockOk(env, fs', stats + [SLocal(None)], n + 1)
  {
    hide FsOk, Frame;
    NothingFramed(fs, fs');
    LastStat(env, stats, SLocal(None), map[]);
    forall regs | Clean(env, regs)
      ensures Matches(n + 1, Execute(env.sem, stats + [SLocal(None)], env.params, regs), Out(env, fs', regs))
    {
      LastStat(env, stats, SLocal(None), regs);
      assert Matches(n, Execute(env.sem, stats, env.params, regs), Out(env, fs, regs));
      assert ExpValues.NilsAt(Out(env, fs, regs), Out(env, fs', regs), n, 1);
    }
  }

  /** The goal that allows a local to be overwritten. */
  lemma MayOverwrite(g: Goal, fs: FS, e: ExpDesc, l: Lists, r: int)
    requires Compiled(g, fs, e, l) && g.dest == -1
    ensures Compiled(g.(dest := r), fs, e, l)
  {
    hide FsOk, Frame, KindValue, OwnLists;
    var g' := g.(dest := r);
    forall regs | Clean(g.env, regs)
      ensures Delivers(g', Out(g.env, g.start, regs), Out(g.env, Body(fs, e.k), regs), fs.code, fs.k, e.k, l)
    {
      assert Delivers(g, Out(g.env, g.start, regs), Out(g.env, Body(fs, e.k), regs), fs.code, fs.k, e.k, l);
    }
  }

  lemma AssignDone(g: Goal, fs: FS, stats: seq<Stat>, r: nat)
    requires BlockOk(g.env, g.start, stats, g.base) && Means(g, fs, VNONRELOC(r), NoLists) && Expressions.Scoped(g.expr, g.base)
    requires g.dest == r < g.base
    ensures BlockOk(g.env, fs, stats + [SAssign(r, g.expr)], g.base)
  {
    hide FsOk, Frame, Means;
    var s := SAssign(r, g.expr);
    MeansOk(g, fs, r);
    NothingFramed(g.start, fs);
    LastStat(g.env, stats, s, map[]);
    forall regs | Clean(g.env, regs)
      ensures Matches(g.base, Execute(g.env.sem, stats + [s], g.env.params, regs), Out(g.env, fs, regs))
    {
      LastStat(g.env, stats, s, regs);
      ValueAt(g, fs, r, stats, regs);
    }
  }

  // ----- return -----

  lemma ReturnOk(fs: FS, a: int, b: int)
    requires FsOk(fs) && fs.here == []
    ensures FsOk(Plus(fs, RETURN(a, b))) && Frame(fs, Plus(fs, RETURN(a, b)), NoLists)
  {
    var fs' := Plus(fs, RETURN(a, b));
    NoListsEmpty();
    forall q | 0 <= q < |fs'.code| ensures InstrOk(|fs.k|, fs'.code, fs.pend, fs.lasttarget, q) {
      if q < |fs.code| { assert InstrOk(|fs.k|, fs.code, fs.pend, fs.lasttarget, q); }
    }
    ListFrame(fs.code, fs'.code, fs.jpc, fs.here);
  }

  lemma OutReturn(env: Env, fs: FS, a: int, b: int, regs: Regs)
    requires FsOk(fs) && fs.here == []
    ensures var o := Out(env, fs, regs);
            Out(env, Plus(fs, RETURN(a, b)), regs) == if o.Fall? then Returned(Values(o.regs, a, b - 1)) else o
  {
    RunAppend(env.sem, fs.k, fs.code, fs.pend, fs.lasttarget, [RETURN(a, b)], fs.pend, 0, regs);
  }

  /** `luaK_ret` after code `fs`. */
  ghost predicate ReturnsAfter(fs: FS, fs': FS, a: int, b: int) {
    fs'.code != [] && Discharged(fs, Prefix(fs', |fs'.code| - 1)) && fs' == Plus(Prefix(fs', |fs'.code| - 1), RETURN(a, b))
  }

  lemma ReturnCoded(env: Env, fs: FS, fs': FS, a: int, b: int)
    requires FsOk(fs) && NothingPending(fs) && ReturnsAfter(fs, fs', a, b)
    ensures FsOk(fs') && NothingPending(fs') && fs'.here == []
    ensures forall regs :: Out(env, fs', regs) == (var o := Out(env, fs, regs); if o.Fall? then Returned(Values(o.regs, a, b - 1)) else o)
  {
    hide FsOk, Frame;
    var d := Prefix(fs', |fs'.code| - 1);
    ExpJumps.DischargedSettled(env, fs, d);
    ReturnOk(d, a, b);
    ExpValues.FrameStep(fs, d, fs');
    NothingFramed(fs, fs');
    forall regs
      ensures Out(env, fs', regs) == (var o := Out(env, fs, regs); if o.Fall? then Returned(Values(o.regs, a, b - 1)) else o)
    {
      OutReturn(env, d, a, b, regs);
    }
  }

  lemma ReturnDone(g: Goal, fs: FS, fs': FS, stats: seq<Stat>, r: int)
    requires BlockOk(g.env, g.start, stats, g.base) && Means(g, fs, VNONRELOC(r), NoLists) && Expressions.Scoped(g.expr, g.base)
    requires ReturnsAfter(fs, fs', r, 2)
    ensures BlockOk(g.env, fs', stats + [SReturn(Some(g.expr))], g.base)
  {
    hide FsOk, Frame, Means, Discharged;
    var s := SReturn(Some(g.expr));
    MeansOk(g, fs, r);
    NothingFramed(g.start, fs);
    ReturnCoded(g.env, fs, fs', r, 2);
    LastStat(g.env, stats, s, map[]);
    forall regs | Clean(g.env, regs)
      ensures Matches(g.base, Execute(g.env.sem, stats + [s], g.env.params, regs), Out(g.env, fs', regs))
    {
      LastStat(g.env, stats, s, regs);
      ValueAt(g, fs, r, stats, regs);
      OneValue(Out(g.env, fs, regs), r);
    }
  }

  lemma OneValue(o: Outcome, r: int)
    ensures o.Fall? ==> Values(o.regs, r, 1) == [Get(o.regs, r)]
  {
    if o.Fall? { assert Values(o.regs, r + 1, 0) == []; }
  }

  lemma ReturnNoneDone(env: Env, fs: FS, fs': FS, stats: seq<Stat>, n: int)
    requires BlockOk(env, fs, stats, n) && ReturnsAfter(fs, fs', 0, 1)
    ensures BlockOk(env, fs', stats + [SReturn(None)], n)
  {
    hide FsOk, Discharged;
    ReturnCoded(env, fs, fs', 0, 1);
    LastStat(env, stats, SReturn(None), map[]);
    forall regs | Clean(env, regs)
      ensures Matches(n, Execute(env.sem, stats + [SReturn(None)], env.params, regs), Out(env, fs', regs))
    {
      LastStat(env, stats, SReturn(None), regs);
      assert Matches(n, Execute(env.sem, stats, env.params, regs), Out(env, fs, regs));
    }
  }

  /** The result of a whole function: one that does not return runs into the final RETURN. */
  function Final(p: Progress): Outcome {
    match p
    case Running(_) => Returned([])
    case Finished(vs) => Returned(vs)
    case Raised => Error
  }

  /** The finished code, run by the interpreter with no jump pending, does what the statements do. */
  lemma Closed(env: Env, fs: FS, fs': FS, stats: seq<Stat>, n: int)
    requires BlockOk(env, fs, stats, n) && ReturnsAfter(fs, fs', 0, 1)
    ensures fs'.pend == {}
    ensures forall args :: Clean(env, args) ==>
              Run(env.sem, fs'.k, fs'.code, {}, 0, args) == Final(Execute(env.sem, stats, env.params, args))
  {
    hide FsOk, Discharged;
    ReturnCoded(env, fs, fs', 0, 1);
    NonePending(fs');
    forall args | Clean(env, args)
      ensures Run(env.sem, fs'.k, fs'.code, {}, 0, args) == Final(Execute(env.sem, stats, env.params, args))
    {
      assert Matches(n, Execute(env.sem, stats, env.params, args), Out(env, fs, args));
      ExpJumps.RunExit(env.sem, fs'.k, fs'.code, fs'.pend, 0, args);
    }
  }

  lemma NonePending(fs: FS)
    requires NothingPending(fs) && fs.here == []
    ensures fs.pend == {}
  {
    forall q ensures q !in fs.pend {
      var r := q;
      assert !Outer(fs, r) && Pending(fs.pend, r) == (r in fs.pend);
    }
  }
}
