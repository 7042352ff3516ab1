/** The cache of absent metamethods (ltm.c:50-58, ltm.h:37-42) under raw and indexed access to
    tables (lvm.c:108-162, ltable.c:494-505). */
module TagMethods {
  import opened Wrappers

  datatype Id = Id(n: nat)

  datatype Value = Nil | Bool(b: bool) | Number(n: real) | String(s: string) | Table(t: Id) | Function(f: nat)

  /** The metamethods with fast access. */
  datatype Event = TM_INDEX | TM_NEWINDEX | TM_GC | TM_MODE | TM_EQ

  function TmName(e: Event): Value {
    match e
    case TM_INDEX => String("__index")
    case TM_NEWINDEX => String("__newindex")
    case TM_GC => String("__gc")
    case TM_MODE => String("__mode")
    case TM_EQ => String("__eq")
  }

  /** A set bit says that the metamethod is absent. */
  datatype Tab = Tab(fields: map<Value, Value>, metatable: Option<Id>, flags: set<Event>)

  type Heap = map<Id, Tab>

  function Field(t: Tab, k: Value): Value { if k in t.fields then t.fields[k] else Nil }

  /** The metatable of any value; `mt` are those of the basic types. */
  function MetaOf(h: Heap, mt: Value -> Option<Id>, v: Value): Option<Id> {
    if v.Table? && v.t in h then h[v.t].metatable else if v.Table? then None else mt(v)
  }

  /** The metamethod in a metatable, looked up directly. */
  function Method(h: Heap, et: Option<Id>, e: Event): Value {
    if et.Some? && et.value in h then Field(h[et.value], TmName(e)) else Nil
  }

  // ----- the invariant -----

  ghost predicate CacheOk(h: Heap) {
    forall t, e :: t in h && e in h[t].flags ==> Field(h[t], TmName(e)) == Nil
  }

  ghost predicate Closed(h: Heap) {
    forall t :: t in h && h[t].metatable.Some? ==> h[t].metatable.value in h
  }

  /** Equal but for the cache. */
  ghost predicate SameFields(h: Heap, h': Heap) {
    h'.Keys == h.Keys && forall t :: t in h ==> h'[t].fields == h[t].fields && h'[t].metatable == h[t].metatable
  }

  const MAXTAGLOOP := 100

  datatype Access = Got(v: Value) | Stored | Call(f: Value, object: Value) | NotIndexable | Loop | NilKey

  // ----- access along a chain of handlers, in terms of fields and metatables alone -----

  /** `v`, not nil, is the raw field of `t` under `key`. */
  ghost predicate Has(h: Heap, t: Value, key: Value, v: Value) {
    v != Nil && t.Table? && t.t in h && key in h[t.t].fields && h[t.t].fields[key] == v
  }

  ghost predicate Lacks(h: Heap, t: Value, key: Value) {
    forall v :: !Has(h, t, key, v)
  }

  /** `f` is under `name` in the metatable of `t`. */
  ghost predicate Handles(h: Heap, mt: Value -> Option<Id>, name: string, t: Value, f: Value) {
    if t.Table? then t.t in h && h[t.t].metatable.Some? && Has(h, Table(h[t.t].metatable.value), String(name), f)
    else mt(t).Some? && Has(h, Table(mt(t).value), String(name), f)
  }

  ghost predicate Unhandled(h: Heap, mt: Value -> Option<Id>, name: string, t: Value) {
    forall f :: !Handles(h, mt, name, t, f)
  }

  /** `a` lacks the key and hands the access on to `b`, which is no function. */
  ghost predicate Passes(h: Heap, mt: Value -> Option<Id>, name: string, key: Value, a: Value, b: Value) {
    Lacks(h, a, key) && Handles(h, mt, name, a, b) && !b.Function?
  }

  /** Nothing is passed on from `t`. */
  ghost predicate Stops(h: Heap, mt: Value -> Option<Id>, name: string, t: Value, key: Value) {
    Unhandled(h, mt, name, t) || !Lacks(h, t, key)
  }

  /** Each value of `c` passes the access on to the next one. */
  ghost predicate Chain(h: Heap, mt: Value -> Option<Id>, name: string, key: Value, c: seq<Value>) {
    c != [] && forall i :: 0 < i < |c| ==> Passes(h, mt, name, key, c[i - 1], c[i])
  }

  /** The outcome of reading where the access stops at `t`. */
  ghost predicate Answers(h: Heap, mt: Value -> Option<Id>, t: Value, key: Value, r: Access) {
    (forall v :: Has(h, t, key, v) ==> r == Got(v))
    && (Lacks(h, t, key) ==>
          (forall f :: Handles(h, mt, "__index", t, f) && f.Function? ==> r == Call(f, t))
          && (Unhandled(h, mt, "__index", t) ==> r == if t.Table? then Got(Nil) else NotIndexable))
  }

  /** The outcome of an assignment that stops at `t`. */
  ghost predicate Takes(h: Heap, mt: Value -> Option<Id>, t: Value, key: Value, r: Access) {
    (t.Table? && key == Nil ==> r == NilKey)
    && (!(t.Table? && key == Nil) && !Lacks(h, t, key) ==> r == Stored)
    && (!(t.Table? && key == Nil) && Lacks(h, t, key) ==>
          (forall f :: Handles(h, mt, "__newindex", t, f) && f.Function? ==> r == Call(f, t))
          && (Unhandled(h, mt, "__newindex", t) ==> r == if t.Table? then Stored else NotIndexable))
  }

  /** Tables refuse a nil key before anything else, so that no assignment passes them on. */
  ghost predicate PassesNil(key: Value, c: seq<Value>) {
    key == Nil ==> forall i :: 0 <= i < |c| - 1 ==> !c[i].Table?
  }

  /** `h'` is `h` with one field assigned. */
  ghost predicate OnlyField(h: Heap, h': Heap, t: Id, key: Value, val: Value) {
    h'.Keys == h.Keys && (forall u :: u in h ==> h'[u].metatable == h[u].metatable)
    && t in h && h'[t].fields == h[t].fields[key := val]
    && forall u :: u in h && u != t ==> h'[u].fields == h[u].fields
  }

  // ----- what access means, step by step and without a cache -----

  function Index(h: Heap, mt: Value -> Option<Id>, t: Value, key: Value, loop: nat): Access
    decreases MAXTAGLOOP - loop
  {
    if loop >= MAXTAGLOOP then Loop
    else if t.Table? && t.t in h && (Field(h[t.t], key) != Nil || Method(h, h[t.t].metatable, TM_INDEX) == Nil) then Got(Field(h[t.t], key))
    else
      var tm := Method(h, MetaOf(h, mt, t), TM_INDEX);
      if tm == Nil then NotIndexable
      else if tm.Function? then Call(tm, t)
      else Index(h, mt, tm, key, loop + 1)
  }

  /** The table that takes an assignment, or another outcome. */
  function Target(h: Heap, mt: Value -> Option<Id>, t: Value, key: Value, loop: nat): (Access, Value)
    decreases MAXTAGLOOP - loop
  {
    if loop >= MAXTAGLOOP then (Loop, t)
    else if t.Table? && t.t in h && key == Nil then (NilKey, t)
    else if t.Table? && t.t in h && (Field(h[t.t], key) != Nil || Method(h, h[t.t].metatable, TM_NEWINDEX) == Nil) then (Stored, t)
    else
      var tm := Method(h, MetaOf(h, mt, t), TM_NEWINDEX);
      if tm == Nil then (NotIndexable, t)
      else if tm.Function? then (Call(tm, t), t)
      else Target(h, mt, tm, key, loop + 1)
  }

  /** Tables never lead outside the heap. */
  ghost predicate ValuesOk(h: Heap) {
    forall t, k :: t in h && k in h[t].fields ==> LiveValue(h, h[t].fields[k])
  }

  predicate LiveValue(h: Heap, v: Value) { v.Table? ==> v.t in h }

  ghost predicate HeapOk(h: Heap) { CacheOk(h) && Closed(h) && ValuesOk(h) }

  class Tables {
    const mt: Value -> Option<Id>
    var h: Heap

    ghost predicate Valid()
      reads this
    {
      HeapOk(h) && forall v :: mt(v).Some? ==> mt(v).value in h
    }

    /** `luaT_gettm`: looks the name up and remembers its absence. */
    method GetTm(events: Id, e: Event) returns (tm: Value)
      requires Valid() && events in h
      modifies this
      ensures Valid() && SameFields(old(h), h) && tm == Method(h, Some(events), e)
      ensures h == if tm == Nil then old(h)[events := old(h)[events].(flags := old(h)[events].flags + {e})] else old(h)
    {
      tm := Field(h[events], TmName(e));
      if tm == Nil {
        h := h[events := h[events].(flags := h[events].flags + {e})];
      }
    }

    /** `fasttm`: the cached lookup always agrees with the direct one. */
    method FastTm(et: Option<Id>, e: Event) returns (tm: Value)
      requires Valid() && (et.Some? ==> et.value in h)
      modifies this
      ensures Valid() && SameFields(old(h), h) && tm == Method(h, et, e)
    {
      if et.None? || e in h[et.value].flags {
        return Nil;
      }
      tm := GetTm(et.value, e);
    }

    /** `luaV_gettable`: along a chain of fewer than 100 handlers that are no functions the last value
        answers, a longer one is a loop. */
    method GetTable(start: Value, key: Value) returns (r: Access)
      requires Valid() && LiveValue(h, start)
      modifies this
      ensures Valid() && SameFields(old(h), h) && r == Index(old(h), mt, start, key, 0)
      ensures forall c :: Chain(old(h), mt, "__index", key, c) && c[0] == start ==>
                            if |c| > MAXTAGLOOP then r == Loop else Answers(old(h), mt, c[|c| - 1], key, r)
    {
      hide CacheOk, Closed, ValuesOk, Method, Chain, Answers;
      HeapFacts(h);
      IndexChains(h, mt, start, key);
      var t, loop := start, 0;
      ghost var h0 := h;
      while loop < MAXTAGLOOP
        invariant 0 <= loop <= MAXTAGLOOP && Valid() && SameFields(h0, h) && LiveValue(h, t)
        invariant Index(h0, mt, start, key, 0) == Index(h0, mt, t, key, loop)
      {
        var tm;
        SameMethods(h0, h, mt, t);
        if t.Table? {
          var res := Field(h[t.t], key);
          if res != Nil {
            return Got(res);
          }
          tm := FastTm(h[t.t].metatable, TM_INDEX);
          SameMethods(h0, h, mt, t);
          if tm == Nil {
            return Got(res);
          }
        } else {
          tm := Method(h, mt(t), TM_INDEX);
          if tm == Nil {
            return NotIndexable;
          }
        }
        if tm.Function? {
          return Call(tm, t);
        }
        MethodLive(h, MetaOf(h, mt, t), TM_INDEX);
        t := tm;
        loop := loop + 1;
      }
      return Loop;
    }

    /** `luaH_set`: clears the cache of the table, which is about to change. */
    method LuaSet(t: Id)
      requires Valid() && t in h
      modifies this
      ensures Valid() && SameFields(old(h), h) && h[t].flags == {}
    {
      h := h[t := h[t].(flags := {})];
    }

    /** The end of `luaV_settable`: the value is stored and the cache cleared once more. */
    method StoreField(t: Id, key: Value, val: Value)
      requires Valid() && t in h && LiveValue(h, val)
      modifies this
      ensures Valid() && SameFields(Assigned(old(h), t, key, val), h)
    {
      h := Assigned(h, t, key, val);
      h := h[t := h[t].(flags := {})];
    }

    /** A field disappears: the collector clears an entry of a weak table. */
    method ClearField(t: Id, key: Value)
      requires Valid() && t in h
      modifies this
      ensures Valid() && h == old(h)[t := old(h)[t].(fields := old(h)[t].fields - {key})]
    {
      h := h[t := h[t].(fields := h[t].fields - {key})];
    }

    /** One turn of `luaV_settable` on a table: the value is stored if the field is present or there is
        no `__newindex`. */
    method TryStore(t: Id, key: Value, val: Value) returns (stored: bool, tm: Value)
      requires Valid() && t in h && LiveValue(h, val)
      modifies this
      ensures Valid() && (Field(old(h)[t], key) == Nil ==> tm == Method(old(h), old(h)[t].metatable, TM_NEWINDEX))
      ensures stored <==> Field(old(h)[t], key) != Nil || tm == Nil
      ensures if stored then SameFields(Assigned(old(h), t, key, val), h) else SameFields(old(h), h)
    {
      hide CacheOk, Closed, Assigned, ValuesOk, Method;
      HeapFacts(h);
      ghost var h0 := h;
      var oldval := Field(h[t], key);
      LuaSet(t);
      SameMethods(h0, h, mt, Table(t));
      tm := Nil;
      if oldval == Nil {
        tm := FastTm(h[t].metatable, TM_NEWINDEX);
        SameMethods(h0, h, mt, Table(t));
      }
      stored := oldval != Nil || tm == Nil;
      if stored {
        ghost var h1 := h;
        AssignedSame(h0, h1, t, key, val);
        StoreField(t, key, val);
        SameFieldsTwice(Assigned(h0, t, key, val), Assigned(h1, t, key, val), h);
      }
    }

    /** `luaV_settable`. The test for `__newindex` may set a bit in the cache of the very table
        that is assigned to, if it is its own metatable; the cache is cleared again with the store. */
    method SetTable(start: Value, key: Value, val: Value) returns (r: Access)
      requires Valid() && LiveValue(h, start) && LiveValue(h, val)
      modifies this
      ensures Valid() && r == Target(old(h), mt, start, key, 0).0
      ensures var t := Target(old(h), mt, start, key, 0).1;
              if r.Stored? then t.Table? && t.t in old(h) && SameFields(Assigned(old(h), t.t, key, val), h)
              else SameFields(old(h), h)
      ensures forall c :: Chain(old(h), mt, "__newindex", key, c) && PassesNil(key, c) && c[0] == start ==>
                            if |c| > MAXTAGLOOP then r == Loop
                            else var last := c[|c| - 1];
                                 Takes(old(h), mt, last, key, r)
                                 && (Stops(old(h), mt, "__newindex", last, key) && r.Stored? ==>
                                       last.Table? && OnlyField(old(h), h, last.t, key, val))
    {
      hide CacheOk, Closed, Assigned, ValuesOk, Method, Chain, Takes, Stops, OnlyField;
      HeapFacts(h);
      TargetChains(h, mt, start, key);
      var t, loop := start, 0;
      ghost var h0 := h;
      while loop < MAXTAGLOOP
        invariant 0 <= loop <= MAXTAGLOOP && Valid() && SameFields(h0, h) && LiveValue(h, t)
        invariant Target(h0, mt, start, key, 0) == Target(h0, mt, t, key, loop)
      {
        var tm;
        SameMethods(h0, h, mt, t);
        if t.Table? {
          if key == Nil {
            return NilKey;
          }
          var stored;
          ghost var h1 := h;
          stored, tm := TryStore(t.t, key, val);
          if stored {
            AssignedSame(h0, h1, t.t, key, val);
            SameFieldsTwice(Assigned(h0, t.t, key, val), Assigned(h1, t.t, key, val), h);
            AssignedOnly(h0, h, t.t, key, val);
            return Stored;
          }
          SameMethods(h0, h, mt, t);
        } else {
          tm := Method(h, mt(t), TM_NEWINDEX);
          if tm == Nil {
            return NotIndexable;
          }
        }
        if tm.Function? {
          return Call(tm, t);
        }
        MethodLive(h, MetaOf(h, mt, t), TM_NEWINDEX);
        t := tm;
        loop := loop + 1;
      }
      return Loop;
    }

    /** `lua_rawset`. */
    method RawSet(t: Id, key: Value, val: Value)
      requires Valid() && t in h && key != Nil && LiveValue(h, val)
      modifies this
      ensures Valid() && SameFields(Assigned(old(h), t, key, val), h)
    {
      LuaSet(t);
      h := Assigned(h, t, key, val);
    }

    /** `lua_rawseti`: an integer key cannot name a metamethod, and the cache is kept. */
    method RawSetInt(t: Id, n: int, val: Value)
      requires Valid() && t in h && LiveValue(h, val)
      modifies this
      ensures Valid() && SameFields(Assigned(old(h), t, Number(n as real), val), h)
      ensures forall u :: u in h ==> h[u].flags == old(h)[u].flags
    {
      h := Assigned(h, t, Number(n as real), val);
    }

    method SetMetatable(t: Id, meta: Option<Id>)
      requires Valid() && t in h && (meta.Some? ==> meta.value in h)
      modifies this
      ensures Valid() && h == old(h)[t := old(h)[t].(metatable := meta)]
    {
      h := h[t := h[t].(metatable := meta)];
    }

    /** `luaH_new`: all bits are set, and rightly so. */
    method New(t: Id)
      requires Valid() && t !in h
      modifies this
      ensures Valid() && h == old(h)[t := Tab(map[], None, {TM_INDEX, TM_NEWINDEX, TM_GC, TM_MODE, TM_EQ})]
    {
      h := h[t := Tab(map[], None, {TM_INDEX, TM_NEWINDEX, TM_GC, TM_MODE, TM_EQ})];
    }
  }

  function Assigned(h: Heap, t: Id, key: Value, val: Value): Heap
    requires t in h
  {
    h[t := h[t].(fields := h[t].fields[key := val])]
  }

  lemma AssignedSame(h: Heap, h': Heap, t: Id, key: Value, val: Value)
    requires SameFields(h, h') && t in h
    ensures SameFields(Assigned(h, t, key, val), Assigned(h', t, key, val))
  {
  }

  lemma AssignedOnly(h: Heap, h': Heap, t: Id, key: Value, val: Value)
    requires t in h && SameFields(Assigned(h, t, key, val), h')
    ensures OnlyField(h, h', t, key, val)
  {
    assert forall u :: u in h ==> h'[u].fields == Assigned(h, t, key, val)[u].fields;
    assert forall u :: u in h ==> h'[u].metatable == Assigned(h, t, key, val)[u].metatable;
  }

  lemma SameFieldsTwice(a: Heap, b: Heap, c: Heap)
    requires SameFields(a, b) && SameFields(b, c)
    ensures SameFields(a, c)
  {
  }

  lemma HeapFacts(h: Heap)
    requires Closed(h)
    ensures forall t :: t in h && h[t].metatable.Some? ==> h[t].metatable.value in h
  {
  }

  lemma SameMethods(h: Heap, h': Heap, mt: Value -> Option<Id>, t: Value)
    requires SameFields(h, h')
    ensures forall et, e :: Method(h', et, e) == Method(h, et, e)
    ensures MetaOf(h', mt, t) == MetaOf(h, mt, t)
  {
  }

  lemma MethodLive(h: Heap, et: Option<Id>, e: Event)
    requires ValuesOk(h)
    ensures LiveValue(h, Method(h, et, e))
  {
  }

  // ----- the two descriptions agree -----

  lemma HandlerIsMethod(h: Heap, mt: Value -> Option<Id>, e: Event, name: string, t: Value)
    requires TmName(e) == String(name)
    ensures var tm := Method(h, MetaOf(h, mt, t), e);
            (tm == Nil <==> Unhandled(h, mt, name, t)) && (tm != Nil ==> forall f :: Handles(h, mt, name, t, f) <==> f == tm)
  {
    var tm := Method(h, MetaOf(h, mt, t), e);
    assert tm != Nil ==> Handles(h, mt, name, t, tm);
  }

  lemma FieldIsHas(h: Heap, t: Value, key: Value)
    ensures if t.Table? && t.t in h && Field(h[t.t], key) != Nil then !Lacks(h, t, key) && Has(h, t, key, Field(h[t.t], key))
            else Lacks(h, t, key)
    ensures forall v, w :: Has(h, t, key, v) && Has(h, t, key, w) ==> v == w
  {
    if t.Table? && t.t in h && Field(h[t.t], key) != Nil {
      assert Has(h, t, key, Field(h[t.t], key));
    }
  }

  /** One step of reading: the access is answered here, or passed on. */
  lemma IndexAt(h: Heap, mt: Value -> Option<Id>, t: Value, key: Value, loop: nat)
    requires LiveValue(h, t) && loop < MAXTAGLOOP
    ensures Answers(h, mt, t, key, Index(h, mt, t, key, loop))
    ensures forall b :: Passes(h, mt, "__index", key, t, b) ==> Index(h, mt, t, key, loop) == Index(h, mt, b, key, loop + 1)
  {
    var tm := Method(h, MetaOf(h, mt, t), TM_INDEX);
    HandlerIsMethod(h, mt, TM_INDEX, "__index", t);
    FieldIsHas(h, t, key);
  }

  /** Reading along a chain: the last value answers, unless the chain is too long. */
  lemma {:induction false} IndexChain(h: Heap, mt: Value -> Option<Id>, key: Value, c: seq<Value>, loop: nat)
    requires Chain(h, mt, "__index", key, c) && LiveValue(h, c[0]) && ValuesOk(h) && loop <= MAXTAGLOOP
    ensures var r := Index(h, mt, c[0], key, loop);
            if |c| + loop > MAXTAGLOOP then r == Loop else Answers(h, mt, c[|c| - 1], key, r)
    decreases |c|
  {
    hide Passes, Answers;
    if loop < MAXTAGLOOP {
      IndexAt(h, mt, c[0], key, loop);
      if |c| > 1 {
        assert Passes(h, mt, "__index", key, c[0], c[1]);
        PassedLive(h, mt, "__index", key, c[0], c[1]);
        assert Chain(h, mt, "__index", key, c[1..]);
        IndexChain(h, mt, key, c[1..], loop + 1);
      }
    }
  }

  lemma IndexChains(h: Heap, mt: Value -> Option<Id>, t: Value, key: Value)
    requires LiveValue(h, t) && ValuesOk(h)
    ensures var r := Index(h, mt, t, key, 0);
            forall c :: Chain(h, mt, "__index", key, c) && c[0] == t ==>
                          if |c| > MAXTAGLOOP then r == Loop else Answers(h, mt, c[|c| - 1], key, r)
  {
    hide Answers, Passes;
    forall c | Chain(h, mt, "__index", key, c) && c[0] == t
      ensures var r := Index(h, mt, t, key, 0);
              if |c| > MAXTAGLOOP then r == Loop else Answers(h, mt, c[|c| - 1], key, r)
    {
      IndexChain(h, mt, key, c, 0);
    }
  }

  lemma PassedLive(h: Heap, mt: Value -> Option<Id>, name: string, key: Value, a: Value, b: Value)
    requires ValuesOk(h) && Passes(h, mt, name, key, a, b)
    ensures LiveValue(h, b)
  {
  }

  /** One step of assigning: the access is taken here, or passed on. */
  lemma TargetAt(h: Heap, mt: Value -> Option<Id>, t: Value, key: Value, loop: nat)
    requires LiveValue(h, t) && loop < MAXTAGLOOP
    ensures var r := Target(h, mt, t, key, loop);
            Takes(h, mt, t, key, r.0) && (Stops(h, mt, "__newindex", t, key) ==> r.1 == t)
    ensures forall b :: Passes(h, mt, "__newindex", key, t, b) && !(t.Table? && key == Nil) ==>
                          Target(h, mt, t, key, loop) == Target(h, mt, b, key, loop + 1)
  {
    var tm := Method(h, MetaOf(h, mt, t), TM_NEWINDEX);
    HandlerIsMethod(h, mt, TM_NEWINDEX, "__newindex", t);
    FieldIsHas(h, t, key);
  }

  /** Assigning along a chain: the last value takes it, unless the chain is too long. */
  lemma {:induction false} TargetChain(h: Heap, mt: Value -> Option<Id>, key: Value, c: seq<Value>, loop: nat)
    requires Chain(h, mt, "__newindex", key, c) && PassesNil(key, c)
    requires LiveValue(h, c[0]) && ValuesOk(h) && loop <= MAXTAGLOOP
    ensures var r, last := Target(h, mt, c[0], key, loop), c[|c| - 1];
            if |c| + loop > MAXTAGLOOP then r.0 == Loop
            else Takes(h, mt, last, key, r.0) && (Stops(h, mt, "__newindex", last, key) ==> r.1 == last)
    decreases |c|
  {
    hide Passes, Takes;
    if loop < MAXTAGLOOP {
      TargetAt(h, mt, c[0], key, loop);
      if |c| > 1 {
        assert Passes(h, mt, "__newindex", key, c[0], c[1]);
        PassedLive(h, mt, "__newindex", key, c[0], c[1]);
        assert Chain(h, mt, "__newindex", key, c[1..]);
        TargetChain(h, mt, key, c[1..], loop + 1);
      }
    }
  }

  lemma TargetChains(h: Heap, mt: Value -> Option<Id>, t: Value, key: Value)
    requires LiveValue(h, t) && ValuesOk(h)
    ensures var r := Target(h, mt, t, key, 0);
            forall c :: Chain(h, mt, "__newindex", key, c) && PassesNil(key, c) && c[0] == t ==>
                          if |c| > MAXTAGLOOP then r.0 == Loop
                          else Takes(h, mt, c[|c| - 1], key, r.0) && (Stops(h, mt, "__newindex", c[|c| - 1], key) ==> r.1 == c[|c| - 1])
  {
    hide Takes, Passes, Stops;
    forall c | Chain(h, mt, "__newindex", key, c) && PassesNil(key, c) && c[0] == t
      ensures var r := Target(h, mt, t, key, 0);
              if |c| > MAXTAGLOOP then r.0 == Loop
              else Takes(h, mt, c[|c| - 1], key, r.0) && (Stops(h, mt, "__newindex", c[|c| - 1], key) ==> r.1 == c[|c| - 1])
    {
      TargetChain(h, mt, key, c, 0);
    }
  }
}
