/** References into a table of their own (luaL_ref and luaL_unref, lauxlib.c:481-512). Freed slots
    are chained through their values, and slot 0 holds the head of the chain. */
module References {
  import opened Wrappers
  import opened LuaTable
  import TableTraversal
  import opened HashTable

  const FREELIST_REF := 0
  const LUA_REFNIL := -1

  /** `lua_tointeger`: anything but a number counts as 0. */
  function ToInteger(v: Value): int {
    if v.Number? then v.n.Floor else 0
  }

  function Link(free: seq<int>, i: int): int { if 0 <= i < |free| then free[i] else 0 }

  /** `r` is the number of a slot. */
  predicate SlotNumber(r: int) { 0 < r <= MAX_INT }

  ghost predicate FreeAt(t: Tab, free: seq<int>, i: int)
    requires 0 <= i < |free|
  {
    SlotNumber(free[i]) && ToInteger(Val(t, IntKey(free[i]))) == Link(free, i + 1)
  }

  ghost predicate LiveAt(t: Tab, live: map<int, Value>, r: int) {
    r in live && SlotNumber(r) && live[r] != Nil && Val(t, IntKey(r)) == live[r]
  }

  predicate IsLive(live: map<int, Value>, r: int) { r in live }

  /** The live references have their values, and the chain runs through the free slots `free`. */
  ghost predicate RefsOk(t: Tab, live: map<int, Value>, free: seq<int>) {
    && ToInteger(Val(t, IntKey(FREELIST_REF))) == Link(free, 0)
    && (forall i :: 0 <= i < |free| ==> FreeAt(t, free, i) && !IsLive(live, free[i]))
    && (forall i, j :: 0 <= i < j < |free| ==> free[i] != free[j])
    && (forall r :: IsLive(live, r) ==> LiveAt(t, live, r))
  }

  class RefTable {
    const table: Table
    ghost var live: map<int, Value>
    ghost var free: seq<int>

    ghost predicate Valid()
      reads this, table
    {
      table.Valid() && RefsOk(table.t, live, free)
    }

    constructor (hash: Value -> nat)
      ensures Valid() && live == map[] && free == [] && fresh(table)
    {
      table := new Table(hash);
      live, free := map[], [];
    }

    /** `luaL_ref`: a reference that is not in use. */
    method Ref(v: Value) returns (r: Result<int>)
      requires Valid()
      modifies this, table
      ensures v == Nil ==> r == Ok(LUA_REFNIL) && unchanged(this) && unchanged(table)
      ensures r.Failed? ==> TableTraversal.Size(table.t) >= MAXASIZE
      ensures v != Nil && r.Ok? ==> Valid() && !IsLive(old(live), r.value) && live == old(live)[r.value := v]
    {
      hide TableOk, RefsOk, Border;
      if v == Nil {
        return Ok(LUA_REFNIL);
      }
      var s := table.GetNum(FREELIST_REF);
      var ref := ToInteger(SlotValue(table.t, s));
      ghost var t0 := table.t;
      ghost var free' := free;
      HeadFree(t0, live, free);
      if ref != 0 {
        s := table.GetNum(ref);
        var _ := table.Set(IntKey(FREELIST_REF), SlotValue(table.t, s));  // cannot fail: the slot is in use
        free' := free[1..];
        Unchained(t0, table.t, live, free, SlotValue(t0, s));
      } else {
        var n := table.GetN();
        ref := n + 1;
        BorderFree(t0, live, free, n);
      }
      ghost var t1 := table.t;
      var _ :- table.Set(IntKey(ref), v);
      RefStored(t1, table.t, live, free', ref, v);
      live, free := live[ref := v], free';
      return Ok(ref);
    }

    /** `luaL_unref`. */
    method Unref(ref: int) returns (r: Result<()>)
      requires Valid() && (ref >= 0 ==> IsLive(live, ref))
      modifies this, table
      ensures ref < 0 ==> r.Ok? && unchanged(this) && unchanged(table)
      ensures r.Failed? ==> TableTraversal.Size(table.t) >= MAXASIZE
      ensures ref >= 0 && r.Ok? ==> Valid() && live == map k | k in old(live) && k != ref :: old(live)[k]
    {
      if ref >= 0 {
        var s := table.GetNum(FREELIST_REF);
        assert LiveAt(table.t, live, ref);
        ghost var t0 := table.t;
        var head := SlotValue(table.t, s);
        var _ := table.Set(IntKey(ref), head);  // cannot fail: the slot is in use
        ghost var t1 := table.t;
        var _ :- table.Set(IntKey(FREELIST_REF), IntKey(ref));
        Rechained(t0, t1, table.t, live, free, ref, head);
        live, free := map k | k in live && k != ref :: live[k], [ref] + free;
      }
      return Ok(());
    }
  }

  lemma IntKeysDiffer(a: int, b: int)
    requires a != b
    ensures IntKey(a) != IntKey(b)
  {
  }

  /** Slot 0 names a free slot, or none is left. */
  lemma HeadFree(t: Tab, live: map<int, Value>, free: seq<int>)
    requires RefsOk(t, live, free)
    ensures var ref := ToInteger(Val(t, IntKey(FREELIST_REF)));
            if ref != 0 then free != [] && ref == free[0] && SlotNumber(ref) else free == []
  {
    if free != [] { assert FreeAt(t, free, 0); }
  }

  /** The head of the chain is taken off. */
  lemma Unchained(t: Tab, t': Tab, live: map<int, Value>, free: seq<int>, v: Value)
    requires RefsOk(t, live, free) && free != [] && v == Val(t, IntKey(free[0])) && Updated(t, t', IntKey(FREELIST_REF), v)
    ensures RefsOk(t', live, free[1..]) && !IsLive(live, free[0])
    ensures forall i :: 0 <= i < |free[1..]| ==> free[1..][i] != free[0]
  {
    var rest := free[1..];
    assert FreeAt(t, free, 0);
    forall i | 0 <= i < |rest| ensures FreeAt(t', rest, i) && !IsLive(live, rest[i]) {
      assert FreeAt(t, free, i + 1) && !IsLive(live, free[i + 1]);
      IntKeysDiffer(rest[i], FREELIST_REF);
    }
    forall r | IsLive(live, r) ensures LiveAt(t', live, r) {
      assert LiveAt(t, live, r);
      IntKeysDiffer(r, FREELIST_REF);
    }
    assert Val(t', IntKey(FREELIST_REF)) == v;
  }

  /** What lies behind a border is not live. */
  lemma BorderFree(t: Tab, live: map<int, Value>, free: seq<int>, n: int)
    requires RefsOk(t, live, free) && n >= 0 && Border(t, n)
    ensures !IsLive(live, n + 1)
  {
  }

  lemma RefStored(t: Tab, t': Tab, live: map<int, Value>, free: seq<int>, ref: int, v: Value)
    requires RefsOk(t, live, free) && SlotNumber(ref) && !IsLive(live, ref) && v != Nil && Updated(t, t', IntKey(ref), v)
    requires forall i :: 0 <= i < |free| ==> free[i] != ref
    ensures RefsOk(t', live[ref := v], free)
  {
    var live' := live[ref := v];
    IntKeysDiffer(FREELIST_REF, ref);
    assert Val(t', IntKey(FREELIST_REF)) == Val(t, IntKey(FREELIST_REF));
    forall i | 0 <= i < |free| ensures FreeAt(t', free, i) && !IsLive(live', free[i]) {
      assert FreeAt(t, free, i) && !IsLive(live, free[i]);
      IntKeysDiffer(free[i], ref);
    }
    forall r | IsLive(live', r) ensures LiveAt(t', live', r) {
      if r != ref {
        assert IsLive(live, r) && LiveAt(t, live, r);
        IntKeysDiffer(r, ref);
      } else {
        assert Val(t', IntKey(ref)) == v;
      }
    }
  }

  lemma Rechained(t: Tab, t1: Tab, t2: Tab, live: map<int, Value>, free: seq<int>, ref: int, head: Value)
    requires RefsOk(t, live, free) && IsLive(live, ref) && head == Val(t, IntKey(FREELIST_REF))
    requires Updated(t, t1, IntKey(ref), head) && Updated(t1, t2, IntKey(FREELIST_REF), IntKey(ref))
    ensures RefsOk(t2, map k | k in live && k != ref :: live[k], [ref] + free)
  {
    var live' := map k | k in live && k != ref :: live[k];
    var free' := [ref] + free;
    assert LiveAt(t, live, ref);
    forall k ensures Val(t2, k) == if k == IntKey(FREELIST_REF) then IntKey(ref) else if k == IntKey(ref) then head else Val(t, k) {
      assert Val(t1, k) == if k == IntKey(ref) then head else Val(t, k);
    }
    IntKeysDiffer(FREELIST_REF, ref);
    forall i | 0 <= i < |free'| ensures FreeAt(t2, free', i) && !IsLive(live', free'[i]) {
      if i > 0 {
        assert FreeAt(t, free, i - 1) && !IsLive(live, free[i - 1]);
        IntKeysDiffer(free[i - 1], ref);
        IntKeysDiffer(free[i - 1], FREELIST_REF);
      }
    }
    forall i, j | 0 <= i < j < |free'| ensures free'[i] != free'[j] {
      assert !IsLive(live, free[j - 1]);
    }
    forall r | IsLive(live', r) ensures LiveAt(t2, live', r) {
      assert IsLive(live, r) && LiveAt(t, live, r);
      IntKeysDiffer(r, ref);
      IntKeysDiffer(r, FREELIST_REF);
    }
  }
}
