/** The operations of ltable.c on one table. */
module HashTable {
  import opened Wrappers
  import opened LuaTable
  import opened TableCounts
  import opened TableTraversal

  /** A pointer to a value: into the array part, into a node, or to the shared nil object. */
  datatype Slot = NilObject | ArraySlot(i: int) | NodeSlot(i: int)

  predicate SlotIn(t: Tab, s: Slot) {
    match s
    case NilObject => true
    case ArraySlot(i) => 0 <= i < |t.arr|
    case NodeSlot(i) => 0 <= i < |t.node|
  }

  function SlotValue(t: Tab, s: Slot): Value
    requires SlotIn(t, s)
  {
    match s
    case NilObject => Nil
    case ArraySlot(i) => t.arr[i]
    case NodeSlot(i) => t.node[i].val
  }

  /** `s` is where `key` has its value. */
  ghost predicate Found(t: Tab, key: Value, s: Slot) {
    match s
    case NilObject => key == Nil || (!InArray(t, key) && forall i :: !Entry(t, i, key))
    case ArraySlot(i) => InArray(t, key) && i == ArrayIndex(key) - 1
    case NodeSlot(i) => key != Nil && !InArray(t, key) && Entry(t, i, key)
  }

  lemma FoundValue(hash: Value -> nat, t: Tab, path: seq<seq<int>>, key: Value, s: Slot)
    requires TableOk(hash, t, path) && Found(t, key, s)
    ensures SlotIn(t, s) && SlotValue(t, s) == Val(t, key)
  {
    if s.NodeSlot? { ValEntry(t, s.i, key); } else if s.NilObject? && key != Nil { ValNone(t, key); }
  }

  /** How many keys can still be added without a rehash. */
  function Capacity(t: Tab): nat { if t.dummy then 0 else FreeUse(t.node) }

  /** `key` can be set without a rehash. */
  ghost predicate Fits(t: Tab, key: Value) {
    InArray(t, key) || Capacity(t) > 0 || exists i :: Entry(t, i, key)
  }

  ghost function Need(t: Tab, key: Value): nat { if Fits(t, key) then 0 else 1 }

  class Table {
    const hash: Value -> nat
    var t: Tab
    ghost var path: seq<seq<int>>

    ghost predicate Valid()
      reads this
    {
      TableOk(hash, t, path)
    }

    /** `luaH_new`. */
    constructor (hash: Value -> nat)
      ensures Valid() && this.hash == hash && EmptyMap(t)
    {
      this.hash := hash;
      t := Tab([], [FreeNode], 0, true);
      path := [[0]];
      new;
      assert path == seq(1, i => [i]);
      FreshOk(hash, t, path);
      forall k ensures Val(t, k) == Nil { DummyEmpty(t, k); }
    }

    /** The loop of `luaH_getnum`, `luaH_getstr` and `luaH_get`: along the chain of the key's main
        position. */
    method Search(key: Value) returns (s: Slot)
      requires Valid() && key != Nil && !InArray(t, key)
      ensures Found(t, key, s) && (s.NodeSlot? || s.NilObject?)
    {
      var n := MainPosition(hash, |t.node|, key) as int;
      ghost var h := n;
      ghost var a := 0;
      PathNonempty(t.node, path, h);
      while n != NONE
        invariant 0 <= a <= |path[h]| && n == if a < |path[h]| then path[h][a] else NONE
        invariant forall b :: 0 <= b < a ==> !Entry(t, path[h][b], key)
        decreases |path[h]| - a
      {
        PathNext(t.node, path, h, a);
        if t.node[n].key == key && !t.node[n].dead {
          return NodeSlot(n);
        }
        n := t.node[n].next;
        a := a + 1;
      }
      assert a == |path[h]| by { if a < |path[h]| { PathSuffix(t.node, path, h, a); } }
      forall i ensures !Entry(t, i, key) {
        if Entry(t, i, key) { EntryOnPath(hash, t, path, i, key); }
      }
      return NilObject;
    }

    /** `luaH_getnum`. */
    method GetNum(key: int) returns (s: Slot)
      requires Valid() && INT_MIN <= key <= INT_MAX
      ensures Found(t, IntKey(key), s) && SlotIn(t, s) && SlotValue(t, s) == Val(t, IntKey(key))
    {
      if 0 <= key - 1 < |t.arr| {
        s := ArraySlot(key - 1);
      } else {
        s := Search(IntKey(key));
      }
      FoundValue(hash, t, path, IntKey(key), s);
    }

    /** `luaH_get`. */
    method Get(key: Value) returns (s: Slot)
      requires Valid()
      ensures Found(t, key, s) && SlotIn(t, s) && SlotValue(t, s) == Val(t, key)
    {
      match key {
        case Nil => s := NilObject;
        case Number(n) =>
          var k := ArrayIndex(key);
          if (k as real) == n {
            s := GetNum(k);
          } else {
            s := Search(key);
          }
        case _ => s := Search(key);
      }
      FoundValue(hash, t, path, key, s);
    }

    /** `getfreepos`: every node from `lastfree` on is in use. */
    method GetFreePos() returns (n: int)
      requires Valid()
      modifies this`t
      ensures t == old(t).(lastfree := t.lastfree) && t.lastfree <= old(t).lastfree
      ensures n == NONE ==> Capacity(t) == Capacity(old(t)) == 0 && Valid() && Same(old(t), t)
      ensures n != NONE ==> 0 <= n == t.lastfree < |t.node| && t.node[n].key == Nil && !t.dummy && FreeBelow(t, n + 1)
    {
      ghost var t0 := t;
      var more := t.lastfree > 0;
      t := t.(lastfree := t.lastfree - 1);
      while more
        invariant t == t0.(lastfree := t.lastfree) && t.lastfree < t0.lastfree && (more ==> t.lastfree >= 0)
        invariant !t.dummy ==> FreeBelow(t, t.lastfree + 1)
        invariant !more ==> t.lastfree < 0
        decreases t.lastfree + 1, more
      {
        if t.node[t.lastfree].key == Nil {
          return t.lastfree;
        }
        more := t.lastfree > 0;
        t := t.(lastfree := t.lastfree - 1);
      }
      LowerFree(hash, t0, path, t.lastfree);
      return NONE;
    }

    // ----- inserting -----

    /** `newkey`: a node for a key that has none. */
    method NewKey(key: Value) returns (r: Result<Slot>)
      requires Valid() && Absent(t, key)
      modifies this
      decreases if Capacity(t) > 0 then 0 else 1, 1
      ensures r.Ok? ==> Valid() && Same(old(t), t) && Found(t, key, r.value) && !r.value.NilObject?
      ensures r.Failed? ==> Size(old(t)) >= MAXASIZE && Size(t) >= MAXASIZE
      ensures old(Capacity(t)) > 0 ==> r.Ok? && t.arr == old(t).arr && Capacity(t) >= old(Capacity(t)) - 1
    {
      hide TableOk, Same, Absent, Capacity;
      ghost var t0 := t;
      TableParts(hash, t, path);
      var mp := MainPosition(hash, |t.node|, key) as int;
      if t.node[mp].val != Nil || t.dummy {
        var n := GetFreePos();
        if n == NONE {
          AbsentLowered(t0, t, key);
          ghost var f := t;
          var _ :- Rehash(key);
          ghost var t1 := t;
          SameTwice(t0, f, t1);
          r := LuaSet(key);
          SameTwice(t0, t1, t);
          return;
        }
        var othern := MainPosition(hash, |t.node|, t.node[mp].key) as int;
        assert FreeOk(t0, mp) && Used(t0, mp) && FreeOk(t0, n) && mp != n;
        if othern != mp {
          var prev := Previous(othern, mp, t0);
          assert FreeOk(t0, prev) && prev != n;
          MovedDone(hash, t0, t, path, mp, n, prev, key);
          path := MovedPath(t0, path, mp, n);
          t := Moved(t, mp, n, prev, key);
        } else {
          ChainedDone(hash, t0, t, path, mp, n, key);
          path := ChainedPath(t0, path, mp, n);
          t := Chained(t, mp, n, key);
          mp := n;
        }
      } else {
        InPlaceDone(hash, t, path, mp, key);
        t := InPlace(t, mp, key);
      }
      return Ok(NodeSlot(mp));
    }

    /** The loop of `newkey` that finds the node before `mp`. */
    method Previous(start: int, mp: int, ghost t0: Tab) returns (prev: int)
      requires TableOk(hash, t0, path) && t == t0.(lastfree := t.lastfree) && Used(t0, mp)
      requires start == Home(hash, t0, mp) != mp
      ensures Links(t.node, prev, mp) && prev != mp
    {
      prev := start;
      ghost var a := 0;
      assert HomeOk(hash, t0, path, mp);
      PathNonempty(t0.node, path, start);
      OnAt(path[start], mp);
      ghost var z :| 0 <= z < |path[start]| && path[start][z] == mp;
      PathNext(t0.node, path, start, 0);
      while t.node[prev].next != mp
        invariant 0 <= a < z && prev == path[start][a] && 0 <= prev < |t.node|
        invariant t.node[prev].next == path[start][a + 1]
        decreases z - a
      {
        prev := t.node[prev].next;
        a := a + 1;
        PathNext(t0.node, path, start, a);
      }
      if prev == mp { PathDistinct(t0.node, path, start, a, z); }
    }

    /** `luaH_set`: the place for the value of a key. */
    method LuaSet(key: Value) returns (r: Result<Slot>)
      requires Valid()
      modifies this
      decreases Need(t, key), 2
      ensures r.Ok? ==> Valid() && Same(old(t), t) && Found(t, key, r.value) && !r.value.NilObject?
      ensures key == Nil ==> r.Failed?
      ensures r.Failed? ==> key == Nil || (Size(old(t)) >= MAXASIZE && Size(t) >= MAXASIZE)
      ensures key != Nil && old(Fits(t, key)) ==>
                r.Ok? && t.arr == old(t).arr &&
                Capacity(t) >= old(Capacity(t)) - (if old(InArray(t, key) || exists i :: Entry(t, i, key)) then 0 else 1)
    {
      hide TableOk;
      var p := Get(key);
      if p != NilObject {
        return Ok(p);
      } else if key == Nil {
        return Failed("table index is nil");
      } else {
        r := NewKey(key);
      }
    }

    /** Stores a value where `LuaSet` found its place. */
    method Store(s: Slot, v: Value, ghost key: Value)
      requires Valid() && Found(t, key, s) && !s.NilObject?
      modifies this`t
      ensures Valid() && Updated(old(t), t, key, v) && t == Stored(old(t), s, v)
      ensures |t.arr| == |old(t).arr| && Capacity(t) == old(Capacity(t))
    {
      hide TableOk;
      StoreOk(hash, t, path, s, v, key);
      match s {
        case ArraySlot(i) => t := t.(arr := t.arr[i := v]);
        case NodeSlot(i) => t := t.(node := t.node[i := t.node[i].(val := v)]);
      }
    }

    /** `t[key] = v`. */
    method Set(key: Value, v: Value) returns (r: Result<()>)
      requires Valid()
      modifies this
      ensures key == Nil ==> r.Failed?
      ensures r.Failed? ==> key == Nil || (Size(old(t)) >= MAXASIZE && Size(t) >= MAXASIZE)
      ensures r.Ok? ==> Valid() && Updated(old(t), t, key, v)
      ensures key != Nil && old(Fits(t, key)) ==>
                r.Ok? && |t.arr| == |old(t).arr| &&
                Capacity(t) >= old(Capacity(t)) - (if old(InArray(t, key) || exists i :: Entry(t, i, key)) then 0 else 1)
      decreases Need(t, key), 3
    {
      hide TableOk, Capacity;
      ghost var t0 := t;
      var s :- LuaSet(key);
      ghost var t1 := t;
      Store(s, v, key);
      UpdatedAfter(t0, t1, t, key, v);
      return Ok(());
    }

    /** `removeentry` (lgc.c): the key of an entry without value dies if it is an object. */
    method RemoveEntry(i: int)
      requires Valid() && 0 <= i < |t.node| && t.node[i].val == Nil
      modifies this`t
      ensures Valid() && Same(old(t), t) && Pruned(old(t), t)
    {
      if IsCollectable(t.node[i].key) {
        RemoveOk(hash, t, path, i);
        t := t.(node := t.node[i := t.node[i].(dead := true)]);
      } else {
        SameSelf(t);
      }
    }

    /** Runs operations on the table, and steps of the collector between them; each lookup gives the
        value last stored. Only a nil key or a table that is full fails. */
    method Perform(ops: seq<Operation>) returns (ok: bool, out: seq<Value>)
      requires Valid() && EmptyMap(t)
      modifies this
      ensures ok ==> Valid() && out == Answers(ops, map[]).0
      ensures ok ==> forall k :: Val(t, k) == Lookup(Answers(ops, map[]).1, k)
      ensures !ok ==> Size(t) >= MAXASIZE || exists i :: 0 <= i < |ops| && ops[i].Store? && ops[i].key == Nil
    {
      hide TableOk, Val;
      ok, out := true, [];
      ghost var m: map<Value, Value> := map[];
      var i := 0;
      EmptyLookup(t);
      assert ops[0..] == ops && [] + Answers(ops, m).0 == Answers(ops, m).0;
      while i < |ops|
        invariant 0 <= i <= |ops| && Valid() && forall k :: Val(t, k) == Lookup(m, k)
        invariant Answers(ops, map[]) == (out + Answers(ops[i..], m).0, Answers(ops[i..], m).1)
      {
        ghost var m0, out0 := m, out;
        assert ops[i..][0] == ops[i] && ops[i..][1..] == ops[i + 1..];
        match ops[i] {
          case Store(key, v) =>
            var r := Set(key, v);
            if r.Failed? {
              return false, out;
            }
            m := m[key := v];
          case Fetch(key) =>
            var s := Get(key);
            out := out + [SlotValue(t, s)];
          case Bury(n) =>
            if n < |t.node| && t.node[n].val == Nil {
              RemoveEntry(n);
            }
        }
        AnswersStep(ops[i..], m0, out0, out, m);
        i := i + 1;
      }
      assert ops[i..] == [] && out + [] == out;
    }

    // ----- rehashing -----

    /** `setnodevector`: a fresh hash part. */
    method SetNodeVector(size: nat) returns (r: Result<()>)
      modifies this
      ensures r.Failed? ==> t == old(t) && size > MAXASIZE
      ensures r.Ok? ==> t == old(t).(node := t.node, lastfree := t.lastfree, dummy := t.dummy) && Capacity(t) >= size
      ensures r.Ok? && |t.arr| <= MAXASIZE ==> Valid() && forall i :: 0 <= i < |t.node| ==> t.node[i] == FreeNode
    {
      var node, dummy;
      if size == 0 {
        node, dummy := [FreeNode], true;
      } else {
        var lsize := CeilLog2(size);
        if lsize > MAXBITS {
          Pow2MaxBits();
          Pow2Grows(MAXBITS, lsize - 1);
          return Failed("table overflow");
        }
        Pow2MaxBits();
        Pow2Grows(lsize, MAXBITS);
        node, dummy := seq(Pow2(lsize), _ => FreeNode), false;
        AllFree(Pow2(lsize));
      }
      t := t.(node := node, dummy := dummy, lastfree := if dummy then 0 else |node|);
      path := seq(|node|, i => [i]);
      if |t.arr| <= MAXASIZE { FreshOk(hash, t, path); }
      return Ok(());
    }

    /** `luaH_setnum` and the store that follows it. */
    method SetNum(key: int, v: Value) returns (r: Result<()>)
      requires Valid() && 0 < key <= MAX_INT && Fits(t, IntKey(key))
      modifies this
      decreases 0, 3
      ensures r.Ok? && Valid() && Updated(old(t), t, IntKey(key), v) && |t.arr| == |old(t).arr|
      ensures Capacity(t) >= old(Capacity(t)) - (if old(InArray(t, IntKey(key))) then 0 else 1)
    {
      hide TableOk;
      ghost var t0 := t;
      var p := GetNum(key);
      if p == NilObject {
        var q := NewKey(IntKey(key));
        p := q.value;
      }
      ghost var t1 := t;
      Store(p, v, IntKey(key));
      UpdatedAfter(t0, t1, t, IntKey(key), v);
      return Ok(());
    }

    /** The array part's side of `resize`: grown with nils, or cut. */
    method SetArrayVector(size: nat)
      modifies this`t
      ensures t == old(t).(arr := Sized(old(t).arr, size))
    {
      t := t.(arr := if size <= |t.arr| then t.arr[..size] else t.arr + seq(size - |t.arr|, _ => Nil));
    }

    /** `resize`: everything is kept, and nothing is rehashed on the way. */
    method Resize(nasize: nat, nhsize: nat) returns (r: Result<()>)
      requires Valid() && nasize <= MAXASIZE && HashDemand(t, nasize) <= nhsize
      modifies this
      decreases 0, 4
      ensures r.Failed? ==> nhsize > MAXASIZE && Size(t) >= Size(old(t))
      ensures r.Ok? ==> Valid() && Same(old(t), t) && |t.arr| == nasize
      ensures r.Ok? ==> Capacity(t) >= nhsize - HashDemand(old(t), nasize)
    {
      hide TableOk, Same, Updated, Capacity;
      ghost var t0, p0 := t, path;
      TableBounds(hash, t, path);
      var oldarr, nold := t.arr, t.node;
      if nasize > |oldarr| {
        SetArrayVector(nasize);
      }
      var _ :- SetNodeVector(nhsize);
      if nasize < |oldarr| {
        CutFresh(hash, t, path, nasize);
        SetArrayVector(nasize);
      }
      StartReinsert(t0, t, nasize);
      ghost var slack := nhsize - HashDemand(t0, nasize);
      var i := Min(nasize, |oldarr|);
      OutWhole(nold, nasize);
      while i < |oldarr|
        invariant Min(nasize, |oldarr|) <= i <= |oldarr| && Valid() && |t.arr| == nasize
        invariant Reinserted(t0, t, i, |nold|)
        invariant Capacity(t) >= slack + UseArray(oldarr, i, |oldarr|) + OutUse(nold[..|nold|], nasize)
      {
        UseFirst(oldarr, i, |oldarr|);
        ghost var t1 := t;
        if oldarr[i] != Nil {
          CapacityFits(t, IntKey(i + 1));
          var _ := SetNum(i + 1, oldarr[i]);
        }
        ArrayStep(t0, t1, t, i);
        i := i + 1;
      }
      var j := |nold|;
      while j > 0
        invariant 0 <= j <= |nold| && Valid() && |t.arr| == nasize
        invariant Reinserted(t0, t, |oldarr|, j)
        invariant Capacity(t) >= slack + OutUse(nold[..j], nasize)
      {
        j := j - 1;
        OutLast(nold, j, nasize);
        ghost var t1 := t;
        NodeParts(hash, t0, p0, j);
        if nold[j].val != Nil {
          NodeFits(t, nold[j], nasize);
          var _ := Set(nold[j].key, nold[j].val);
        }
        NodeStep(hash, t0, p0, t1, t, j);
      }
      EndReinsert(t0, t);
      return Ok(());
    }

    /** `countint`. */
    method CountInt(key: Value, nums: array<int>) returns (b: int)
      requires nums.Length == MAXBITS + 1
      modifies nums
      ensures b == Bit(0 < ArrayIndex(key) <= MAXASIZE)
      ensures forall j :: 0 <= j <= MAXBITS ==> nums[j] == old(nums[j]) + Bit(InSlice(ArrayIndex(key), j))
    {
      var k := ArrayIndex(key);
      if 0 < k && k <= MAXASIZE {
        var j := CeilLog2(k);
        SliceBound(k, j);
        forall i | 0 <= i <= MAXBITS ensures InSlice(k, i) <==> i == j { if InSlice(k, i) { OneSlice(k, i, j); } }
        nums[j] := nums[j] + 1;
        return 1;
      } else {
        forall i | 0 <= i <= MAXBITS ensures !InSlice(k, i) { NoSlice(k, i); }
        return 0;
      }
    }

    /** `numusearray`. */
    method NumUseArray(nums: array<int>) returns (ause: int)
      requires |t.arr| <= MAXASIZE && nums.Length == MAXBITS + 1 && forall j :: 0 <= j <= MAXBITS ==> nums[j] == 0
      modifies nums
      ensures ause == UseArray(t.arr, 0, |t.arr|)
      ensures forall j :: 0 <= j <= MAXBITS ==> nums[j] == ArraySlice(t.arr, j)
    {
      hide UseArray, ArraySlice, Pow2;
      Pow2MaxBits();
      SliceStart(t.arr);
      ause := 0;
      var i, lg, ttlg := 1, 0, 1;
      while lg <= MAXBITS
        invariant 0 <= lg <= MAXBITS + 1 && ttlg == Pow2(lg) && i == Min(Low(lg), |t.arr|) + 1
        invariant ause == UseArray(t.arr, 0, i - 1)
        invariant forall j :: 0 <= j < lg ==> nums[j] == ArraySlice(t.arr, j)
        invariant forall j :: lg <= j <= MAXBITS ==> nums[j] == 0
        decreases MAXBITS + 1 - lg
      {
        var lim := ttlg;
        if lim > |t.arr| {
          lim := |t.arr|;
          if i > lim {
            EmptySlices(t.arr, lg);
            break;
          }
        }
        LowBelow(lg);
        SliceSum(t.arr, lg);
        var lc := CountSlice(i, lim);
        nums[lg] := nums[lg] + lc;
        ause := ause + lc;
        i := lim + 1;
        lg, ttlg := lg + 1, ttlg * 2;
      }
    }

    /** The inner loop of `numusearray`. */
    method CountSlice(start: int, lim: int) returns (lc: int)
      requires 1 <= start <= lim + 1 <= |t.arr| + 1
      ensures lc == UseArray(t.arr, start - 1, lim)
    {
      lc := 0;
      var i := start;
      while i <= lim
        invariant start <= i <= lim + 1 && lc == UseArray(t.arr, start - 1, i - 1)
      {
        if t.arr[i - 1] != Nil {
          lc := lc + 1;
        }
        i := i + 1;
      }
    }

    /** `numusehash`: all entries, and those with integer keys. */
    method NumUseHash(nums: array<int>) returns (totaluse: int, ause: int)
      requires nums.Length == MAXBITS + 1
      modifies nums
      ensures totaluse == TotalUse(t.node) && ause == IntUse(t.node, 0, MAXASIZE)
      ensures forall j :: 0 <= j <= MAXBITS ==> nums[j] == old(nums[j]) + IntUse(t.node, Low(j), Pow2(j))
    {
      totaluse, ause := 0, 0;
      var i := |t.node|;
      assert t.node[i..] == [];
      while i > 0
        invariant 0 <= i <= |t.node|
        invariant totaluse == TotalUse(t.node[i..]) && ause == IntUse(t.node[i..], 0, MAXASIZE)
        invariant forall j :: 0 <= j <= MAXBITS ==> nums[j] == old(nums[j]) + IntUse(t.node[i..], Low(j), Pow2(j))
      {
        i := i - 1;
        var n := t.node[i];
        assert t.node[i..] == [n] + t.node[i + 1..] && t.node[i..][1..] == t.node[i + 1..];
        if n.val != Nil {
          var b := CountInt(n.key, nums);
          ause := ause + b;
          totaluse := totaluse + 1;
        }
      }
      assert t.node[0..] == t.node;
    }

    /** `rehash`: new sizes for what is there and for the pending key. */
    method Rehash(ek: Value) returns (r: Result<()>)
      requires Valid() && Absent(t, ek)
      modifies this
      decreases 1, 0
      ensures r.Ok? ==> Valid() && Same(old(t), t) && Fits(t, ek)
      ensures r.Failed? ==> Size(old(t)) >= MAXASIZE && Size(t) >= MAXASIZE
      ensures r.Ok? ==> Optimal(m => Demand(old(t), ek, m), |t.arr|)
    {
      hide TableOk, Absent, Same, Optimal, Capacity, AddsUp, Counts, ArraySlice, IntUse, UseArray, TotalUse, Pow2, Fits;
      ghost var t0 := t;
      TableBounds(hash, t, path);
      Pow2MaxBits();
      var nums := new int[MAXBITS + 1](_ => 0);
      var nasize := NumUseArray(nums);
      var totaluse := nasize;
      var total, ints := NumUseHash(nums);
      totaluse, nasize := totaluse + total, nasize + ints;
      var extra := CountInt(ek, nums);
      nasize, totaluse := nasize + extra, totaluse + 1;
      ghost var d: nat -> nat := m => Demand(t0, ek, m);
      SlicesCount(t, ek, nums[..]);
      CountsAddUp(hash, t, path, ek, nums[..], d);
      DemandNone(t, ek);
      var na, n := ComputeSizes(nums[..], nasize, d);
      HashRoom(t, ek, n, totaluse - na);
      UseBound(t.arr, 0, |t.arr|);
      UseAtMost(t.node, 0, 0);
      var _ :- Resize(n, totaluse - na);
      RoomFits(t, ek);
      return Ok(());
    }

    // ----- the border -----

    /** `unbound_search`: doubling and bisecting beyond the array part. */
    method UnboundSearch(start: nat) returns (n: nat)
      requires Valid() && start <= MAXASIZE && (start == 0 || Val(t, IntKey(start)) != Nil)
      ensures Border(t, n) && n < MAX_INT
    {
      hide TableOk, Val;
      TableBounds(hash, t, path);
      var i, j := start, start + 1;
      var s := GetNum(j);
      while SlotValue(t, s) != Nil
        invariant 0 <= i < j <= MAX_INT && (i == 0 || Val(t, IntKey(i)) != Nil)
        invariant SlotIn(t, s) && SlotValue(t, s) == Val(t, IntKey(j))
        decreases MAX_INT - j
      {
        i := j;
        j := j * 2;
        if j > MAX_INT {
          n := LinearSearch();
          return;
        }
        s := GetNum(j);
      }
      while j - i > 1
        invariant 0 <= i < j <= MAX_INT && (i == 0 || Val(t, IntKey(i)) != Nil) && Val(t, IntKey(j)) == Nil
        decreases j - i
      {
        var m := (i + j) / 2;
        s := GetNum(m);
        if SlotValue(t, s) == Nil {
          j := m;
        } else {
          i := m;
        }
      }
      return i;
    }

    /** The search from 1 up, for tables that defeat the doubling. */
    method LinearSearch() returns (n: nat)
      requires Valid()
      ensures Border(t, n) && n < MAX_INT
    {
      hide TableOk, Val;
      TableBounds(hash, t, path);
      var i := 1;
      var s := GetNum(i);
      while SlotValue(t, s) != Nil
        invariant 1 <= i <= |t.arr| + |t.node| + 1
        invariant forall k :: 1 <= k < i ==> Present(t, k)
        invariant SlotIn(t, s) && SlotValue(t, s) == Val(t, IntKey(i))
        decreases |t.arr| + |t.node| + 1 - i
      {
        i := i + 1;
        PresentBound(t, i);
        s := GetNum(i);
      }
      assert i > 1 ==> Present(t, i - 1);
      return i - 1;
    }

    /** `luaH_getn`: a border of the table. */
    method GetN() returns (n: nat)
      requires Valid()
      ensures Border(t, n) && n < MAX_INT
    {
      TableBounds(hash, t, path);
      var j := |t.arr|;
      if j > 0 && t.arr[j - 1] == Nil {
        var i := 0;
        while j - i > 1
          invariant 0 <= i < j <= |t.arr| && t.arr[j - 1] == Nil && (i == 0 || t.arr[i - 1] != Nil)
          decreases j - i
        {
          var m := (i + j) / 2;
          if t.arr[m - 1] == Nil {
            j := m;
          } else {
            i := m;
          }
        }
        return i;
      } else if t.dummy {
        DummyEmpty(t, IntKey(j + 1));
        return j;
      } else {
        n := UnboundSearch(j);
      }
    }

    // ----- traversal -----

    /** `findindex`: where a key sits, be it dead or alive; of several nodes, the first on the chain. */
    method FindIndex(key: Value) returns (r: Result<int>)
      requires Valid()
      ensures r.Ok? ==> PlaceOf(t, path, key, r.value)
      ensures r.Failed? <==> key != Nil && !InArray(t, key) && forall p :: !KeyNode(t, key, p)
    {
      if key == Nil {
        return Ok(-1);
      }
      var i := ArrayIndex(key);
      if 0 < i && i <= |t.arr| {
        return Ok(i - 1);
      }
      var n := MainPosition(hash, |t.node|, key) as int;
      ghost var h := n;
      ghost var a := 0;
      PathNonempty(t.node, path, h);
      while n != NONE
        invariant 0 <= a <= |path[h]| && n == if a < |path[h]| then path[h][a] else NONE
        invariant forall b :: 0 <= b < a ==> !KeyNode(t, key, path[h][b])
        decreases |path[h]| - a
      {
        PathNext(t.node, path, h, a);
        if t.node[n].key == key {
          FirstOnPath(hash, t, path, a, key);
          return Ok(n + |t.arr|);
        }
        n := t.node[n].next;
        a := a + 1;
      }
      if a < |path[h]| { PathSuffix(t.node, path, h, a); }
      forall p ensures !KeyNode(t, key, p) {
        if KeyNode(t, key, p) { KeyOnPath(hash, t, path, p, key); }
      }
      return Failed("invalid key to 'next'");
    }

    /** `luaH_next`: the first entry behind the place of `key`. */
    method Next(key: Value) returns (r: Result<Option<(Value, Value)>>)
      requires Valid()
      ensures r.Failed? <==> key != Nil && !InArray(t, key) && forall p :: !KeyNode(t, key, p)
      ensures r.Ok? ==> StepFrom(t, path, key, r.value)
    {
      hide TableOk, PlaceOf;
      var at :- FindIndex(key);
      PlaceBounds(t, path, key, at);
      var i := at + 1;
      while i < |t.arr|
        invariant -1 <= at < i && (i <= |t.arr| || i == at + 1) && i <= Size(t)
        invariant forall m :: at < m < i ==> ValueAt(t, m) == Nil
      {
        if t.arr[i] != Nil {
          assert NextAt(t, at, i) && KeyAt(t, i) == IntKey(i + 1) && ValueAt(t, i) == t.arr[i];
          return Ok(Some((IntKey(i + 1), t.arr[i])));
        }
        i := i + 1;
      }
      i := i - |t.arr|;
      while i < |t.node|
        invariant at < i + |t.arr| <= Size(t) && i >= 0
        invariant forall m :: at < m < i + |t.arr| ==> ValueAt(t, m) == Nil
      {
        if t.node[i].val != Nil {
          var m := i + |t.arr|;
          assert NextAt(t, at, m) && KeyAt(t, m) == t.node[i].key && ValueAt(t, m) == t.node[i].val;
          return Ok(Some((t.node[i].key, t.node[i].val)));
        }
        i := i + 1;
      }
      assert NextEntry(t, at, None);
      return Ok(None);
    }

    /** What a program and the collector may do to a table that is being traversed. */
    method Apply(c: Change)
      requires Valid()
      modifies this
      ensures Valid() && path == old(path) && Pruned(old(t), t)
    {
      hide TableOk;
      PrunedSelf(t);
      match c {
        case Assign(key, v) =>
          var s := Get(key);
          if SlotValue(t, s) != Nil {
            StorePrunes(t, s, v);
            Store(s, v, key);
          }
        case Collect(i) =>
          if i < |t.node| && t.node[i].val == Nil {
            RemoveEntry(i);
          }
      }
    }

    /** A whole traversal, with changes between the calls of `next`: it stops, no key is visited
        twice, every key that has a value in the end has been visited, and no others than those that
        had one at the beginning. */
    method Traverse(plan: seq<seq<Change>>) returns (keys: seq<Value>)
      requires Valid()
      modifies this
      ensures Valid() && Pruned(old(t), t)
      ensures forall a, b :: 0 <= a < b < |keys| ==> keys[a] != keys[b]
      ensures forall key :: Val(t, key) != Nil ==> Among(keys, key)
      ensures forall j :: 0 <= j < |keys| ==> Val(old(t), keys[j]) != Nil
    {
      hide TableOk, Pruned, PlaceOf, NextEntry, Val, SeenUpTo, Visits, Among, StepFrom;
      keys := [];
      var key := Nil;
      ghost var t0, p0 := t, path;
      ghost var at := -1;
      ghost var places := [];
      PrunedSelf(t);
      StartTraversal(t, path);
      while true
        invariant Valid() && path == p0 && Pruned(t0, t) && PlaceOf(t, path, key, at) && -1 <= at < Size(t)
        invariant SeenUpTo(t, keys, at) && Visits(t0, path, keys, places, at)
        decreases Size(t) - at
      {
        PlaceBounds(t, path, key, at);
        var r := Next(key);
        ghost var m := NextStep(hash, t, path, key, at, r.value);
        if r.value.None? {
          AllSeen(hash, t, path, keys, key, at);
          break;
        }
        var k := r.value.value.0;
        VisitOne(hash, t0, t, path, keys, places, at, k, m);
        var changes := if |keys| < |plan| then plan[|keys|] else [];
        keys := keys + [k];
        places := places + [m];
        key, at := k, m;
        PrunedSize(t0, t);
        var c := 0;
        while c < |changes|
          invariant 0 <= c <= |changes| && Valid() && path == p0 && Pruned(t0, t) && PlaceOf(t, path, key, at)
          invariant SeenUpTo(t, keys, at) && Size(t) == Size(t0) && -1 <= at < Size(t)
        {
          ghost var t1 := t;
          Apply(changes[c]);
          PrunedTwice(t0, t1, t);
          PlaceKept(t1, t, path, key, at);
          SeenKept(t1, t, keys, at);
          c := c + 1;
        }
      }
      VisitsDistinct(hash, t0, path, keys, places, at);
    }
  }

  // ----- runs -----

  /** `Bury` is the collector's: the key of a node without value dies. */
  datatype Operation = Store(key: Value, v: Value) | Fetch(key: Value) | Bury(n: nat)

  function Lookup(m: map<Value, Value>, k: Value): Value { if k in m then m[k] else Nil }

  /** What a map answers, and the map afterwards. */
  function Answers(ops: seq<Operation>, m: map<Value, Value>): (seq<Value>, map<Value, Value>) {
    if ops == [] then ([], m)
    else
      match ops[0]
      case Store(k, v) => Answers(ops[1..], m[k := v])
      case Fetch(k) => var (rest, m') := Answers(ops[1..], m); ([Lookup(m, k)] + rest, m')
      case Bury(_) => Answers(ops[1..], m)
  }

  lemma AnswersStep(ops: seq<Operation>, m: map<Value, Value>, out: seq<Value>, out': seq<Value>, m': map<Value, Value>)
    requires ops != []
    requires if ops[0].Store? then m' == m[ops[0].key := ops[0].v] && out' == out
             else m' == m && out' == if ops[0].Fetch? then out + [Lookup(m, ops[0].key)] else out
    ensures (out + Answers(ops, m).0, Answers(ops, m).1) == (out' + Answers(ops[1..], m').0, Answers(ops[1..], m').1)
  {
    if ops[0].Fetch? {
      assert out + ([Lookup(m, ops[0].key)] + Answers(ops[1..], m).0) == out' + Answers(ops[1..], m').0;
    }
  }

  ghost predicate EmptyMap(t: Tab) { forall k :: Val(t, k) == Nil }

  lemma EmptyLookup(t: Tab)
    requires EmptyMap(t)
    ensures forall k :: Val(t, k) == Lookup(map[], k)
  {
  }

  predicate IsCollectable(k: Value) { k.String? || k.Object? }

  lemma SameSelf(t: Tab)
    ensures Same(t, t) && Pruned(t, t)
  {
  }

  lemma RemoveOk(hash: Value -> nat, t: Tab, path: seq<seq<int>>, i: int)
    requires TableOk(hash, t, path) && 0 <= i < |t.node| && t.node[i].val == Nil && t.node[i].key != Nil
    ensures var t' := t.(node := t.node[i := t.node[i].(dead := true)]);
            TableOk(hash, t', path) && Same(t, t') && Pruned(t, t') && Capacity(t') == Capacity(t)
  {
    var t' := t.(node := t.node[i := t.node[i].(dead := true)]);
    StructureKept(hash, t, t', path);
    FreeSet(t.node, i, t.node[i].(dead := true));
    forall j | 0 <= j < |t.node| ensures FreeOk(t', j) { assert FreeOk(t, j); }
    SameEntries(t, t', j => j, j => j);
  }

  // ----- resizing -----

  function Sized(arr: seq<Value>, size: nat): seq<Value> {
    if size <= |arr| then arr[..size] else arr + seq(size - |arr|, _ => Nil)
  }

  /** The entries that have to go to the hash part when the array part has `n` places. */
  function HashDemand(t: Tab, n: nat): nat {
    UseArray(t.arr, Min(n, |t.arr|), |t.arr|) + OutUse(t.node, n)
  }

  /** `key` lies in the array part up to `i`, or in node `j` or above. */
  ghost predicate Handled(t: Tab, key: Value, i: int, j: int) {
    if InArray(t, key) then ArrayIndex(key) <= i else exists m :: m >= j && Entry(t, m, key)
  }

  /** `t` has the values that `t0` has in its array part up to `i` and its nodes from `j` on. */
  ghost predicate Reinserted(t0: Tab, t: Tab, i: int, j: int) {
    forall k :: Val(t, k) == if Handled(t0, k, i, j) then Val(t0, k) else Nil
  }

  lemma TableBounds(hash: Value -> nat, t: Tab, path: seq<seq<int>>)
    requires TableOk(hash, t, path)
    ensures 0 < |t.node| <= MAXASIZE && |t.arr| <= MAXASIZE
  {
  }

  lemma CutFresh(hash: Value -> nat, t: Tab, path: seq<seq<int>>, size: nat)
    requires TableOk(hash, t, path) && size <= |t.arr| && forall i :: 0 <= i < |t.node| ==> t.node[i] == FreeNode
    ensures var t' := t.(arr := Sized(t.arr, size)); TableOk(hash, t', path) && Capacity(t') == Capacity(t)
  {
    var t' := t.(arr := Sized(t.arr, size));
    forall i | 0 <= i < |t.node| ensures FreeOk(t', i) { assert FreeOk(t, i); }
    forall p, i | Links(t'.node, p, i) && i != NONE ensures Used(t', i) { assert Used(t, i); }
  }

  lemma StartReinsert(t0: Tab, t: Tab, n: nat)
    requires t.arr == Sized(t0.arr, n) && forall i :: 0 <= i < |t.node| ==> t.node[i] == FreeNode
    ensures Reinserted(t0, t, Min(n, |t0.arr|), |t0.node|)
  {
    forall k ensures Val(t, k) == if Handled(t0, k, Min(n, |t0.arr|), |t0.node|) then Val(t0, k) else Nil {
      if k != Nil && !InArray(t, k) { ValNone(t, k); }
    }
  }

  lemma EndReinsert(t0: Tab, t: Tab)
    requires Reinserted(t0, t, |t0.arr|, 0)
    ensures Same(t0, t)
  {
    forall k ensures Val(t, k) == Val(t0, k) {
      if !Handled(t0, k, |t0.arr|, 0) { ValNone(t0, k); }
    }
  }

  lemma ArrayStep(t0: Tab, t1: Tab, t2: Tab, i: nat)
    requires i < |t0.arr| <= MAXASIZE && Reinserted(t0, t1, i, |t0.node|)
    requires if t0.arr[i] != Nil then Updated(t1, t2, IntKey(i + 1), t0.arr[i]) else t2 == t1
    ensures Reinserted(t0, t2, i + 1, |t0.node|)
  {
    forall k ensures Val(t2, k) == if Handled(t0, k, i + 1, |t0.node|) then Val(t0, k) else Nil {
      assert Val(t1, k) == if Handled(t0, k, i, |t0.node|) then Val(t0, k) else Nil;
      if ArrayIndex(k) == i + 1 { KeyOfInt(k, IntKey(i + 1)); }
    }
  }

  lemma NodeParts(hash: Value -> nat, t: Tab, path: seq<seq<int>>, j: nat)
    requires TableOk(hash, t, path) && j < |t.node|
    ensures FreeOk(t, j) && (t.node[j].val != Nil ==> Used(t, j) && Entry(t, j, t.node[j].key) && !InArray(t, t.node[j].key))
  {
    assert FreeOk(t, j);
    if t.node[j].val != Nil { assert Used(t, j); }
  }

  lemma NodeStep(hash: Value -> nat, t0: Tab, p0: seq<seq<int>>, t1: Tab, t2: Tab, j: nat)
    requires TableOk(hash, t0, p0) && j < |t0.node| && Reinserted(t0, t1, |t0.arr|, j + 1)
    requires if t0.node[j].val != Nil then Updated(t1, t2, t0.node[j].key, t0.node[j].val) else t2 == t1
    ensures Reinserted(t0, t2, |t0.arr|, j)
  {
    NodeParts(hash, t0, p0, j);
    var key := t0.node[j].key;
    forall k ensures Val(t2, k) == if Handled(t0, k, |t0.arr|, j) then Val(t0, k) else Nil {
      assert Val(t1, k) == if Handled(t0, k, |t0.arr|, j + 1) then Val(t0, k) else Nil;
      if !InArray(t0, k) && Entry(t0, j, k) && k != Nil { ValEntry(t0, j, k); }
    }
  }

  lemma {:induction false} UseFirst(arr: seq<Value>, i: nat, hi: nat)
    requires i < hi <= |arr|
    ensures UseArray(arr, i, hi) == Bit(arr[i] != Nil) + UseArray(arr, i + 1, hi)
  {
    UseSplit(arr, i, i + 1, hi);
    assert UseArray(arr, i, i) == 0;
  }

  lemma OutWhole(node: seq<Node>, n: int)
    ensures OutUse(node[..|node|], n) == OutUse(node, n)
  {
    assert node[..|node|] == node;
  }

  lemma {:induction false} OutLast(node: seq<Node>, j: nat, n: int)
    requires j < |node|
    ensures OutUse(node[..j + 1], n) == OutUse(node[..j], n) + Bit(node[j].val != Nil && !IntEntry(node[j], 0, n))
  {
    if j > 0 {
      OutLast(node[1..], j - 1, n);
      assert node[..j + 1][1..] == node[1..][..j] && node[..j][1..] == node[1..][..j - 1];
    } else {
      assert node[..1][1..] == [];
    }
  }

  lemma CapacityFits(t: Tab, key: Value)
    ensures Capacity(t) > 0 ==> Fits(t, key)
  {
  }

  lemma NodeFits(t: Tab, n: Node, nasize: nat)
    requires n.val != Nil && |t.arr| == nasize && Capacity(t) >= Bit(!IntEntry(n, 0, nasize))
    ensures Fits(t, n.key) && (IntEntry(n, 0, nasize) <==> InArray(t, n.key))
  {
  }

  // ----- counting -----

  function ArraySlice(arr: seq<Value>, j: nat): nat {
    LowBelow(j);
    UseArray(arr, Min(Low(j), |arr|), Min(Pow2(j), |arr|))
  }

  lemma LowBelow(j: nat)
    ensures 0 <= Low(j) <= Pow2(j)
  {
  }

  lemma SliceStart(arr: seq<Value>)
    ensures UseArray(arr, 0, 0) == 0 && Pow2(0) == 1
  {
  }

  lemma SliceSum(arr: seq<Value>, lg: nat)
    ensures 0 <= Low(lg) <= Pow2(lg) && Low(lg + 1) == Pow2(lg) && Pow2(lg + 1) == 2 * Pow2(lg)
    ensures ArraySlice(arr, lg) == UseArray(arr, Min(Low(lg), |arr|), Min(Pow2(lg), |arr|))
    ensures UseArray(arr, 0, Min(Pow2(lg), |arr|)) == UseArray(arr, 0, Min(Low(lg), |arr|)) + ArraySlice(arr, lg)
  {
    LowBelow(lg);
    UseSplit(arr, 0, Min(Low(lg), |arr|), Min(Pow2(lg), |arr|));
  }

  lemma NoSlice(k: int, j: nat)
    requires (k <= 0 || k > MAXASIZE) && j <= MAXBITS
    ensures !InSlice(k, j)
  {
    Pow2MaxBits();
    Pow2Grows(j, MAXBITS);
  }

  lemma EmptySlices(arr: seq<Value>, lg: nat)
    requires |arr| <= Low(lg)
    ensures forall j :: j >= lg ==> ArraySlice(arr, j) == 0
  {
    forall j | j >= lg ensures ArraySlice(arr, j) == 0 {
      if lg > 0 { Pow2Grows(lg - 1, j - 1); }
      LowBelow(j);
    }
  }

  lemma SlicesCount(t: Tab, ek: Value, nums: seq<int>)
    requires |nums| == MAXBITS + 1
    requires forall j :: 0 <= j <= MAXBITS ==>
               nums[j] == ArraySlice(t.arr, j) + IntUse(t.node, Low(j), Pow2(j)) + Bit(InSlice(ArrayIndex(ek), j))
    ensures Counts(t, ek, nums)
  {
  }

  lemma DemandNone(t: Tab, ek: Value)
    ensures Demand(t, ek, 0) == 0
  {
    IntNone(t.node, 0);
  }

  /** The entries left for the hash part, and the pending key, have room there. */
  lemma HashRoom(t: Tab, ek: Value, n: nat, nhsize: int)
    requires nhsize == UseArray(t.arr, 0, |t.arr|) + TotalUse(t.node) + 1 - Demand(t, ek, n)
    ensures nhsize == HashDemand(t, n) + Bit(!(0 < ArrayIndex(ek) <= n))
  {
    UseSplit(t.arr, 0, Min(n, |t.arr|), |t.arr|);
    OutSplit(t.node, n);
  }

  lemma RoomFits(t: Tab, ek: Value)
    requires Capacity(t) >= Bit(!InArray(t, ek))
    ensures Fits(t, ek)
  {
  }

  // ----- the border -----

  /** A border: 0 or a present index, with nil behind it. */
  ghost predicate Border(t: Tab, n: nat) {
    (n == 0 || Val(t, IntKey(n)) != Nil) && Val(t, IntKey(n + 1)) == Nil
  }

  ghost predicate Present(t: Tab, k: int) { Val(t, IntKey(k)) != Nil }

  lemma DummyEmpty(t: Tab, key: Value)
    requires t.node == [FreeNode] && !InArray(t, key)
    ensures Val(t, key) == Nil
  {
    if key != Nil { ValNone(t, key); }
  }

  lemma {:induction false} SomeEntry(node: seq<Node>, i: int, lo: int, hi: int)
    requires 0 <= i < |node| && IntEntry(node[i], lo, hi)
    ensures IntUse(node, lo, hi) >= 1
  {
    if i > 0 { SomeEntry(node[1..], i - 1, lo, hi); }
  }

  /** A table does not have more present indices than places. */
  lemma {:induction false} PresentUse(t: Tab, m: nat)
    requires |t.arr| <= m <= MAX_INT && forall k :: 1 <= k <= m ==> Present(t, k)
    ensures IntUse(t.node, |t.arr|, m) >= m - |t.arr|
    decreases m
  {
    if m > |t.arr| {
      PresentUse(t, m - 1);
      IntSplit(t.node, |t.arr|, m - 1, m);
      assert Present(t, m);
      var i :| Entry(t, i, IntKey(m)) && t.node[i].val != Nil;
      SomeEntry(t.node, i, m - 1, m);
    }
  }

  lemma PresentBound(t: Tab, i: nat)
    requires 1 <= i <= MAX_INT && forall k :: 1 <= k < i ==> Present(t, k)
    ensures i <= |t.arr| + |t.node| + 1
  {
    if i - 1 > |t.arr| {
      PresentUse(t, i - 1);
      UseAtMost(t.node, |t.arr|, i - 1);
    }
  }

  // ----- traversal -----

  /** A change between two calls of `next`: a new value, or nil, for a field that has one, or the death
      of the key of a node without value. */
  datatype Change = Assign(key: Value, v: Value) | Collect(i: nat)

  lemma StorePrunes(t: Tab, s: Slot, v: Value)
    requires SlotIn(t, s) && SlotValue(t, s) != Nil
    ensures Pruned(t, Stored(t, s, v))
  {
  }

  lemma StartTraversal(t: Tab, path: seq<seq<int>>)
    ensures PlaceOf(t, path, Nil, -1) && SeenUpTo(t, [], -1) && Visits(t, path, [], [], -1) && Size(t) >= 0
  {
  }

  lemma NextStep(hash: Value -> nat, t: Tab, path: seq<seq<int>>, key: Value, i: int, r: Option<(Value, Value)>) returns (m: int)
    requires TableOk(hash, t, path) && PlaceOf(t, path, key, i) && StepFrom(t, path, key, r)
    ensures r.None? ==> NextEntry(t, i, None)
    ensures r.Some? ==> NextAt(t, i, m) && KeyAt(t, m) == r.value.0 && PlaceOf(t, path, r.value.0, m) && i < m < Size(t) && 0 <= m
  {
    m := NextPlace(hash, t, path, key, i, r);
  }

  const FreeNode := Node(Nil, false, Nil, NONE)

  /** Only the value of `key` differs. */
  ghost predicate Updated(t: Tab, t': Tab, key: Value, v: Value) {
    forall k :: Val(t', k) == if k == key then v else Val(t, k)
  }

  lemma UpdatedAfter(t: Tab, t1: Tab, t2: Tab, key: Value, v: Value)
    requires Same(t, t1) && Updated(t1, t2, key, v)
    ensures Updated(t, t2, key, v)
  {
    forall k ensures Val(t2, k) == if k == key then v else Val(t, k) { assert Val(t1, k) == Val(t, k); }
  }

  function Stored(t: Tab, s: Slot, v: Value): Tab
    requires SlotIn(t, s)
  {
    match s
    case NilObject => t
    case ArraySlot(i) => t.(arr := t.arr[i := v])
    case NodeSlot(i) => t.(node := t.node[i := t.node[i].(val := v)])
  }

  lemma StoreOk(hash: Value -> nat, t: Tab, path: seq<seq<int>>, s: Slot, v: Value, key: Value)
    requires TableOk(hash, t, path) && Found(t, key, s) && !s.NilObject?
    ensures SlotIn(t, s) && TableOk(hash, Stored(t, s, v), path) && Updated(t, Stored(t, s, v), key, v)
    ensures Capacity(Stored(t, s, v)) == Capacity(t)
  {
    FoundValue(hash, t, path, key, s);
    var t' := Stored(t, s, v);
    StructureKept(hash, t, t', path);
    if s.NodeSlot? { FreeSet(t.node, s.i, t.node[s.i].(val := v)); }
    forall i | 0 <= i < |t.node| ensures FreeOk(t', i) { assert FreeOk(t, i); }
    StoredVal(t, s, v, key);
  }

  lemma StoredVal(t: Tab, s: Slot, v: Value, key: Value)
    requires Found(t, key, s) && !s.NilObject? && SlotIn(t, s) && UniqueKeys(t) && UniqueKeys(Stored(t, s, v))
    ensures Updated(t, Stored(t, s, v), key, v)
  {
    var t' := Stored(t, s, v);
    forall k ensures Val(t', k) == if k == key then v else Val(t, k) {
      if k != Nil {
        assert forall i :: Entry(t', i, k) <==> Entry(t, i, k);
        if InArray(t, k) {
          if s.ArraySlot? && ArrayIndex(k) == ArrayIndex(key) { KeyOfInt(key, k); }
        } else if i :| Entry(t, i, k) {
          ValEntry(t, i, k);
          ValEntry(t', i, k);
        } else {
          ValNone(t, k);
          ValNone(t', k);
        }
      }
    }
  }

  lemma FreshOk(hash: Value -> nat, t: Tab, path: seq<seq<int>>)
    requires 0 < |t.node| <= MAXASIZE && |t.arr| <= MAXASIZE && path == seq(|t.node|, i => [i])
    requires forall i :: 0 <= i < |t.node| ==> t.node[i] == FreeNode
    requires t.lastfree == if t.dummy then 0 else |t.node|
    requires t.dummy ==> |t.node| == 1
    ensures TableOk(hash, t, path)
  {
    assert t.dummy ==> t.node == [FreeNode];
  }

  lemma EntryOnPath(hash: Value -> nat, t: Tab, path: seq<seq<int>>, i: int, key: Value)
    requires TableOk(hash, t, path) && key != Nil && Entry(t, i, key)
    ensures var h := MainPosition(hash, |t.node|, key); exists a :: 0 <= a < |path[h]| && path[h][a] == i
  {
    assert Used(t, i) && HomeOk(hash, t, path, i);
    OnAt(path[Home(hash, t, i)], i);
  }

  /** Keys and links are the same; values differ, or keys have died. */
  ghost predicate KeysKept(t: Tab, t': Tab) {
    && |t'.node| == |t.node| && |t'.arr| == |t.arr|
    && (forall i :: 0 <= i < |t.node| ==>
          t'.node[i].key == t.node[i].key && t'.node[i].next == t.node[i].next && (t.node[i].dead ==> t'.node[i].dead))
  }

  lemma StructureKept(hash: Value -> nat, t: Tab, t': Tab, path: seq<seq<int>>)
    requires TableOk(hash, t, path) && KeysKept(t, t')
    ensures PathsOk(t'.node, path) && OnePredecessor(t') && HomesOk(hash, t', path) && UniqueKeys(t') && AliveFirst(t', path) && PartsApart(t')
  {
    forall p | 0 <= p < |t'.node| ensures PathAt(t'.node, path, p) { assert PathAt(t.node, path, p); }
    forall i | Used(t', i) ensures HomeOk(hash, t', path, i) { assert Used(t, i) && HomeOk(hash, t, path, i); }
    forall i, j | Used(t', i) && Entry(t', i, t'.node[i].key) && Entry(t', j, t'.node[i].key) ensures i == j {
      assert Used(t, i) && Entry(t, i, t.node[i].key) && Entry(t, j, t.node[i].key);
    }
    forall i, j | Used(t', i) && !t'.node[i].dead && Used(t', j) && t'.node[j].key == t'.node[i].key ensures OnPath(path, i, j) {
      assert Used(t, i) && Used(t, j);
    }
    forall p, i | Links(t'.node, p, i) && i != NONE ensures Used(t', i) { assert Links(t.node, p, i) && Used(t, i); }
    forall p, q, i | Links(t'.node, p, i) && Links(t'.node, q, i) && i != NONE ensures p == q {
      assert Links(t.node, p, i) && Links(t.node, q, i);
    }
    forall i | Used(t', i) ensures !InArray(t', t'.node[i].key) { assert Used(t, i); }
  }

  /** `lastfree` may be lowered past nodes in use. */
  lemma LowerFree(hash: Value -> nat, t: Tab, path: seq<seq<int>>, lastfree: int)
    requires TableOk(hash, t, path) && lastfree <= t.lastfree && (!t.dummy ==> FreeBelow(t, lastfree + 1))
    requires lastfree < 0 || (t.dummy || (lastfree < |t.node| && t.node[lastfree].key != Nil))
    ensures TableOk(hash, t.(lastfree := lastfree), path) && Same(t, t.(lastfree := lastfree))
    ensures lastfree < 0 ==> Capacity(t) == 0
  {
    var t' := t.(lastfree := lastfree);
    StructureKept(hash, t, t', path);
    forall i | 0 <= i < |t.node| ensures FreeOk(t', i) { assert FreeOk(t, i); }
    SameEntries(t, t', i => i, i => i);
    FreeExists(t.node);
  }

  lemma SameTwice(a: Tab, b: Tab, c: Tab)
    requires Same(a, b) && Same(b, c)
    ensures Same(a, c)
  {
    forall k ensures Val(c, k) == Val(a, k) { assert Val(b, k) == Val(a, k); }
  }

  lemma AbsentLowered(t: Tab, t': Tab, key: Value)
    requires Absent(t, key) && t' == t.(lastfree := t'.lastfree)
    ensures Absent(t', key)
  {
    forall i ensures !Entry(t', i, key) { AbsentAt(t, key, i); }
  }

  /** `key` has got node `i` in `t'`, and at most one free node was taken for it. */
  ghost predicate Inserted(hash: Value -> nat, t: Tab, t': Tab, path': seq<seq<int>>, i: int, key: Value) {
    && TableOk(hash, t', path') && Same(t, t') && Found(t', key, NodeSlot(i))
    && t'.arr == t.arr && (Capacity(t) > 0 ==> Capacity(t') >= Capacity(t) - 1)
  }

  lemma InPlaceDone(hash: Value -> nat, t: Tab, path: seq<seq<int>>, mp: int, key: Value)
    requires TableOk(hash, t, path) && Absent(t, key) && !t.dummy && mp == MainPosition(hash, |t.node|, key) && t.node[mp].val == Nil
    ensures Inserted(hash, t, InPlace(t, mp, key), path, mp, key)
  {
    hide TableOk, Same;
    InPlaceOk(hash, t, path, mp, key);
    FreeSet(t.node, mp, t.node[mp].(key := key, dead := false));
  }

  lemma ChainedDone(hash: Value -> nat, t: Tab, t1: Tab, path: seq<seq<int>>, mp: int, n: int, key: Value)
    requires TableOk(hash, t, path) && Absent(t, key) && !t.dummy
    requires mp == MainPosition(hash, |t.node|, key) && Used(t, mp) && Home(hash, t, mp) == mp && t.node[mp].val != Nil
    requires t1 == t.(lastfree := n) && 0 <= n < |t.node| && t.node[n].key == Nil && FreeBelow(t1, n + 1) && n <= t.lastfree
    ensures Inserted(hash, t, Chained(t1, mp, n, key), ChainedPath(t, path, mp, n), n, key)
  {
    hide TableOk, Same;
    TableParts(hash, t, path);
    var t' := Chained(t, mp, n, key);
    var path' := ChainedPath(t, path, mp, n);
    ChainedOk(hash, t, path, mp, n, key);
    var x := Node(key, false, Nil, t.node[mp].next);
    FreeSet(t.node, n, x);
    FreeSet(t.node[n := x], mp, t.node[mp].(next := n));
    LowerFree(hash, t', path', n);
    SameTwice(t, t', t'.(lastfree := n));
    LoweredFound(t', n, key);
  }

  lemma LoweredFound(t: Tab, lastfree: int, key: Value)
    ensures forall i :: Entry(t, i, key) ==> Entry(t.(lastfree := lastfree), i, key)
  {
  }

  lemma MovedDone(hash: Value -> nat, t: Tab, t1: Tab, path: seq<seq<int>>, mp: int, n: int, prev: int, key: Value)
    requires TableOk(hash, t, path) && Absent(t, key) && !t.dummy
    requires mp == MainPosition(hash, |t.node|, key) && Used(t, mp) && Home(hash, t, mp) != mp && t.node[mp].val != Nil
    requires t1 == t.(lastfree := n) && 0 <= n < |t.node| && t.node[n].key == Nil && FreeBelow(t1, n + 1) && n <= t.lastfree
    requires Links(t.node, prev, mp) && prev != mp && prev != n
    ensures Inserted(hash, t, Moved(t1, mp, n, prev, key), MovedPath(t, path, mp, n), mp, key)
  {
    hide TableOk, Same;
    TableParts(hash, t, path);
    var t' := Moved(t, mp, n, prev, key);
    var path' := MovedPath(t, path, mp, n);
    MovedOk(hash, t, path, mp, n, prev, key);
    var c1 := t.node[n := t.node[mp]];
    FreeSet(t.node, n, t.node[mp]);
    var c2 := c1[mp := Node(key, false, Nil, NONE)];
    FreeSet(c1, mp, Node(key, false, Nil, NONE));
    FreeSet(c2, prev, t.node[prev].(next := n));
    LowerFree(hash, t', path', n);
    SameTwice(t, t', t'.(lastfree := n));
    LoweredFound(t', n, key);
  }
}
