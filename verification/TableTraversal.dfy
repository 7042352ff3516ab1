/** The order in which `luaH_next` visits a table (ltable.c:131-179), and what a traversal sees. */
module TableTraversal {
  import opened Wrappers
  import opened LuaTable

  /** The places of a table in the order of traversal. */
  function Size(t: Tab): nat { |t.arr| + |t.node| }

  function KeyAt(t: Tab, i: int): Value
    requires 0 <= i < Size(t)
  {
    if i < |t.arr| then IntKey(i + 1) else t.node[i - |t.arr|].key
  }

  function ValueAt(t: Tab, i: int): Value {
    if i < 0 || i >= Size(t) then Nil else if i < |t.arr| then t.arr[i] else t.node[i - |t.arr|].val
  }

  // ----- the place of a key -----

  /** Node `p` has the key, dead or alive. */
  predicate KeyNode(t: Tab, key: Value, p: int) {
    0 <= p < |t.node| && t.node[p].key == key
  }

  /** The place of a key: nil stands before the first place; a key with several nodes has the first
      on their chain. */
  ghost predicate PlaceOf(t: Tab, path: seq<seq<int>>, key: Value, i: int) {
    if key == Nil then i == -1
    else if InArray(t, key) then i == ArrayIndex(key) - 1
    else KeyNode(t, key, i - |t.arr|) && forall q :: KeyNode(t, key, q) ==> OnPath(path, i - |t.arr|, q)
  }

  lemma PlaceBounds(t: Tab, path: seq<seq<int>>, key: Value, i: int)
    requires PlaceOf(t, path, key, i)
    ensures -1 <= i < Size(t) && (key != Nil ==> i >= 0)
    ensures key == Nil || InArray(t, key) || KeyNode(t, key, i - |t.arr|)
  {
  }

  lemma PathOrder(node: seq<Node>, path: seq<seq<int>>, p: int, q: int)
    requires PathsOk(node, path) && OnPath(path, p, q) && OnPath(path, q, p)
    ensures p == q
  {
    OnAt(path[p], q);
    OnAt(path[q], p);
    var a :| 0 <= a < |path[p]| && path[p][a] == q;
    var b :| 0 <= b < |path[q]| && path[q][b] == p;
    PathSuffix(node, path, p, a);
    PathSuffix(node, path, q, b);
    PathNonempty(node, path, p);
    PathDistinct(node, path, p, 0, a);
  }

  lemma PlaceUnique(hash: Value -> nat, t: Tab, path: seq<seq<int>>, key: Value, i: int, j: int)
    requires TableOk(hash, t, path) && PlaceOf(t, path, key, i) && PlaceOf(t, path, key, j)
    ensures i == j
  {
    if key != Nil && !InArray(t, key) { PathOrder(t.node, path, i - |t.arr|, j - |t.arr|); }
  }

  /** The first node with the key on the path from its main position is its place. */
  lemma FirstOnPath(hash: Value -> nat, t: Tab, path: seq<seq<int>>, a: nat, key: Value)
    requires TableOk(hash, t, path) && key != Nil && !InArray(t, key)
    requires var h := MainPosition(hash, |t.node|, key);
             a < |path[h]| && KeyNode(t, key, path[h][a]) && forall b :: 0 <= b < a ==> !KeyNode(t, key, path[h][b])
    ensures PlaceOf(t, path, key, path[MainPosition(hash, |t.node|, key)][a] + |t.arr|)
  {
    var h := MainPosition(hash, |t.node|, key);
    var p := path[h][a];
    PathSuffix(t.node, path, h, a);
    forall q | KeyNode(t, key, q) ensures OnPath(path, p, q) {
      KeyOnPath(hash, t, path, q, key);
      var c :| 0 <= c < |path[h]| && path[h][c] == q;
      assert path[h][a..][c - a] == q;
      AtOn(path[p], c - a);
    }
  }

  lemma KeyOnPath(hash: Value -> nat, t: Tab, path: seq<seq<int>>, q: int, key: Value)
    requires TableOk(hash, t, path) && key != Nil && KeyNode(t, key, q)
    ensures var h := MainPosition(hash, |t.node|, key); exists a :: 0 <= a < |path[h]| && path[h][a] == q
  {
    assert Used(t, q) && HomeOk(hash, t, path, q);
    OnAt(path[Home(hash, t, q)], q);
  }

  /** An entry with a value is at the place of its key. */
  lemma LivingPlace(hash: Value -> nat, t: Tab, path: seq<seq<int>>, m: int)
    requires TableOk(hash, t, path) && ValueAt(t, m) != Nil
    ensures 0 <= m < Size(t) && KeyAt(t, m) != Nil && PlaceOf(t, path, KeyAt(t, m), m) && Val(t, KeyAt(t, m)) == ValueAt(t, m)
  {
    if m >= |t.arr| {
      var p := m - |t.arr|;
      var key := t.node[p].key;
      assert FreeOk(t, p) && Used(t, p) && !InArray(t, key) && Entry(t, p, key);
      ValEntry(t, p, key);
      forall q | KeyNode(t, key, q) ensures OnPath(path, p, q) { assert Used(t, q); }
    }
  }

  /** Where a key with a value is. */
  lemma PlaceOfValue(t: Tab, key: Value) returns (m: int)
    requires Val(t, key) != Nil && |t.arr| <= MAXASIZE
    ensures 0 <= m < Size(t) && KeyAt(t, m) == key && ValueAt(t, m) != Nil
  {
    if InArray(t, key) {
      m := ArrayIndex(key) - 1;
    } else {
      var i :| Entry(t, i, key) && t.node[i].val == Val(t, key);
      m := i + |t.arr|;
    }
  }

  // ----- the next entry -----

  /** The first entry with a value behind place `i`. */
  ghost predicate NextEntry(t: Tab, i: int, r: Option<(Value, Value)>) {
    match r
    case None => forall m :: m > i ==> ValueAt(t, m) == Nil
    case Some((k, v)) => exists m :: NextAt(t, i, m) && KeyAt(t, m) == k && ValueAt(t, m) == v
  }

  ghost predicate NextAt(t: Tab, i: int, m: int) {
    0 <= m && i < m < Size(t) && ValueAt(t, m) != Nil && forall m' :: i < m' < m ==> ValueAt(t, m') == Nil
  }

  /** What `next` gives, found from the place `i` of the key. */
  lemma NextPlace(hash: Value -> nat, t: Tab, path: seq<seq<int>>, key: Value, i: int, r: Option<(Value, Value)>) returns (m: int)
    requires TableOk(hash, t, path) && PlaceOf(t, path, key, i) && exists i' :: PlaceOf(t, path, key, i') && NextEntry(t, i', r)
    ensures NextEntry(t, i, r)
    ensures r.Some? ==>
              NextAt(t, i, m) && KeyAt(t, m) == r.value.0 != Nil && PlaceOf(t, path, r.value.0, m) && Val(t, r.value.0) == r.value.1 != Nil
  {
    var i' :| PlaceOf(t, path, key, i') && NextEntry(t, i', r);
    PlaceUnique(hash, t, path, key, i, i');
    m := 0;
    if r.Some? {
      m :| NextAt(t, i, m) && KeyAt(t, m) == r.value.0 && ValueAt(t, m) == r.value.1;
      LivingPlace(hash, t, path, m);
    }
  }

  // ----- changes during a traversal -----

  /** What may happen to a table between two calls of `next`: values are overwritten or cleared, and
      keys die, but no key is added. */
  ghost predicate Pruned(t: Tab, t': Tab) {
    && |t'.arr| == |t.arr| && |t'.node| == |t.node|
    && (forall i :: 0 <= i < |t.node| ==> t'.node[i].key == t.node[i].key)
    && (forall i :: ValueAt(t, i) == Nil ==> ValueAt(t', i) == Nil)
  }

  lemma PrunedSelf(t: Tab)
    ensures Pruned(t, t)
  {
  }

  lemma PrunedSize(t: Tab, t': Tab)
    requires Pruned(t, t')
    ensures Size(t') == Size(t)
  {
  }

  lemma PrunedTwice(a: Tab, b: Tab, c: Tab)
    requires Pruned(a, b) && Pruned(b, c)
    ensures Pruned(a, c) && Size(c) == Size(a)
  {
  }

  lemma PlaceKept(t: Tab, t': Tab, path: seq<seq<int>>, key: Value, i: int)
    requires Pruned(t, t')
    ensures PlaceOf(t', path, key, i) <==> PlaceOf(t, path, key, i)
    ensures 0 <= i < Size(t) ==> i < Size(t') && KeyAt(t', i) == KeyAt(t, i)
  {
    forall q ensures KeyNode(t', key, q) == KeyNode(t, key, q) { }
  }

  // ----- runs of next -----

  ghost predicate StepFrom(t: Tab, path: seq<seq<int>>, key: Value, r: Option<(Value, Value)>) {
    exists i :: PlaceOf(t, path, key, i) && NextEntry(t, i, r)
  }

  ghost predicate StepTo(t: Tab, path: seq<seq<int>>, key: Value, key': Value) {
    key' != Nil && exists v :: StepFrom(t, path, key, Some((key', v)))
  }

  /** A traversal: `keys[j]` is what `next` gave for `keys[j - 1]` in the table as it then was, and the
      last call gave nothing. */
  ghost predicate Traversal(hash: Value -> nat, ts: seq<Tab>, path: seq<seq<int>>, keys: seq<Value>) {
    && |ts| == |keys| > 0 && keys[0] == Nil
    && (forall j :: 0 <= j < |ts| ==> TableOk(hash, ts[j], path))
    && (forall j, k :: 0 <= j && k == j + 1 && k < |ts| ==> Pruned(ts[j], ts[k]) && StepTo(ts[j], path, keys[j], keys[k]))
    && StepFrom(ts[|ts| - 1], path, keys[|keys| - 1], None)
  }

  /** `at[j]` is the place of `keys[j]`. */
  ghost predicate Followed(ts: seq<Tab>, path: seq<seq<int>>, keys: seq<Value>, at: seq<int>) {
    && 0 < |at| <= |ts| == |keys| && at[0] == -1
    && (forall j :: 0 <= j < |at| ==> PlaceOf(ts[j], path, keys[j], at[j]))
    && (forall j, k :: 0 <= j && k == j + 1 && k < |at| ==> NextAt(ts[j], at[j], at[k]) && PlaceOf(ts[j], path, keys[k], at[k]))
  }

  lemma {:induction false} Follow(hash: Value -> nat, ts: seq<Tab>, path: seq<seq<int>>, keys: seq<Value>, n: nat) returns (at: seq<int>)
    requires Traversal(hash, ts, path, keys) && 0 < n <= |ts|
    ensures Followed(ts, path, keys, at) && |at| == n
  {
    if n == 1 {
      at := [-1];
    } else {
      hide PlaceOf, NextAt, Pruned, StepFrom, TableOk, NextEntry;
      var before := Follow(hash, ts, path, keys, n - 1);
      var j, k := n - 2, n - 1;
      assert k == j + 1 && StepTo(ts[j], path, keys[j], keys[k]) && Pruned(ts[j], ts[k]);
      var v :| StepFrom(ts[j], path, keys[j], Some((keys[k], v)));
      var m := NextPlace(hash, ts[j], path, keys[j], before[j], Some((keys[k], v)));
      PlaceKept(ts[j], ts[k], path, keys[k], m);
      at := before + [m];
      FollowedMore(ts, path, keys, before, m);
    }
  }

  lemma FollowedMore(ts: seq<Tab>, path: seq<seq<int>>, keys: seq<Value>, at: seq<int>, m: int)
    requires Followed(ts, path, keys, at) && |at| < |ts|
    requires NextAt(ts[|at| - 1], at[|at| - 1], m) && PlaceOf(ts[|at| - 1], path, keys[|at|], m) && PlaceOf(ts[|at|], path, keys[|at|], m)
    ensures Followed(ts, path, keys, at + [m])
  {
    hide PlaceOf, NextAt;
    var at' := at + [m];
    forall j, k | 0 <= j && k == j + 1 && k < |at'|
      ensures NextAt(ts[j], at'[j], at'[k]) && PlaceOf(ts[j], path, keys[k], at'[k])
    {
      if k < |at| { assert NextAt(ts[j], at[j], at[k]); }
    }
  }

  lemma {:induction false} PrunedSince(hash: Value -> nat, ts: seq<Tab>, path: seq<seq<int>>, keys: seq<Value>, j: nat, k: nat)
    requires Traversal(hash, ts, path, keys) && j <= k < |ts|
    ensures Pruned(ts[j], ts[k])
    decreases k
  {
    if j < k {
      PrunedSince(hash, ts, path, keys, j, k - 1);
      var i := k - 1;
      assert k == i + 1 && Pruned(ts[i], ts[k]);
      PrunedTwice(ts[j], ts[i], ts[k]);
    } else {
      PrunedSelf(ts[j]);
    }
  }

  lemma {:induction false} PlacesRise(ts: seq<Tab>, path: seq<seq<int>>, keys: seq<Value>, at: seq<int>, a: nat, b: nat)
    requires Followed(ts, path, keys, at) && a < b < |at|
    ensures at[a] < at[b]
    decreases b
  {
    var i := b - 1;
    assert b == i + 1 && NextAt(ts[i], at[i], at[b]);
    if a < i { PlacesRise(ts, path, keys, at, a, i); }
  }

  /** A place with a value in the end has been passed only by a visit. */
  lemma {:induction false} Passed(hash: Value -> nat, ts: seq<Tab>, path: seq<seq<int>>, keys: seq<Value>, at: seq<int>, j: nat, m: int)
    returns (v: nat)
    requires Traversal(hash, ts, path, keys) && Followed(ts, path, keys, at) && j < |at| == |ts|
    requires 0 <= m <= at[j] && ValueAt(ts[|ts| - 1], m) != Nil
    ensures 0 < v <= j && at[v] == m
    decreases j
  {
    var i := j - 1;
    assert j == i + 1 && NextAt(ts[i], at[i], at[j]);
    if m <= at[i] {
      v := Passed(hash, ts, path, keys, at, i, m);
    } else {
      PrunedSince(hash, ts, path, keys, i, |ts| - 1);
      v := j;
    }
  }

  /** `key` has a value when the traversal ends. */
  ghost predicate StillThere(ts: seq<Tab>, key: Value) {
    ts != [] && Val(ts[|ts| - 1], key) != Nil
  }

  predicate Among(keys: seq<Value>, key: Value) { exists j :: 0 <= j < |keys| && keys[j] == key }

  /** Every entry that is there to the end is visited, and no key is visited twice. */
  lemma TraversalExact(hash: Value -> nat, ts: seq<Tab>, path: seq<seq<int>>, keys: seq<Value>)
    requires Traversal(hash, ts, path, keys)
    ensures forall key :: StillThere(ts, key) ==> Among(keys, key)
    ensures forall a, b :: 0 <= a < b < |keys| ==> keys[a] != keys[b]
  {
    var at := Follow(hash, ts, path, keys, |ts|);
    forall key | StillThere(ts, key) ensures Among(keys, key) { var _ := VisitOf(hash, ts, path, keys, at, key); }
    forall a, b | 0 <= a < b < |keys| ensures keys[a] != keys[b] { VisitsApart(hash, ts, path, keys, at, a, b); }
  }

  lemma VisitOf(hash: Value -> nat, ts: seq<Tab>, path: seq<seq<int>>, keys: seq<Value>, at: seq<int>, key: Value) returns (v: nat)
    requires Traversal(hash, ts, path, keys) && Followed(ts, path, keys, at) && |at| == |ts| && StillThere(ts, key)
    ensures v < |keys| && keys[v] == key
  {
    var last := |ts| - 1;
    var m := PlaceOfValue(ts[last], key);
    LivingPlace(hash, ts[last], path, m);
    var _ := NextPlace(hash, ts[last], path, keys[last], at[last], None);
    v := Passed(hash, ts, path, keys, at, last, m);
    PrunedSince(hash, ts, path, keys, v, last);
    PlaceKept(ts[v], ts[last], path, keys[v], m);
    PlaceKey(ts[last], path, keys[v], m);
  }

  /** The key of a place that is the place of a key. */
  lemma PlaceKey(t: Tab, path: seq<seq<int>>, key: Value, m: int)
    requires PlaceOf(t, path, key, m) && m >= 0
    ensures m < Size(t) && KeyAt(t, m) == key
  {
  }

  lemma VisitsApart(hash: Value -> nat, ts: seq<Tab>, path: seq<seq<int>>, keys: seq<Value>, at: seq<int>, a: nat, b: nat)
    requires Traversal(hash, ts, path, keys) && Followed(ts, path, keys, at) && a < b < |at| == |ts|
    ensures keys[a] != keys[b]
  {
    PlacesRise(ts, path, keys, at, a, b);
    PrunedSince(hash, ts, path, keys, a, b);
    PlaceKept(ts[a], ts[b], path, keys[a], at[a]);
    if keys[a] == keys[b] { PlaceUnique(hash, ts[b], path, keys[a], at[a], at[b]); }
  }

  // ----- a traversal under way -----

  /** Every place up to `at` that has a value has been visited. */
  ghost predicate SeenUpTo(t: Tab, keys: seq<Value>, at: int) {
    forall m :: 0 <= m <= at && ValueAt(t, m) != Nil ==> Among(keys, KeyAt(t, m))
  }

  /** The visited keys and their places, in ascending order, in the table `t0` of the beginning. */
  ghost predicate Visits(t0: Tab, path: seq<seq<int>>, keys: seq<Value>, places: seq<int>, at: int) {
    && |places| == |keys|
    && (forall j :: 0 <= j < |keys| ==>
          places[j] <= at && PlaceOf(t0, path, keys[j], places[j]) && keys[j] != Nil && Val(t0, keys[j]) != Nil)
    && (forall i, j :: 0 <= i < j < |places| ==> places[i] < places[j])
  }

  lemma AmongMore(keys: seq<Value>, k: Value, key: Value)
    ensures Among(keys + [k], key) <==> Among(keys, key) || key == k
  {
    if Among(keys, key) {
      var j :| 0 <= j < |keys| && keys[j] == key;
      assert (keys + [k])[j] == key;
    }
    assert (keys + [k])[|keys|] == k;
  }

  lemma VisitOne(hash: Value -> nat, t0: Tab, t: Tab, path: seq<seq<int>>, keys: seq<Value>, places: seq<int>, at: int, k: Value, m: int)
    requires TableOk(hash, t0, path) && Pruned(t0, t) && SeenUpTo(t, keys, at) && Visits(t0, path, keys, places, at)
    requires NextAt(t, at, m) && KeyAt(t, m) == k
    ensures SeenUpTo(t, keys + [k], m) && Visits(t0, path, keys + [k], places + [m], m)
  {
    assert ValueAt(t0, m) != Nil;
    LivingPlace(hash, t0, path, m);
    PlaceKept(t0, t, path, k, m);
    forall m' | 0 <= m' <= m && ValueAt(t, m') != Nil ensures Among(keys + [k], KeyAt(t, m')) { AmongMore(keys, k, KeyAt(t, m')); }
  }

  lemma SeenKept(t: Tab, t': Tab, keys: seq<Value>, at: int)
    requires Pruned(t, t') && SeenUpTo(t, keys, at)
    ensures SeenUpTo(t', keys, at)
  {
    forall m | 0 <= m <= at && ValueAt(t', m) != Nil ensures Among(keys, KeyAt(t', m)) { assert ValueAt(t, m) != Nil; }
  }

  lemma AllSeen(hash: Value -> nat, t: Tab, path: seq<seq<int>>, keys: seq<Value>, key: Value, at: int)
    requires TableOk(hash, t, path) && SeenUpTo(t, keys, at) && NextEntry(t, at, None)
    ensures forall k :: Val(t, k) != Nil ==> Among(keys, k)
  {
    forall k | Val(t, k) != Nil ensures Among(keys, k) {
      var m := PlaceOfValue(t, k);
    }
  }

  lemma VisitsDistinct(hash: Value -> nat, t0: Tab, path: seq<seq<int>>, keys: seq<Value>, places: seq<int>, at: int)
    requires TableOk(hash, t0, path) && Visits(t0, path, keys, places, at)
    ensures forall a, b :: 0 <= a < b < |keys| ==> keys[a] != keys[b]
    ensures forall j :: 0 <= j < |keys| ==> Val(t0, keys[j]) != Nil
  {
    forall a, b | 0 <= a < b < |keys| ensures keys[a] != keys[b] {
      if keys[a] == keys[b] { PlaceUnique(hash, t0, path, keys[a], places[a], places[b]); }
    }
  }
}
