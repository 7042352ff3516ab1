/** Lua tables: an array part and a chained scatter table with Brent's variation (ltable.c), as one
    map from keys to values. */
module LuaTable {
  import opened Wrappers

  datatype Value = Nil | Bool(b: bool) | Number(n: real) | String(id: int) | Object(id: int)

  /** `dead` marks a key whose object was collected (LUA_TDEADKEY); the key is still there for
      traversals, but equals nothing. `next` is an index or NONE. */
  datatype Node = Node(key: Value, dead: bool, val: Value, next: int)

  const NONE := -1

  /** `dummy` says that the hash part is the shared empty node. */
  datatype Tab = Tab(arr: seq<Value>, node: seq<Node>, lastfree: int, dummy: bool)

  const MAXBITS := 26
  const MAXASIZE := 67108864
  const INT_MAX := 2147483647
  const INT_MIN := -2147483648

  // ----- keys -----

  /** The integer that a number key is, or -1 (`arrayindex`). */
  function ArrayIndex(key: Value): int {
    if key.Number? && (key.n.Floor as real) == key.n && INT_MIN <= key.n.Floor <= INT_MAX then key.n.Floor else -1
  }

  function IntKey(k: int): Value { Number(k as real) }

  /** `(size - 1) | 1` for a power of two. */
  function Modulus(size: nat): nat
    requires size > 0
  {
    if size == 1 then 1 else size - 1
  }

  /** `mainposition`, for any hash function. */
  function MainPosition(hash: Value -> nat, size: nat, key: Value): (p: nat)
    requires size > 0
    ensures p < size
  {
    match key
    case Number(n) => if n == 0.0 then 0 else hash(key) % Modulus(size)
    case String(_) => hash(key) % size
    case Bool(_) => hash(key) % size
    case _ => hash(key) % Modulus(size)
  }

  predicate InArray(t: Tab, key: Value) {
    1 <= ArrayIndex(key) <= |t.arr|
  }

  // ----- contents -----

  /** Node `i` is the node of `key`. */
  predicate Entry(t: Tab, i: int, key: Value) {
    0 <= i < |t.node| && t.node[i].key == key && !t.node[i].dead
  }

  /** The value of a key: what the table is as a map. */
  ghost function Val(t: Tab, key: Value): Value {
    if key == Nil then Nil
    else if InArray(t, key) then t.arr[ArrayIndex(key) - 1]
    else if exists i :: Entry(t, i, key) then (var i :| Entry(t, i, key); t.node[i].val)
    else Nil
  }

  /** Equal as maps. */
  ghost predicate Same(t: Tab, t': Tab) {
    forall k :: Val(t', k) == Val(t, k)
  }

  // ----- the invariant -----

  predicate Used(t: Tab, i: int) {
    0 <= i < |t.node| && t.node[i].key != Nil
  }

  function Home(hash: Value -> nat, t: Tab, i: int): nat
    requires 0 <= i < |t.node|
  {
    MainPosition(hash, |t.node|, t.node[i].key)
  }

  /** `path[p]` are the nodes from `p` on along `next`. */
  ghost predicate PathAt(node: seq<Node>, path: seq<seq<int>>, p: int)
    requires |path| == |node| && 0 <= p < |node|
  {
    var j := node[p].next;
    if j == NONE then path[p] == [p] else 0 <= j < |node| && path[p] == [p] + path[j]
  }

  ghost predicate PathsOk(node: seq<Node>, path: seq<seq<int>>) {
    |path| == |node| && forall p :: 0 <= p < |node| ==> PathAt(node, path, p)
  }

  predicate Links(node: seq<Node>, p: int, i: int) {
    0 <= p < |node| && node[p].next == i
  }

  /** Each node has at most one predecessor, a free node none. */
  ghost predicate OnePredecessor(t: Tab) {
    && (forall p, q, i :: Links(t.node, p, i) && Links(t.node, q, i) && i != NONE ==> p == q)
    && (forall p, i :: Links(t.node, p, i) && i != NONE ==> Used(t, i))
  }

  predicate OnPath(path: seq<seq<int>>, h: int, i: int) {
    0 <= h < |path| && On(path[h], i)
  }

  /** A key is found from its main position, where some key with that main position sits. */
  ghost predicate HomeOk(hash: Value -> nat, t: Tab, path: seq<seq<int>>, i: int)
    requires 0 <= i < |t.node|
  {
    var h := Home(hash, t, i);
    OnPath(path, h, i) && Used(t, h) && Home(hash, t, h) == h
  }

  predicate FreeOk(t: Tab, i: int)
    requires 0 <= i < |t.node|
  {
    if t.node[i].key == Nil then t.node[i] == Node(Nil, false, Nil, NONE)
    else t.node[i].dead ==> t.node[i].val == Nil
  }

  ghost predicate NodesOk(t: Tab) {
    forall i :: 0 <= i < |t.node| ==> FreeOk(t, i)
  }

  ghost predicate HomesOk(hash: Value -> nat, t: Tab, path: seq<seq<int>>) {
    forall i :: Used(t, i) ==> HomeOk(hash, t, path, i)
  }

  ghost predicate UniqueKeys(t: Tab) {
    forall i, j :: Used(t, i) && Entry(t, i, t.node[i].key) && Entry(t, j, t.node[i].key) ==> i == j
  }

  /** No free node lies at or above `lim`. */
  ghost predicate FreeBelow(t: Tab, lim: int) {
    forall i :: 0 <= i < |t.node| && t.node[i].key == Nil ==> i < lim
  }

  /** The hash part holds no key that belongs in the array part. */
  ghost predicate PartsApart(t: Tab) {
    forall i :: Used(t, i) ==> !InArray(t, t.node[i].key)
  }

  /** Of the nodes with the same key, dead ones all but one, the living one comes first on the path. */
  ghost predicate AliveFirst(t: Tab, path: seq<seq<int>>) {
    forall i, j :: Used(t, i) && !t.node[i].dead && Used(t, j) && t.node[j].key == t.node[i].key ==> OnPath(path, i, j)
  }

  ghost predicate Shape(t: Tab) {
    && 0 < |t.node| <= MAXASIZE && |t.arr| <= MAXASIZE
    && (t.dummy ==> t.node == [Node(Nil, false, Nil, NONE)])
    && (!t.dummy ==> FreeBelow(t, t.lastfree))
    && t.lastfree <= |t.node| && (t.dummy ==> t.lastfree <= 0)
  }

  ghost predicate TableOk(hash: Value -> nat, t: Tab, path: seq<seq<int>>) {
    && Shape(t)
    && PathsOk(t.node, path)
    && OnePredecessor(t)
    && NodesOk(t)
    && HomesOk(hash, t, path)
    && UniqueKeys(t)
    && AliveFirst(t, path)
    && PartsApart(t)
  }

  // ----- values -----

  lemma ValEntry(t: Tab, i: int, key: Value)
    requires UniqueKeys(t) && key != Nil && Entry(t, i, key) && !InArray(t, key)
    ensures Val(t, key) == t.node[i].val
  {
    assert Used(t, i);
  }

  lemma ValNone(t: Tab, key: Value)
    requires !InArray(t, key) && forall i :: !Entry(t, i, key)
    ensures Val(t, key) == Nil
  {
  }

  // ----- paths -----

  lemma {:induction false} PathSuffix(node: seq<Node>, path: seq<seq<int>>, p: int, a: nat)
    requires PathsOk(node, path) && 0 <= p < |node| && a < |path[p]|
    ensures 0 <= path[p][a] < |node| && path[path[p][a]] == path[p][a..]
    decreases a
  {
    assert PathAt(node, path, p);
    if a > 0 {
      PathSuffix(node, path, node[p].next, a - 1);
      assert path[p][a..] == path[node[p].next][a - 1..];
    } else {
      assert path[p][0..] == path[p];
    }
  }

  /** A path visits a node once. */
  lemma PathDistinct(node: seq<Node>, path: seq<seq<int>>, p: int, a: nat, b: nat)
    requires PathsOk(node, path) && 0 <= p < |node| && a < |path[p]| && b < |path[p]| && path[p][a] == path[p][b]
    ensures a == b
  {
    PathSuffix(node, path, p, a);
    PathSuffix(node, path, p, b);
  }

  lemma PathNonempty(node: seq<Node>, path: seq<seq<int>>, p: int)
    requires PathsOk(node, path) && 0 <= p < |node|
    ensures |path[p]| > 0 && path[p][0] == p
  {
    assert PathAt(node, path, p);
  }

  /** The node after place `a` of a path is the next one on it. */
  lemma PathNext(node: seq<Node>, path: seq<seq<int>>, p: int, a: nat)
    requires PathsOk(node, path) && 0 <= p < |node| && a < |path[p]|
    ensures var q := path[p][a];
            0 <= q < |node| && node[q].next == if a + 1 < |path[p]| then path[p][a + 1] else NONE
  {
    PathSuffix(node, path, p, a);
    var q := path[p][a];
    assert PathAt(node, path, q);
    if node[q].next != NONE { PathNonempty(node, path, node[q].next); }
    if a + 1 < |path[p]| { assert path[p][a..][1] == path[p][a + 1]; }
  }

  /** A node is not on the path behind it. */
  lemma NotBehind(node: seq<Node>, path: seq<seq<int>>, m: int)
    requires PathsOk(node, path) && 0 <= m < |node| && node[m].next != NONE
    ensures 0 <= node[m].next < |node| && !On(path[node[m].next], m)
  {
    assert PathAt(node, path, m);
    var j := node[m].next;
    if On(path[j], m) {
      OnAt(path[j], m);
      var a :| 0 <= a < |path[j]| && path[j][a] == m;
      assert path[m][a + 1] == m;
      PathDistinct(node, path, m, 0, a + 1);
    }
  }

  function InsertAfter(l: seq<int>, m: int, n: int): seq<int> {
    if l == [] then [] else if l[0] == m then [m, n] + l[1..] else [l[0]] + InsertAfter(l[1..], m, n)
  }

  function Replace(l: seq<int>, m: int, n: int): seq<int> {
    if l == [] then [] else if l[0] == m then [n] + l[1..] else [l[0]] + Replace(l[1..], m, n)
  }

  lemma {:induction false} InsertAfterElems(l: seq<int>, m: int, n: int, i: int)
    ensures On(l, i) ==> On(InsertAfter(l, m, n), i)
    ensures On(l, m) ==> On(InsertAfter(l, m, n), n)
    ensures !On(l, m) ==> InsertAfter(l, m, n) == l
  {
    if l != [] {
      var x, rest := l[0], l[1..];
      assert l == [x] + rest;
      OnCons(x, rest, i);
      OnCons(x, rest, m);
      if x == m {
        assert InsertAfter(l, m, n) == [m] + ([n] + rest);
        OnCons(m, [n] + rest, i);
        OnCons(m, [n] + rest, n);
        OnCons(n, rest, i);
        OnCons(n, rest, n);
      } else {
        InsertAfterElems(rest, m, n, i);
        OnCons(x, InsertAfter(rest, m, n), i);
        OnCons(x, InsertAfter(rest, m, n), n);
      }
    }
  }

  lemma {:induction false} ReplaceElems(l: seq<int>, m: int, n: int, i: int)
    ensures On(l, i) && i != m ==> On(Replace(l, m, n), i)
    ensures On(l, m) ==> On(Replace(l, m, n), n)
    ensures !On(l, m) ==> Replace(l, m, n) == l
  {
    if l != [] {
      var x, rest := l[0], l[1..];
      assert l == [x] + rest;
      OnCons(x, rest, i);
      OnCons(x, rest, m);
      if x == m {
        OnCons(n, rest, i);
        OnCons(n, rest, n);
      } else {
        ReplaceElems(rest, m, n, i);
        OnCons(x, Replace(rest, m, n), i);
        OnCons(x, Replace(rest, m, n), n);
      }
    }
  }

  // ----- the three ways of placing a new key -----

  /** The main position has no value: the key is put there. */
  function InPlace(t: Tab, mp: int, key: Value): Tab
    requires 0 <= mp < |t.node|
  {
    t.(node := t.node[mp := t.node[mp].(key := key, dead := false)])
  }

  /** The main position is taken by a key that belongs there: the new key goes to free node `n`,
      chained behind it. */
  function Chained(t: Tab, mp: int, n: int, key: Value): Tab
    requires 0 <= mp < |t.node| && 0 <= n < |t.node|
  {
    t.(node := t.node[n := Node(key, false, Nil, t.node[mp].next)][mp := t.node[mp].(next := n)])
  }

  /** The main position is taken by a key that does not belong there: that one moves to `n`. */
  function Moved(t: Tab, mp: int, n: int, prev: int, key: Value): Tab
    requires 0 <= mp < |t.node| && 0 <= n < |t.node| && 0 <= prev < |t.node|
  {
    t.(node := t.node[n := t.node[mp]][mp := Node(key, false, Nil, NONE)][prev := t.node[prev].(next := n)])
  }

  function Tail(l: seq<int>): seq<int> { if l == [] then [] else l[1..] }

  ghost function ChainedPath(t: Tab, path: seq<seq<int>>, mp: int, n: int): seq<seq<int>>
    requires 0 <= mp < |path|
  {
    seq(|path|, p requires 0 <= p < |path| => if p == n then [n] + Tail(path[mp]) else InsertAfter(path[p], mp, n))
  }

  ghost function MovedPath(t: Tab, path: seq<seq<int>>, mp: int, n: int): seq<seq<int>>
    requires 0 <= mp < |path|
  {
    seq(|path|, p requires 0 <= p < |path| => if p == mp then [mp] else if p == n then [n] + Tail(path[mp]) else Replace(path[p], mp, n))
  }

  /** What placing `key` needs: it is not there, and belongs in the hash part. */
  ghost predicate Absent(t: Tab, key: Value) {
    key != Nil && !InArray(t, key) && forall i :: !Entry(t, i, key)
  }

  /** `key` now has node `i`, with no value yet, and nothing else has changed. */
  ghost predicate Placed(hash: Value -> nat, t: Tab, t': Tab, path': seq<seq<int>>, i: int, key: Value) {
    && TableOk(hash, t', path') && Same(t, t') && Entry(t', i, key) && t'.node[i].val == Nil
    && t'.arr == t.arr && |t'.node| == |t.node| && t'.dummy == t.dummy
  }

  lemma AbsentAt(t: Tab, key: Value, i: int)
    requires Absent(t, key)
    ensures !Entry(t, i, key)
  {
  }

  /** Tables whose nodes carry the same entries, `f` and `g` saying where, are the same map. */
  lemma SameEntries(t: Tab, t': Tab, f: int -> int, g: int -> int)
    requires UniqueKeys(t) && UniqueKeys(t') && t'.arr == t.arr
    requires forall i :: Used(t, i) && t.node[i].val != Nil && Entry(t, i, t.node[i].key) ==>
               Entry(t', f(i), t.node[i].key) && t'.node[f(i)].val == t.node[i].val
    requires forall i :: Used(t', i) && t'.node[i].val != Nil && Entry(t', i, t'.node[i].key) ==>
               Entry(t, g(i), t'.node[i].key) && t.node[g(i)].val == t'.node[i].val
    ensures Same(t, t')
  {
    forall k ensures Val(t', k) == Val(t, k) {
      if k != Nil && !InArray(t, k) {
        if i :| Entry(t, i, k) && t.node[i].val != Nil {
          assert Used(t, i);
          ValEntry(t, i, k);
          ValEntry(t', f(i), k);
        } else if i :| Entry(t', i, k) && t'.node[i].val != Nil {
          assert Used(t', i);
          ValEntry(t', i, k);
          ValEntry(t, g(i), k);
        }
      }
    }
  }

  lemma InPlaceOk(hash: Value -> nat, t: Tab, path: seq<seq<int>>, mp: int, key: Value)
    requires TableOk(hash, t, path) && Absent(t, key) && !t.dummy
    requires mp == MainPosition(hash, |t.node|, key) && t.node[mp].val == Nil
    ensures Placed(hash, t, InPlace(t, mp, key), path, mp, key)
  {
    var t' := InPlace(t, mp, key);
    InPlaceHomes(hash, t, path, mp, key);
    InPlaceAlive(hash, t, path, mp, key);
    forall p | 0 <= p < |t'.node| ensures PathAt(t'.node, path, p) { assert PathAt(t.node, path, p); }
    forall p, i | Links(t'.node, p, i) && i != NONE ensures Used(t', i) { assert Links(t.node, p, i) && Used(t, i); }
    forall p, q, i | Links(t'.node, p, i) && Links(t'.node, q, i) && i != NONE ensures p == q {
      assert Links(t.node, p, i) && Links(t.node, q, i);
    }
    forall i | 0 <= i < |t'.node| ensures FreeOk(t', i) { assert FreeOk(t, i); }
    forall i, j | Used(t', i) && Entry(t', i, t'.node[i].key) && Entry(t', j, t'.node[i].key) ensures i == j {
      AbsentAt(t, key, i);
      AbsentAt(t, key, j);
      assert i != mp ==> Used(t, i) && Entry(t, i, t.node[i].key);
      assert j != mp ==> Entry(t, j, t'.node[i].key);
    }
    forall i | Used(t', i) ensures !InArray(t', t'.node[i].key) { assert i != mp ==> Used(t, i); }
    SameEntries(t, t', i => i, i => i);
  }

  lemma InPlaceHomes(hash: Value -> nat, t: Tab, path: seq<seq<int>>, mp: int, key: Value)
    requires TableOk(hash, t, path) && key != Nil && mp == MainPosition(hash, |t.node|, key)
    ensures HomesOk(hash, InPlace(t, mp, key), path)
  {
    var t' := InPlace(t, mp, key);
    forall i | Used(t', i) ensures HomeOk(hash, t', path, i) {
      if i == mp {
        PathNonempty(t.node, path, mp);
        AtOn(path[mp], 0);
      } else {
        assert Used(t, i) && HomeOk(hash, t, path, i);
      }
    }
  }

  lemma InPlaceAlive(hash: Value -> nat, t: Tab, path: seq<seq<int>>, mp: int, key: Value)
    requires TableOk(hash, t, path) && Absent(t, key) && mp == MainPosition(hash, |t.node|, key)
    ensures AliveFirst(InPlace(t, mp, key), path)
  {
    var t' := InPlace(t, mp, key);
    InPlaceHomes(hash, t, path, mp, key);
    forall i, j | Used(t', i) && !t'.node[i].dead && Used(t', j) && t'.node[j].key == t'.node[i].key ensures OnPath(path, i, j) {
      AbsentAt(t, key, i);
      if i == mp { assert HomeOk(hash, t', path, j); } else if j != mp { assert Used(t, i) && Used(t, j); }
    }
  }

  // ----- chaining -----

  /** A free node is on no path but its own. */
  lemma {:induction false} FreeAlone(t: Tab, path: seq<seq<int>>, n: int, p: int)
    requires PathsOk(t.node, path) && OnePredecessor(t) && 0 <= n < |t.node| && !Used(t, n) && 0 <= p < |t.node| && p != n
    ensures !On(path[p], n)
    decreases |path[p]|
  {
    assert PathAt(t.node, path, p);
    var j := t.node[p].next;
    if j != NONE {
      assert Links(t.node, p, j) && Used(t, j);
      FreeAlone(t, path, n, j);
      OnCons(p, path[j], n);
    } else {
      OnCons(p, [], n);
    }
  }

  /** The path behind a node is that of its successor, which does not lead back. */
  lemma PathTail(t: Tab, path: seq<seq<int>>, mp: int)
    requires PathsOk(t.node, path) && OnePredecessor(t) && 0 <= mp < |t.node|
    ensures var j := t.node[mp].next;
            path[mp] == [mp] + Tail(path[mp]) &&
            (if j == NONE then Tail(path[mp]) == []
             else 0 <= j < |t.node| && Used(t, j) && Tail(path[mp]) == path[j] && !On(path[j], mp))
  {
    assert PathAt(t.node, path, mp);
    var j := t.node[mp].next;
    if j != NONE {
      NotBehind(t.node, path, mp);
      assert Links(t.node, mp, j) && Used(t, j);
    }
  }

  lemma InsertMain(l: seq<int>, mp: int, n: int)
    ensures InsertAfter([mp] + l, mp, n) == [mp] + ([n] + l)
  {
    assert ([mp] + l)[1..] == l;
    assert [mp, n] + l == [mp] + ([n] + l);
  }

  lemma InsertBehind(p: int, l: seq<int>, mp: int, n: int)
    requires p != mp
    ensures InsertAfter([p] + l, mp, n) == [p] + InsertAfter(l, mp, n)
  {
    assert ([p] + l)[1..] == l;
  }

  lemma ChainedPathAt(t: Tab, path: seq<seq<int>>, mp: int, n: int, key: Value, p: int)
    requires PathsOk(t.node, path) && OnePredecessor(t) && NodesOk(t) && 0 <= mp < |t.node| && 0 <= n < |t.node| && mp != n
    requires t.node[n].key == Nil && 0 <= p < |t.node|
    ensures PathAt(Chained(t, mp, n, key).node, ChainedPath(t, path, mp, n), p)
  {
    hide InsertAfter, OnePredecessor, NodesOk, PathsOk, Tail;
    ChainedFacts(t, path, n, p);
    PathTail(t, path, mp);
    var q := t.node[p].next;
    if p == mp {
      InsertMain(Tail(path[mp]), mp, n);
    } else if p == n {
      if t.node[mp].next != NONE { InsertAfterElems(path[t.node[mp].next], mp, n, 0); }
    } else if q != NONE {
      InsertBehind(p, path[q], mp, n);
    } else {
      InsertBehind(p, [], mp, n);
      InsertNone(mp, n);
      assert [p] + [] == [p];
    }
  }

  lemma InsertNone(mp: int, n: int)
    ensures InsertAfter([], mp, n) == []
  {
  }

  lemma ChainedFacts(t: Tab, path: seq<seq<int>>, n: int, p: int)
    requires PathsOk(t.node, path) && OnePredecessor(t) && NodesOk(t) && 0 <= n < |t.node| && t.node[n].key == Nil && 0 <= p < |t.node|
    ensures |path| == |t.node| && PathAt(t.node, path, p) && t.node[n].next == NONE
    ensures t.node[p].next != NONE ==> 0 <= t.node[p].next < |t.node| && t.node[p].next != n
  {
    assert FreeOk(t, n) && PathAt(t.node, path, p);
    assert Links(t.node, p, t.node[p].next);
  }

  lemma ChainedPaths(t: Tab, path: seq<seq<int>>, mp: int, n: int, key: Value)
    requires PathsOk(t.node, path) && OnePredecessor(t) && NodesOk(t) && 0 <= mp < |t.node| && 0 <= n < |t.node| && mp != n
    requires t.node[n].key == Nil
    ensures PathsOk(Chained(t, mp, n, key).node, ChainedPath(t, path, mp, n))
  {
    hide PathAt;
    var t' := Chained(t, mp, n, key);
    forall p | 0 <= p < |t'.node| ensures PathAt(t'.node, ChainedPath(t, path, mp, n), p) { ChainedPathAt(t, path, mp, n, key, p); }
  }

  lemma ChainedHomes(hash: Value -> nat, t: Tab, path: seq<seq<int>>, mp: int, n: int, key: Value)
    requires TableOk(hash, t, path) && key != Nil && 0 <= mp < |t.node| && 0 <= n < |t.node| && mp != n && t.node[n].key == Nil
    requires mp == MainPosition(hash, |t.node|, key) && Used(t, mp) && Home(hash, t, mp) == mp
    ensures HomesOk(hash, Chained(t, mp, n, key), ChainedPath(t, path, mp, n))
  {
    var t' := Chained(t, mp, n, key);
    var path' := ChainedPath(t, path, mp, n);
    forall i | Used(t', i) ensures HomeOk(hash, t', path', i) {
      if i == n {
        PathNonempty(t.node, path, mp);
        AtOn(path[mp], 0);
        InsertAfterElems(path[mp], mp, n, n);
      } else {
        assert Used(t, i) && HomeOk(hash, t, path, i);
        var h := Home(hash, t, i);
        InsertAfterElems(path[h], mp, n, i);
        assert Used(t, h) && h != n && Home(hash, t', i) == h;
      }
    }
  }

  lemma ChainedKeys(t: Tab, mp: int, n: int, key: Value)
    requires NodesOk(t) && UniqueKeys(t) && PartsApart(t) && Absent(t, key)
    requires Used(t, mp) && 0 <= n < |t.node| && t.node[n].key == Nil
    ensures var t' := Chained(t, mp, n, key); NodesOk(t') && UniqueKeys(t') && PartsApart(t') && Same(t, t')
  {
    var t' := Chained(t, mp, n, key);
    assert FreeOk(t, n) && FreeOk(t, mp);
    forall i | 0 <= i < |t'.node| ensures FreeOk(t', i) { assert FreeOk(t, i); }
    forall i, j | Used(t', i) && Entry(t', i, t'.node[i].key) && Entry(t', j, t'.node[i].key) ensures i == j {
      AbsentAt(t, key, i);
      AbsentAt(t, key, j);
      assert i != n ==> Used(t, i) && Entry(t, i, t.node[i].key);
      assert j != n ==> Entry(t, j, t'.node[i].key);
    }
    forall i | Used(t', i) ensures !InArray(t', t'.node[i].key) { assert i != n ==> Used(t, i); }
    SameEntries(t, t', i => i, i => i);
  }

  lemma ChainedAlive(hash: Value -> nat, t: Tab, path: seq<seq<int>>, mp: int, n: int, key: Value)
    requires TableOk(hash, t, path) && Absent(t, key) && mp == MainPosition(hash, |t.node|, key)
    requires Used(t, mp) && t.node[mp].val != Nil && 0 <= n < |t.node| && t.node[n].key == Nil
    ensures AliveFirst(Chained(t, mp, n, key), ChainedPath(t, path, mp, n))
  {
    var t', path' := Chained(t, mp, n, key), ChainedPath(t, path, mp, n);
    assert FreeOk(t, mp);
    PathTail(t, path, mp);
    AbsentAt(t, key, mp);
    forall i, j | Used(t', i) && !t'.node[i].dead && Used(t', j) && t'.node[j].key == t'.node[i].key ensures OnPath(path', i, j) {
      AbsentAt(t, key, i);
      if i == n {
        OnCons(n, Tail(path[mp]), j);
        OnCons(mp, Tail(path[mp]), j);
        if j != n { assert Used(t, j) && HomeOk(hash, t, path, j); }
      } else if j != n {
        assert Used(t, i) && Used(t, j) && OnPath(path, i, j);
        InsertAfterElems(path[i], mp, n, j);
      }
    }
  }

  lemma ChainedOk(hash: Value -> nat, t: Tab, path: seq<seq<int>>, mp: int, n: int, key: Value)
    requires TableOk(hash, t, path) && Absent(t, key) && !t.dummy
    requires mp == MainPosition(hash, |t.node|, key) && Used(t, mp) && Home(hash, t, mp) == mp
    requires 0 <= n < |t.node| && t.node[n].key == Nil && t.node[mp].val != Nil
    ensures Placed(hash, t, Chained(t, mp, n, key), ChainedPath(t, path, mp, n), n, key)
  {
    hide NodesOk, UniqueKeys, PartsApart, Same, HomesOk, PathsOk, TableOk, AliveFirst;
    TableParts(hash, t, path);
    var t' := Chained(t, mp, n, key);
    ChainedPaths(t, path, mp, n, key);
    ChainedHomes(hash, t, path, mp, n, key);
    ChainedKeys(t, mp, n, key);
    ChainedAlive(hash, t, path, mp, n, key);
    forall p, i | Links(t'.node, p, i) && i != NONE ensures Used(t', i) {
      if p == n { assert Links(t.node, mp, i); } else if p != mp { assert Links(t.node, p, i); }
    }
    forall p, q, i | Links(t'.node, p, i) && Links(t'.node, q, i) && i != NONE ensures p == q {
      ChainedLink(t, mp, n, key, p, i);
      ChainedLink(t, mp, n, key, q, i);
    }
    TableWhole(hash, t', ChainedPath(t, path, mp, n));
  }

  lemma ChainedLink(t: Tab, mp: int, n: int, key: Value, p: int, i: int)
    requires OnePredecessor(t) && 0 <= mp < |t.node| && 0 <= n < |t.node| && mp != n && !Used(t, n)
    requires Links(Chained(t, mp, n, key).node, p, i) && i != NONE
    ensures if p == mp then i == n else i != n && Links(t.node, if p == n then mp else p, i)
  {
    if p != mp { assert Links(t.node, if p == n then mp else p, i); }
  }

  // ----- moving -----

  lemma MovedPaths(t: Tab, path: seq<seq<int>>, mp: int, n: int, prev: int, key: Value)
    requires PathsOk(t.node, path) && OnePredecessor(t) && NodesOk(t)
    requires 0 <= mp < |t.node| && 0 <= n < |t.node| && mp != n && t.node[n].key == Nil
    requires Links(t.node, prev, mp) && prev != mp && prev != n
    ensures PathsOk(Moved(t, mp, n, prev, key).node, MovedPath(t, path, mp, n))
  {
    hide PathAt, NodesOk, OnePredecessor;
    var t' := Moved(t, mp, n, prev, key);
    var path' := MovedPath(t, path, mp, n);
    assert |t'.node| == |t.node| == |path'|;
    forall p | 0 <= p < |t'.node| ensures PathAt(t'.node, path', p) {
      assert PathAt(t.node, path, p);
      if p == mp || p == n {
        MovedPathFrom(t, path, mp, n, prev, key);
      } else {
        MovedPathAt(t, path, mp, n, prev, key, p);
      }
    }
  }

  /** The path from the new place of the moved node, and from the old one. */
  lemma MovedPathFrom(t: Tab, path: seq<seq<int>>, mp: int, n: int, prev: int, key: Value)
    requires PathsOk(t.node, path) && OnePredecessor(t) && NodesOk(t)
    requires 0 <= mp < |t.node| && 0 <= n < |t.node| && mp != n && t.node[n].key == Nil
    requires Links(t.node, prev, mp) && prev != mp && prev != n
    ensures PathAt(Moved(t, mp, n, prev, key).node, MovedPath(t, path, mp, n), mp)
    ensures PathAt(Moved(t, mp, n, prev, key).node, MovedPath(t, path, mp, n), n)
  {
    assert FreeOk(t, n) && PathAt(t.node, path, mp);
    PathNonempty(t.node, path, mp);
    var j := t.node[mp].next;
    var node', path' := Moved(t, mp, n, prev, key).node, MovedPath(t, path, mp, n);
    assert node'[n] == t.node[mp] && node'[mp].next == NONE;
    assert path'[mp] == [mp] && path'[n] == [n] + Tail(path[mp]);
    if j != NONE {
      NotBehind(t.node, path, mp);
      assert Links(t.node, mp, j) && Used(t, j);
      PathNonempty(t.node, path, j);
      AtOn(path[j], 0);
      assert FreeOk(t, n) && j != mp && j != n;
      ReplaceElems(path[j], mp, n, 0);
      assert path[mp][1..] == path[j];
      assert path'[j] == path[j] == Tail(path[mp]);
    } else {
      assert Tail(path[mp]) == [] && [n] + [] == [n];
    }
  }

  lemma MovedPathAt(t: Tab, path: seq<seq<int>>, mp: int, n: int, prev: int, key: Value, p: int)
    requires PathsOk(t.node, path) && OnePredecessor(t) && NodesOk(t)
    requires 0 <= mp < |t.node| && 0 <= n < |t.node| && mp != n && t.node[n].key == Nil
    requires Links(t.node, prev, mp) && prev != mp && prev != n
    requires 0 <= p < |t.node| && p != mp && p != n
    ensures PathAt(Moved(t, mp, n, prev, key).node, MovedPath(t, path, mp, n), p)
  {
    assert PathAt(t.node, path, p);
    var q := t.node[p].next;
    if q != NONE {
      assert FreeOk(t, n) && Links(t.node, p, q) && Used(t, q) && q != n;
      ReplaceBehind(p, path[q], mp, n);
      if q == mp {
        PathNonempty(t.node, path, mp);
        assert p == prev;
      } else {
        assert p != prev;
      }
    } else {
      ReplaceBehind(p, [], mp, n);
      assert [p] + [] == [p];
      assert p != prev;
    }
  }

  lemma ReplaceBehind(p: int, l: seq<int>, m: int, n: int)
    requires p != m
    ensures Replace([p] + l, m, n) == [p] + Replace(l, m, n)
    ensures l != [] && l[0] == m ==> Replace(l, m, n) == [n] + Tail(l)
  {
    assert ([p] + l)[1..] == l;
  }

  lemma MovedHomes(hash: Value -> nat, t: Tab, path: seq<seq<int>>, mp: int, n: int, prev: int, key: Value)
    requires TableOk(hash, t, path) && key != Nil && 0 <= mp < |t.node| && 0 <= n < |t.node| && mp != n && t.node[n].key == Nil
    requires mp == MainPosition(hash, |t.node|, key) && Used(t, mp) && Home(hash, t, mp) != mp
    requires Links(t.node, prev, mp) && prev != mp && prev != n
    ensures HomesOk(hash, Moved(t, mp, n, prev, key), MovedPath(t, path, mp, n))
  {
    var t' := Moved(t, mp, n, prev, key);
    var path' := MovedPath(t, path, mp, n);
    assert HomeOk(hash, t, path, mp);
    forall i | Used(t', i) ensures HomeOk(hash, t', path', i) {
      if i == mp {
        AtOn(path'[mp], 0);
      } else {
        var was := if i == n then mp else i;
        assert Used(t, was) && HomeOk(hash, t, path, was);
        var h := Home(hash, t, was);
        assert Used(t, h) && Home(hash, t, h) == h;
        ReplaceElems(path[h], mp, n, was);
        assert h != mp && h != n && Home(hash, t', i) == h;
      }
    }
  }

  lemma MovedLink(t: Tab, mp: int, n: int, prev: int, key: Value, p: int, i: int)
    requires OnePredecessor(t) && 0 <= mp < |t.node| && 0 <= n < |t.node| && mp != n && !Used(t, n)
    requires Links(t.node, prev, mp) && prev != mp && prev != n
    requires Links(Moved(t, mp, n, prev, key).node, p, i) && i != NONE
    ensures if p == prev then i == n else i != n && i != mp && p != mp && Links(t.node, if p == n then mp else p, i)
  {
    if p != prev {
      assert p != mp;
      assert Links(t.node, if p == n then mp else p, i);
    }
  }

  lemma MovedKeys(t: Tab, mp: int, n: int, prev: int, key: Value)
    requires NodesOk(t) && UniqueKeys(t) && PartsApart(t) && Absent(t, key)
    requires Used(t, mp) && 0 <= n < |t.node| && t.node[n].key == Nil && Links(t.node, prev, mp) && prev != mp && prev != n
    ensures var t' := Moved(t, mp, n, prev, key); NodesOk(t') && UniqueKeys(t') && PartsApart(t') && Same(t, t')
  {
    var t' := Moved(t, mp, n, prev, key);
    assert FreeOk(t, n) && FreeOk(t, mp) && FreeOk(t, prev);
    forall i | 0 <= i < |t'.node| ensures FreeOk(t', i) { assert FreeOk(t, i); }
    forall i, j | Used(t', i) && Entry(t', i, t'.node[i].key) && Entry(t', j, t'.node[i].key) ensures i == j {
      var i0, j0 := if i == n then mp else i, if j == n then mp else j;
      AbsentAt(t, key, i0);
      AbsentAt(t, key, j0);
      assert i != mp ==> Used(t, i0) && Entry(t, i0, t.node[i0].key);
      assert j != mp ==> Entry(t, j0, t'.node[i].key);
    }
    forall i | Used(t', i) ensures !InArray(t', t'.node[i].key) {
      assert i != mp ==> Used(t, if i == n then mp else i);
    }
    SameEntries(t, t', i => if i == mp then n else i, i => if i == n then mp else i);
  }

  lemma MovedAlive(hash: Value -> nat, t: Tab, path: seq<seq<int>>, mp: int, n: int, prev: int, key: Value)
    requires TableOk(hash, t, path) && Absent(t, key) && mp == MainPosition(hash, |t.node|, key)
    requires Used(t, mp) && t.node[mp].val != Nil && Home(hash, t, mp) != mp && 0 <= n < |t.node| && t.node[n].key == Nil
    requires Links(t.node, prev, mp) && prev != mp && prev != n
    ensures AliveFirst(Moved(t, mp, n, prev, key), MovedPath(t, path, mp, n))
  {
    var t', path' := Moved(t, mp, n, prev, key), MovedPath(t, path, mp, n);
    assert FreeOk(t, mp);
    PathTail(t, path, mp);
    forall i, j | Used(t', i) && !t'.node[i].dead && Used(t', j) && t'.node[j].key == t'.node[i].key ensures OnPath(path', i, j) {
      var i0, j0 := if i == n then mp else i, if j == n then mp else j;
      if i == mp || j == mp {
        NoneAtHome(hash, t, path, mp, i0, key);
        NoneAtHome(hash, t, path, mp, j0, key);
        AtOn(path'[mp], 0);
      } else {
        assert Used(t, i0) && Used(t, j0) && OnPath(path, i0, j0);
        if i == n {
          OnCons(n, Tail(path[mp]), j);
          OnCons(mp, Tail(path[mp]), j0);
        } else {
          ReplaceElems(path[i], mp, n, j0);
        }
      }
    }
  }

  /** Where the main position is taken by a key that does not belong there, no key belongs there. */
  lemma NoneAtHome(hash: Value -> nat, t: Tab, path: seq<seq<int>>, mp: int, i: int, key: Value)
    requires TableOk(hash, t, path) && Used(t, mp) && Home(hash, t, mp) != mp && mp == MainPosition(hash, |t.node|, key)
    ensures Used(t, i) ==> t.node[i].key != key
  {
    assert Used(t, i) ==> HomeOk(hash, t, path, i);
  }

  lemma MovedOk(hash: Value -> nat, t: Tab, path: seq<seq<int>>, mp: int, n: int, prev: int, key: Value)
    requires TableOk(hash, t, path) && Absent(t, key) && !t.dummy
    requires mp == MainPosition(hash, |t.node|, key) && Used(t, mp) && Home(hash, t, mp) != mp
    requires 0 <= n < |t.node| && t.node[n].key == Nil && Links(t.node, prev, mp) && prev != mp && prev != n && t.node[mp].val != Nil
    ensures Placed(hash, t, Moved(t, mp, n, prev, key), MovedPath(t, path, mp, n), mp, key)
  {
    hide NodesOk, UniqueKeys, PartsApart, Same, HomesOk, PathsOk, TableOk, AliveFirst;
    TableParts(hash, t, path);
    var t' := Moved(t, mp, n, prev, key);
    MovedPaths(t, path, mp, n, prev, key);
    MovedHomes(hash, t, path, mp, n, prev, key);
    MovedKeys(t, mp, n, prev, key);
    MovedAlive(hash, t, path, mp, n, prev, key);
    forall p, i | Links(t'.node, p, i) && i != NONE ensures Used(t', i) {
      MovedLink(t, mp, n, prev, key, p, i);
      if p != prev { assert Used(t, i); }
    }
    forall p, q, i | Links(t'.node, p, i) && Links(t'.node, q, i) && i != NONE ensures p == q {
      MovedLink(t, mp, n, prev, key, p, i);
      MovedLink(t, mp, n, prev, key, q, i);
    }
    TableWhole(hash, t', MovedPath(t, path, mp, n));
  }

  lemma TableParts(hash: Value -> nat, t: Tab, path: seq<seq<int>>)
    requires TableOk(hash, t, path)
    ensures Shape(t) && PathsOk(t.node, path) && OnePredecessor(t) && NodesOk(t) && HomesOk(hash, t, path) && UniqueKeys(t)
            && AliveFirst(t, path) && PartsApart(t)
  {
  }

  lemma TableWhole(hash: Value -> nat, t: Tab, path: seq<seq<int>>)
    requires Shape(t) && PathsOk(t.node, path) && OnePredecessor(t) && NodesOk(t) && HomesOk(hash, t, path) && UniqueKeys(t)
            && AliveFirst(t, path) && PartsApart(t)
    ensures TableOk(hash, t, path)
  {
  }
}
