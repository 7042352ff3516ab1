/** Upvalues (lfunc.c:53-112): an open one points into the stack, a closed one owns its value.
    Together they behave as one box for each captured variable. */
module Upvalues {
  datatype Value = Nil | Other(id: int)

  datatype Upval = Open(level: nat) | Closed(value: Value)

  /** The stack of a thread, its upvalues, and the list of the open ones. */
  datatype Thread = Thread(stack: seq<Value>, upvals: seq<Upval>, openupval: seq<nat>)

  predicate OnList(l: seq<nat>, u: int) { exists i :: 0 <= i < |l| && l[i] == u }

  function Level(t: Thread, u: int): int {
    if 0 <= u < |t.upvals| && t.upvals[u].Open? then t.upvals[u].level else -1
  }

  /** The list holds the open upvalues, in strictly descending order of their slots. */
  ghost predicate ListOk(t: Thread) {
    && (forall i :: 0 <= i < |t.openupval| ==> 0 <= Level(t, t.openupval[i]) < |t.stack|)
    && (forall i, j :: 0 <= i < j < |t.openupval| ==> Level(t, t.openupval[j]) < Level(t, t.openupval[i]))
    && (forall u :: 0 <= u < |t.upvals| && t.upvals[u].Open? ==> OnList(t.openupval, u))
  }

  // ----- the specification: boxes -----

  /** `slot[i]` is the box of the variable in stack slot `i`, `captured[u]` that of upvalue `u`. */
  datatype Boxes = Boxes(values: seq<Value>, slot: seq<nat>, captured: seq<nat>)

  predicate BoxIn(b: Boxes, x: int) { 0 <= x < |b.values| }

  /** Variables have boxes of their own, and a captured one has one upvalue. */
  ghost predicate BoxesOk(b: Boxes) {
    && (forall i :: 0 <= i < |b.slot| ==> BoxIn(b, b.slot[i]))
    && (forall u :: 0 <= u < |b.captured| ==> BoxIn(b, b.captured[u]))
    && (forall i, j :: 0 <= i < j < |b.slot| ==> b.slot[i] != b.slot[j])
    && (forall u, v :: 0 <= u < v < |b.captured| ==> b.captured[u] != b.captured[v])
  }

  function WriteBox(b: Boxes, x: nat, v: Value): Boxes
    requires BoxIn(b, x)
  {
    b.(values := b.values[x := v])
  }

  /** The variables in the slots from `level` on end; new ones may begin there. */
  function EndScope(b: Boxes, level: nat, junk: seq<Value>): Boxes
    requires level <= |b.slot| && |junk| == |b.slot| - level
  {
    Boxes(b.values + junk, b.slot[..level] + seq(|junk|, i => |b.values| + i), b.captured)
  }

  predicate IsCaptured(b: Boxes, x: nat) { exists w :: 0 <= w < |b.captured| && b.captured[w] == x }

  /** The box gets an upvalue unless it has one. */
  function CaptureBox(b: Boxes, x: nat): Boxes {
    if IsCaptured(b, x) then b else b.(captured := b.captured + [x])
  }

  // ----- the refinement -----

  function ReadUpval(t: Thread, u: nat): Value
    requires u < |t.upvals|
  {
    match t.upvals[u]
    case Open(level) => if level < |t.stack| then t.stack[level] else Nil
    case Closed(v) => v
  }

  /** Upvalue `u` has the value of its box; a closed one's box is that of no variable below `lim`. */
  ghost predicate UpvalOk(t: Thread, b: Boxes, u: int, lim: int)
    requires 0 <= u < |t.upvals| && |b.captured| == |t.upvals| && |b.slot| == |t.stack|
  {
    && BoxIn(b, b.captured[u])
    && (match t.upvals[u]
        case Open(level) => level < |t.stack| && b.captured[u] == b.slot[level]
        case Closed(v) => b.values[b.captured[u]] == v && forall i :: 0 <= i < lim && i < |b.slot| ==> b.slot[i] != b.captured[u])
  }

  ghost predicate RefinesTo(t: Thread, b: Boxes, lim: int) {
    && ListOk(t) && BoxesOk(b) && |b.slot| == |t.stack| && |b.captured| == |t.upvals|
    && (forall i :: 0 <= i < |t.stack| ==> t.stack[i] == b.values[b.slot[i]])
    && (forall u :: 0 <= u < |t.upvals| ==> UpvalOk(t, b, u, lim))
  }

  /** Every variable and every upvalue has the value of its box. */
  ghost predicate Refines(t: Thread, b: Boxes) {
    RefinesTo(t, b, |t.stack|)
  }

  class State {
    var t: Thread
    ghost var b: Boxes

    ghost predicate Valid()
      reads this
    {
      Refines(t, b)
    }

    constructor ()
      ensures Valid() && b == Boxes([], [], [])
    {
      t := Thread([], [], []);
      b := Boxes([], [], []);
    }

    /** A new variable on top of the stack. */
    method Push(v: Value)
      requires Valid()
      modifies this
      ensures Valid() && b == Boxes(old(b).values + [v], old(b).slot + [|old(b).values|], old(b).captured)
    {
      PushOk(t, b, v);
      t := t.(stack := t.stack + [v]);
      b := Boxes(b.values + [v], b.slot + [|b.values|], b.captured);
    }

    method SetSlot(i: nat, v: Value)
      requires Valid() && i < |t.stack|
      modifies this
      ensures Valid() && b == WriteBox(old(b), old(b).slot[i], v)
    {
      WriteSlotOk(t, b, i, v);
      t := t.(stack := t.stack[i := v]);
      b := WriteBox(b, b.slot[i], v);
    }

    method GetSlot(i: nat) returns (v: Value)
      requires Valid() && i < |t.stack|
      ensures v == b.values[b.slot[i]]
    {
      v := t.stack[i];
    }

    /** `luaF_findupval`: the one upvalue of the variable in a slot. */
    method FindUpval(level: nat) returns (u: nat)
      requires Valid() && level < |t.stack|
      modifies this
      ensures Valid() && u < |b.captured| && level < |b.slot| && b.captured[u] == b.slot[level]
      ensures level < |old(b).slot| && b == CaptureBox(old(b), old(b).slot[level])
    {
      var i := 0;
      while i < |t.openupval| && Level(t, t.openupval[i]) >= level
        invariant 0 <= i <= |t.openupval|
        invariant forall j :: 0 <= j < i ==> Level(t, t.openupval[j]) > level
      {
        var p := t.openupval[i];
        if Level(t, p) == level {
          assert UpvalOk(t, b, p, |t.stack|);
          return p;
        }
        i := i + 1;
      }
      u := |t.upvals|;
      NotCaptured(t, b, level, i);
      CaptureOk(t, b, level, i);
      t := WithUpval(t, level, i);
      b := b.(captured := b.captured + [b.slot[level]]);
    }

    /** OP_GETUPVAL. */
    method GetUpval(u: nat) returns (v: Value)
      requires Valid() && u < |t.upvals|
      ensures v == b.values[b.captured[u]]
    {
      assert UpvalOk(t, b, u, |t.stack|);
      match t.upvals[u] {
        case Open(level) => v := t.stack[level];
        case Closed(value) => v := value;
      }
    }

    /** OP_SETUPVAL. */
    method SetUpval(u: nat, v: Value)
      requires Valid() && u < |t.upvals|
      modifies this
      ensures Valid() && b == WriteBox(old(b), old(b).captured[u], v)
    {
      assert UpvalOk(t, b, u, |t.stack|);
      match t.upvals[u] {
        case Open(level) =>
          WriteSlotOk(t, b, level, v);
          t := t.(stack := t.stack[level := v]);
        case Closed(_) =>
          WriteClosedOk(t, b, u, v);
          t := t.(upvals := t.upvals[u := Closed(v)]);
      }
      b := WriteBox(b, b.captured[u], v);
    }

    /** `luaF_close`: the open upvalues from `level` on take their values with them. */
    method Close(level: nat)
      requires Valid() && level <= |t.stack|
      modifies this
      ensures Valid() && t.stack == old(t).stack && b == EndScope(old(b), level, old(t).stack[level..])
      ensures forall u :: 0 <= u < |t.upvals| ==> ReadUpval(t, u) == ReadUpval(old(t), u)
      ensures forall u :: 0 <= u < |t.upvals| && t.upvals[u].Open? ==> t.upvals[u].level < level
    {
      ghost var t0 := t;
      forall u | 0 <= u < |t.upvals| ensures UpvalOk(t, b, u, level) { assert UpvalOk(t, b, u, |t.stack|); }
      while t.openupval != [] && Level(t, t.openupval[0]) >= level
        invariant RefinesTo(t, b, level) && b == old(b) && t.stack == t0.stack && |t.upvals| == |t0.upvals|
        invariant forall u :: 0 <= u < |t.upvals| ==> ReadUpval(t, u) == ReadUpval(t0, u)
        decreases |t.openupval|
      {
        var uv := t.openupval[0];
        CloseOneOk(t, b, level);
        t := t.(openupval := t.openupval[1..], upvals := t.upvals[uv := Closed(t.stack[t.upvals[uv].level])]);
      }
      EndScopeOk(t, b, level);
      b := EndScope(b, level, t.stack[level..]);
    }

    /** Dead slots are popped. */
    method Pop(level: nat)
      requires Valid() && level <= |t.stack| && forall u :: 0 <= u < |t.upvals| && t.upvals[u].Open? ==> t.upvals[u].level < level
      modifies this
      ensures Valid() && b == old(b).(slot := old(b).slot[..level])
    {
      PopOk(t, b, level);
      t := t.(stack := t.stack[..level]);
      b := b.(slot := b.slot[..level]);
    }
  }

  // ----- the steps -----

  lemma PushOk(t: Thread, b: Boxes, v: Value)
    requires Refines(t, b)
    ensures Refines(t.(stack := t.stack + [v]), Boxes(b.values + [v], b.slot + [|b.values|], b.captured))
  {
    var t', b' := t.(stack := t.stack + [v]), Boxes(b.values + [v], b.slot + [|b.values|], b.captured);
    forall u | 0 <= u < |t'.upvals| ensures UpvalOk(t', b', u, |t'.stack|) { assert UpvalOk(t, b, u, |t.stack|); }
  }

  lemma WriteSlotOk(t: Thread, b: Boxes, i: nat, v: Value)
    requires Refines(t, b) && i < |t.stack|
    ensures Refines(t.(stack := t.stack[i := v]), WriteBox(b, b.slot[i], v))
  {
    var t', b' := t.(stack := t.stack[i := v]), WriteBox(b, b.slot[i], v);
    forall u | 0 <= u < |t'.upvals| ensures UpvalOk(t', b', u, |t'.stack|) { assert UpvalOk(t, b, u, |t.stack|); }
  }

  lemma WriteClosedOk(t: Thread, b: Boxes, u: nat, v: Value)
    requires Refines(t, b) && u < |t.upvals| && t.upvals[u].Closed?
    ensures Refines(t.(upvals := t.upvals[u := Closed(v)]), WriteBox(b, b.captured[u], v))
  {
    var t', b' := t.(upvals := t.upvals[u := Closed(v)]), WriteBox(b, b.captured[u], v);
    assert UpvalOk(t, b, u, |t.stack|);
    forall w | 0 <= w < |t'.upvals| ensures UpvalOk(t', b', w, |t'.stack|) { assert UpvalOk(t, b, w, |t.stack|); }
    forall i | 0 <= i < |t.openupval| ensures 0 <= Level(t', t.openupval[i]) < |t.stack| && t.openupval[i] != u {
      assert 0 <= Level(t, t.openupval[i]);
    }
  }

  /** A new open upvalue, at its place in the list. */
  function WithUpval(t: Thread, level: nat, i: nat): Thread
    requires i <= |t.openupval|
  {
    t.(upvals := t.upvals + [Open(level)], openupval := t.openupval[..i] + [|t.upvals|] + t.openupval[i..])
  }

  ghost predicate PlaceFor(t: Thread, level: nat, i: nat)
    requires i <= |t.openupval|
  {
    && (forall j :: 0 <= j < i ==> Level(t, t.openupval[j]) > level)
    && (forall j :: i <= j < |t.openupval| ==> Level(t, t.openupval[j]) < level)
  }

  lemma NotCaptured(t: Thread, b: Boxes, level: nat, i: nat)
    requires Refines(t, b) && level < |t.stack| && i <= |t.openupval|
    requires forall j :: 0 <= j < i ==> Level(t, t.openupval[j]) > level
    requires i < |t.openupval| ==> Level(t, t.openupval[i]) < level
    ensures PlaceFor(t, level, i)
    ensures !IsCaptured(b, b.slot[level])
  {
    forall w | 0 <= w < |b.captured| ensures b.captured[w] != b.slot[level] {
      assert UpvalOk(t, b, w, |t.stack|);
      if t.upvals[w].Open? {
        var k :| 0 <= k < |t.openupval| && t.openupval[k] == w;
        assert Level(t, w) != level;
      }
    }
  }

  function LevelWith(t: Thread, level: nat, i: nat, k: int): int
    requires i <= |t.openupval| && 0 <= k <= |t.openupval|
  {
    if k < i then Level(t, t.openupval[k]) else if k == i then level else Level(t, t.openupval[k - 1])
  }

  lemma CaptureLevels(t: Thread, level: nat, i: nat)
    requires ListOk(t) && i <= |t.openupval|
    ensures var t' := WithUpval(t, level, i);
            |t'.openupval| == |t.openupval| + 1 &&
            forall k :: 0 <= k < |t'.openupval| ==> Level(t', t'.openupval[k]) == LevelWith(t, level, i, k)
  {
    var l, l' := t.openupval, WithUpval(t, level, i).openupval;
    forall k | 0 <= k < |l'| ensures Level(WithUpval(t, level, i), l'[k]) == LevelWith(t, level, i, k) {
      if k != i { assert 0 <= Level(t, l[if k < i then k else k - 1]); }
    }
  }

  lemma CaptureMembers(t: Thread, level: nat, i: nat, u: nat)
    requires ListOk(t) && i <= |t.openupval| && u <= |t.upvals| && (u < |t.upvals| ==> t.upvals[u].Open?)
    ensures OnList(WithUpval(t, level, i).openupval, u)
  {
    var l, l' := t.openupval, WithUpval(t, level, i).openupval;
    if u < |t.upvals| {
      var k :| 0 <= k < |l| && l[k] == u;
      assert l'[if k < i then k else k + 1] == u;
    } else {
      assert l'[i] == u;
    }
  }

  lemma CaptureList(t: Thread, level: nat, i: nat)
    requires ListOk(t) && level < |t.stack| && i <= |t.openupval| && PlaceFor(t, level, i)
    ensures ListOk(WithUpval(t, level, i))
  {
    hide OnList;
    var t' := WithUpval(t, level, i);
    CaptureLevels(t, level, i);
    forall u | 0 <= u < |t'.upvals| && t'.upvals[u].Open? ensures OnList(t'.openupval, u) { CaptureMembers(t, level, i, u); }
  }

  lemma CaptureOk(t: Thread, b: Boxes, level: nat, i: nat)
    requires Refines(t, b) && level < |t.stack| && i <= |t.openupval| && PlaceFor(t, level, i)
    requires !IsCaptured(b, b.slot[level])
    ensures Refines(WithUpval(t, level, i), b.(captured := b.captured + [b.slot[level]]))
  {
    hide ListOk;
    CaptureList(t, level, i);
    var t', b' := WithUpval(t, level, i), b.(captured := b.captured + [b.slot[level]]);
    forall u | 0 <= u < |t'.upvals| ensures UpvalOk(t', b', u, |t'.stack|) {
      if u < |t.upvals| { assert UpvalOk(t, b, u, |t.stack|); }
    }
  }

  lemma CloseOneOk(t: Thread, b: Boxes, lim: nat)
    requires RefinesTo(t, b, lim) && t.openupval != [] && Level(t, t.openupval[0]) >= lim
    ensures var uv := t.openupval[0];
            0 <= Level(t, uv) < |t.stack| && uv < |t.upvals| && t.upvals[uv].Open? &&
            var t' := t.(openupval := t.openupval[1..], upvals := t.upvals[uv := Closed(t.stack[t.upvals[uv].level])]);
            RefinesTo(t', b, lim) && forall u :: 0 <= u < |t.upvals| ==> ReadUpval(t', u) == ReadUpval(t, u)
  {
    var uv := t.openupval[0];
    assert 0 <= Level(t, uv);
    var t' := t.(openupval := t.openupval[1..], upvals := t.upvals[uv := Closed(t.stack[t.upvals[uv].level])]);
    forall u | 0 <= u < |t'.upvals| ensures UpvalOk(t', b, u, lim) { assert UpvalOk(t, b, u, lim); }
    forall k | 0 <= k < |t'.openupval| ensures Level(t', t'.openupval[k]) == Level(t, t.openupval[k + 1]) {
      assert Level(t, t.openupval[k + 1]) < Level(t, t.openupval[0]);
    }
    forall u | 0 <= u < |t'.upvals| && t'.upvals[u].Open? ensures OnList(t'.openupval, u) {
      var k :| 0 <= k < |t.openupval| && t.openupval[k] == u;
      assert t'.openupval[k - 1] == u;
    }
  }

  lemma EndScopeBoxes(b: Boxes, level: nat, junk: seq<Value>)
    requires BoxesOk(b) && level <= |b.slot| && |junk| == |b.slot| - level
    ensures BoxesOk(EndScope(b, level, junk))
  {
  }

  lemma AllClosed(t: Thread, level: nat)
    requires ListOk(t) && (t.openupval != [] ==> Level(t, t.openupval[0]) < level)
    ensures forall u :: 0 <= u < |t.upvals| && t.upvals[u].Open? ==> t.upvals[u].level < level
  {
    forall u | 0 <= u < |t.upvals| && t.upvals[u].Open? ensures t.upvals[u].level < level {
      var k :| 0 <= k < |t.openupval| && t.openupval[k] == u;
      if k > 0 { assert Level(t, t.openupval[k]) < Level(t, t.openupval[0]); }
    }
  }

  lemma EndScopeOk(t: Thread, b: Boxes, level: nat)
    requires RefinesTo(t, b, level) && level <= |t.stack| && (t.openupval != [] ==> Level(t, t.openupval[0]) < level)
    ensures Refines(t, EndScope(b, level, t.stack[level..]))
    ensures forall u :: 0 <= u < |t.upvals| && t.upvals[u].Open? ==> t.upvals[u].level < level
  {
    hide ListOk;
    AllClosed(t, level);
    EndScopeBoxes(b, level, t.stack[level..]);
    var b' := EndScope(b, level, t.stack[level..]);
    forall u | 0 <= u < |t.upvals| ensures UpvalOk(t, b', u, |t.stack|) { assert UpvalOk(t, b, u, level); }
  }

  lemma PopOk(t: Thread, b: Boxes, level: nat)
    requires Refines(t, b) && level <= |t.stack| && forall u :: 0 <= u < |t.upvals| && t.upvals[u].Open? ==> t.upvals[u].level < level
    ensures Refines(t.(stack := t.stack[..level]), b.(slot := b.slot[..level]))
  {
    var t', b' := t.(stack := t.stack[..level]), b.(slot := b.slot[..level]);
    forall u | 0 <= u < |t'.upvals| ensures UpvalOk(t', b', u, |t'.stack|) { assert UpvalOk(t, b, u, |t.stack|); }
    forall i | 0 <= i < |t.openupval| ensures 0 <= Level(t', t.openupval[i]) < level { assert 0 <= Level(t, t.openupval[i]); }
  }
}
