/** Jump lists: relinking, patching and what the loops over them keep (lcode.c:59-213). */
module Patching {
  import opened Wrappers
  import opened LuaVM
  import opened CodeState

  const MAXSTACK := 250

  /** With `n` more instructions and constants a limit would be passed. */
  ghost predicate Near(fs: FS, n: int) {
    |fs.code| + n > MAXARG_sBx || |fs.k| + n >= MAXARG_Bx
  }

  /** The same, or not even `regs` registers may be used. */
  ghost predicate Full(fs: FS, n: int, regs: int) {
    Near(fs, n) || regs >= MAXSTACK
  }

  /** At most `n` instructions and constants have been added. */
  ghost predicate Within(fs: FS, fs': FS, n: int) {
    |fs'.code| <= |fs.code| + n && |fs'.k| <= |fs.k| + n
  }

  /** Only the links of the jumps in `l` differ. */
  ghost predicate Relinked(c: Code, c': Code, l: seq<int>) {
    && |c'| == |c|
    && (forall q :: 0 <= q < |c| ==> if On(l, q) then c[q].JMP? && c'[q].JMP? else c'[q] == c[q])
  }

  /** The tests of the jumps in `l` no longer set a register. */
  ghost predicate ValuesRemoved(c: Code, c': Code, l: seq<int>) {
    && |c'| == |c|
    && (forall q :: 0 <= q < |c| ==> c'[q] == if On(l, q + 1) then PatchTest(c[q], NO_REG) else c[q])
  }

  lemma ListEnd(c: Code, head: int, l: seq<int>, i: nat)
    requires ListOk(c, head, l) && i <= |l| && At(l, i) == NO_JUMP
    ensures i == |l|
  {
    if i < |l| {
      var _ := LinkOk(c, l, i);
    }
  }

  lemma RelinkedSelf(c: Code, head: int, l: seq<int>)
    requires ListOk(c, head, l)
    ensures Relinked(c, c, l)
  {
    forall q | On(l, q) ensures 0 <= q < |c| && c[q].JMP? { ListMember(c, head, l, q); }
  }

  lemma Linked(c: Code, c': Code, l1: int, l2: int, a: seq<int>, b: seq<int>)
    requires ListOk(c, l1, a) && ListOk(c, l2, b) && Apart(a, b) && a != [] && b != []
    requires LinkOk(c, a, |a| - 1)
    requires c' == c[a[|a| - 1] := JMP(b[0] - (a[|a| - 1] + 1))]
    ensures ListOk(c', l1, a + b) && Relinked(c, c', a)
  {
    var z := a[|a| - 1];
    AtOn(a, |a| - 1);
    RelinkedSelf(c, l1, a);
    AtOn(b, 0);
    forall i, j | 0 <= i < j < |a + b| ensures (a + b)[i] != (a + b)[j] {
      if i < |a| <= j { AtOn(a, i); AtOn(b, j - |a|); }
    }
    forall i | 0 <= i < |a + b| ensures LinkOk(c', a + b, i) {
      if i < |a| {
        assert LinkOk(c, a, i);
      } else {
        assert LinkOk(c, b, i - |a|);
        AtOn(b, i - |a|);
      }
    }
  }

  lemma JumpAlone(c: Code, j: int)
    requires 0 <= j < |c| && c[j] == JMP(NO_JUMP)
    ensures ListOk(c, j, [j])
  {
  }

  lemma SameCode(c: Code, c': Code)
    requires Patched(c, c', [], |c|, NO_REG, |c|)
    ensures c' == c
  {
    forall q | 0 <= q < |c| ensures c'[q] == c[q] { assert PatchedAt(c, c', [], |c|, NO_REG, |c|, q); }
  }

  lemma RemovedOne(c0: Code, c1: Code, c2: Code, head: int, l: seq<int>, i: nat)
    requires ListOk(c0, head, l) && i < |l| && LinkOk(c0, l, i) && ValuesRemoved(c0, c1, l[..i])
    requires c2 == if Sets(c1, l[i]) then c1[l[i] - 1 := PatchTest(c1[l[i] - 1], NO_REG)] else c1
    ensures ValuesRemoved(c0, c2, l[..i + 1])
  {
    forall q | 0 <= q < |c0| ensures c2[q] == if On(l[..i + 1], q + 1) then PatchTest(c0[q], NO_REG) else c0[q] {
      OnNext(l, i, q + 1);
      if q == l[i] - 1 { NotBefore(l, i); }
    }
  }

  lemma OnNext(l: seq<int>, i: nat, q: int)
    requires i < |l|
    ensures On(l[..i + 1], q) <==> On(l[..i], q) || q == l[i]
  {
    assert l[..i + 1] == l[..i] + [l[i]];
    OnConcat(l[..i], [l[i]], q);
    var r := q;
    assert r in [l[i]] <==> r == l[i];
  }

  lemma NotBefore(l: seq<int>, i: nat)
    requires NoDup(l) && i < |l|
    ensures !On(l[..i], l[i])
  {
    if On(l[..i], l[i]) { OnAt(l[..i], l[i]); }
  }

  lemma PatchedNone(c: Code, l: seq<int>, vtarget: int, reg: int, dtarget: int)
    ensures Patched(c, c, l[..0], vtarget, reg, dtarget)
  {
    assert l[..0] == [];
  }

  /** Jump `l[i]` and its test are untouched while the jumps before it are patched. */
  lemma Unpatched(c0: Code, c1: Code, head: int, l: seq<int>, i: nat, vtarget: int, reg: int, dtarget: int)
    requires ListOk(c0, head, l) && i <= |l| && Patched(c0, c1, l[..i], vtarget, reg, dtarget)
    ensures i < |l| ==> LinkOk(c0, l, i) && c1[l[i]] == c0[l[i]] && Sets(c1, l[i]) == Sets(c0, l[i])
    ensures i < |l| && Sets(c0, l[i]) ==> c1[l[i] - 1] == c0[l[i] - 1]
    ensures At(l, i) != NO_JUMP ==> i < |l|
    ensures i < |l| ==> On(l, l[i])
  {
    if i < |l| {
      var q := l[i];
      AtOn(l, i);
      NotBefore(l, i);
      assert LinkOk(c0, l, i) && PatchedAt(c0, c1, l[..i], vtarget, reg, dtarget, q);
      if q > 0 {
        assert PatchedAt(c0, c1, l[..i], vtarget, reg, dtarget, q - 1);
        if On(l[..i], q - 1) {
          OnAt(l[..i], q - 1);
          var j :| 0 <= j < |l[..i]| && l[..i][j] == q - 1;
          assert LinkOk(c0, l, j);
        }
      }
    }
  }

  lemma PatchedOne(c0: Code, c1: Code, c2: Code, c3: Code, head: int, l: seq<int>, i: nat, vtarget: int, reg: int, dtarget: int)
    requires ListOk(c0, head, l) && i < |l| && Patched(c0, c1, l[..i], vtarget, reg, dtarget)
    requires LinkOk(c0, l, i) && Sets(c1, l[i]) == Sets(c0, l[i]) && (Sets(c0, l[i]) ==> c1[l[i] - 1] == c0[l[i] - 1])
    requires c2 == if Sets(c1, l[i]) then c1[l[i] - 1 := PatchTest(c1[l[i] - 1], reg)] else c1
    requires c3 == c2[l[i] := JMP((if Sets(c0, l[i]) then vtarget else dtarget) - (l[i] + 1))]
    ensures Patched(c0, c3, l[..i + 1], vtarget, reg, dtarget)
  {
    var done := l[..i + 1];
    forall q | 0 <= q < |c0| ensures PatchedAt(c0, c3, done, vtarget, reg, dtarget, q) {
      OnNext(l, i, q);
      OnNext(l, i, q + 1);
      assert PatchedAt(c0, c1, l[..i], vtarget, reg, dtarget, q);
      if q == l[i] - 1 && On(l[..i], q) {
        NotBefore(l, i);
      }
    }
  }
}
