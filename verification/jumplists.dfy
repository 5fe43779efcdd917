/** Lists of pending jumps, threaded through the offsets of the jumps themselves, and the state of the code
    generator as far as the emitted code is concerned. */
module JumpLists {
  import opened Machine

  const NO_JUMP := -1

  predicate IsJump(code: seq<Instr>, p: int) {
    0 <= p < |code| && code[p].Jmp?
  }

  /** getjump: the next element of the list that `p` is on. */
  function GetJump(code: seq<Instr>, p: int): int
    requires IsJump(code, p)
  {
    if code[p].sbx == NO_JUMP then NO_JUMP else p + 1 + code[p].sbx
  }

  function Link(l: seq<int>, i: nat): int
    requires i < |l|
  {
    if i + 1 < |l| then l[i + 1] - (l[i] + 1) else NO_JUMP
  }

  predicate NoDup(l: seq<int>) {
    forall i, j :: 0 <= i < j < |l| ==> l[i] != l[j]
  }

  predicate Disjoint(a: seq<int>, b: seq<int>) {
    forall p :: p in a ==> p !in b
  }

  /** The jumps of `l`, in this order, form the list that starts at `head`. */
  ghost predicate IsList(code: seq<Instr>, head: int, l: seq<int>) {
    && head == (if l == [] then NO_JUMP else l[0])
    && NoDup(l)
    && (forall i :: 0 <= i < |l| ==> IsJump(code, l[i]) && code[l[i]].sbx == Link(l, i))
    && (forall p :: p in l ==> NoTarget(code, p))
  }

  /** The test that controls the jump `p`, if there is one, does not set a register. */
  predicate NoTarget(code: seq<Instr>, p: int) {
    1 <= p <= |code| && code[p - 1].TestSet? ==> code[p - 1].t.NoReg?
  }

  /** A list is acyclic: following the links from its head ends. */
  lemma ListNext(code: seq<Instr>, head: int, l: seq<int>, i: nat)
    requires IsList(code, head, l) && i < |l|
    ensures IsJump(code, l[i]) && GetJump(code, l[i]) == if i + 1 < |l| then l[i + 1] else NO_JUMP
  {
    if i + 1 < |l| {
      assert l[i] != l[i + 1] && IsJump(code, l[i + 1]);
    }
  }

  /** All jumps of `l` lead to `dest`, and the tests that control them set no register. */
  ghost predicate IsPatched(code: seq<Instr>, code1: seq<Instr>, l: seq<int>, dest: int) {
    && |code1| == |code|
    && forall q :: 0 <= q < |code| ==> code1[q] == PatchedInstr(code, l, dest, q)
  }

  function PatchedInstr(code: seq<Instr>, l: seq<int>, dest: int, q: int): Instr
    requires 0 <= q < |code|
  {
    if q in l then Jmp(dest - (q + 1))
    else if q + 1 in l && code[q].TestSet? then Test(code[q].b, code[q].c)
    else code[q]
  }

  lemma PatchedNone(code: seq<Instr>, dest: int)
    ensures IsPatched(code, code, [], dest)
  {
  }

  /** Patching one jump, and its control, in front of a list that is patched. */
  lemma PatchedOne(code: seq<Instr>, code1: seq<Instr>, code2: seq<Instr>, l: seq<int>, i: nat, dest: int)
    requires i < |l| && NoDup(l) && (forall j :: 0 <= j < |l| ==> IsJump(code, l[j])) && IsPatched(code, code1, l[..i], dest)
    requires IsPatched(code1, code2, [l[i]], dest)
    ensures IsPatched(code, code2, l[..i + 1], dest)
  {
    assert l[..i + 1] == l[..i] + [l[i]];
    forall q | 0 <= q < |code|
      ensures code2[q] == PatchedInstr(code, l[..i + 1], dest, q)
    {
      assert code1[q] == PatchedInstr(code, l[..i], dest, q);
      assert q in l[..i + 1] <==> q in l[..i] || q == l[i];
      assert q + 1 in l[..i + 1] <==> q + 1 in l[..i] || q + 1 == l[i];
    }
  }

  /** The part of the state that concerns the code: `js` is the list `jpc`, and `tr` is a run of the code so
      far, from an arbitrary initial state. */
  datatype Gen = Gen(code: seq<Instr>, k: seq<Value>, jpc: int, js: seq<int>, lasttarget: int, tr: seq<Config>)
  {
    function Pc(): int requires tr != [] { Last(tr).pc }
    function Regs(): Regs requires tr != [] { Last(tr).g }
  }

  /** The run has got to the end of the code, or to a jump that will lead there. */
  predicate Live(s: Gen)
    requires s.tr != []
  {
    s.Pc() == |s.code| || s.Pc() in s.js
  }

  ghost predicate Clean(g: Regs, n: nat) {
    forall r: nat :: r >= n ==> At(g, r) == Nil
  }

  /** A position that is not a jump target is reached from the instruction before it. */
  ghost predicate FromBefore(s: Gen)
    requires s.tr != []
  {
    var p := s.Pc();
    p > s.lasttarget && 0 < p <= |s.code| && !s.code[p - 1].Jmp? ==> |s.tr| >= 2 && s.tr[|s.tr| - 2].pc == p - 1
  }

  ghost predicate ConstsOk(s: Gen) {
    forall i :: 0 <= i < |s.code| ==> ConstsIn(s.code[i], |s.k|)
  }

  ghost predicate Unvisited(s: Gen, l: seq<int>) {
    forall p :: p in l ==> !Visited(s.tr, p)
  }

  ghost predicate RunOk(m: Arithmetic, s: Gen, nactvar: nat) {
    && IsRun(m, s.k, s.code, s.tr) && s.tr[0].pc == 0 && Clean(s.tr[0].g, nactvar)
    && s.Pc() <= |s.code| && FromBefore(s)
  }

  ghost predicate GenInv(m: Arithmetic, s: Gen, nactvar: nat) {
    && IsList(s.code, s.jpc, s.js) && (s.js != [] ==> s.lasttarget == |s.code|) && s.lasttarget <= |s.code|
    && ConstsOk(s) && RunOk(m, s, nactvar) && Unvisited(s, s.js) && NoTarget(s.code, |s.code|)
  }

  // ---- concatenation ----

  lemma NoDupJoined(a: seq<int>, b: seq<int>)
    requires NoDup(a) && NoDup(b) && Disjoint(a, b)
    ensures NoDup(a + b)
  {
    var l := a + b;
    forall i, j | 0 <= i < j < |l|
      ensures l[i] != l[j]
    {
      if i < |a| && j >= |a| {
        assert l[i] in a && l[j] in b;
      }
    }
  }

  lemma LinkLeft(code: seq<Instr>, h1: int, l1: seq<int>, h2: int, l2: seq<int>, i: nat)
    requires IsList(code, h1, l1) && IsList(code, h2, l2) && l2 != [] && i < |l1|
    ensures var last := l1[|l1| - 1]; var l := l1 + l2;
      0 <= last < |code| && IsJump(code[last := Jmp(h2 - (last + 1))], l[i]) && code[last := Jmp(h2 - (last + 1))][l[i]].sbx == Link(l, i)
  {
    hide NoTarget;
    assert IsJump(code, l1[|l1| - 1]) && IsJump(code, l1[i]);
  }

  lemma LinkRight(code: seq<Instr>, h1: int, l1: seq<int>, h2: int, l2: seq<int>, i: nat)
    requires IsList(code, h1, l1) && IsList(code, h2, l2) && Disjoint(l1, l2) && l1 != [] && i < |l2|
    ensures var last := l1[|l1| - 1]; var l := l1 + l2;
      0 <= last < |code| && IsJump(code[last := Jmp(h2 - (last + 1))], l[|l1| + i]) && code[last := Jmp(h2 - (last + 1))][l[|l1| + i]].sbx == Link(l, |l1| + i)
  {
    hide NoTarget;
    assert IsJump(code, l1[|l1| - 1]) && IsJump(code, l2[i]);
    assert l1[|l1| - 1] in l1 && l2[i] in l2;
  }

  lemma Concatenated(code: seq<Instr>, h1: int, l1: seq<int>, h2: int, l2: seq<int>)
    requires IsList(code, h1, l1) && IsList(code, h2, l2) && Disjoint(l1, l2) && l1 != [] && l2 != []
    ensures var last := l1[|l1| - 1]; 0 <= last < |code| && IsList(code[last := Jmp(h2 - (last + 1))], h1, l1 + l2)
  {
    var last, l := l1[|l1| - 1], l1 + l2;
    LinkLeft(code, h1, l1, h2, l2, |l1| - 1);
    var code1 := code[last := Jmp(h2 - (last + 1))];
    NoDupJoined(l1, l2);
    assert forall p :: NoTarget(code, p) ==> NoTarget(code1, p);
    forall i | 0 <= i < |l|
      ensures IsJump(code1, l[i]) && code1[l[i]].sbx == Link(l, i)
    {
      if i < |l1| {
        LinkLeft(code, h1, l1, h2, l2, i);
      } else {
        LinkRight(code, h1, l1, h2, l2, i - |l1|);
      }
    }
    hide NoTarget;
    hide IsJump;
    hide Link;
    assert forall p :: p in l ==> NoTarget(code, p);
  }

  /** A list is not affected by changes elsewhere. */
  lemma ListKept(code: seq<Instr>, code1: seq<Instr>, h: int, l: seq<int>)
    requires IsList(code, h, l)
    requires forall p :: p in l ==> p < |code1| && code1[p] == code[p] && (p >= 1 && code1[p - 1].TestSet? ==> code1[p - 1] == code[p - 1])
    ensures IsList(code1, h, l)
  {
    forall i | 0 <= i < |l|
      ensures IsJump(code1, l[i]) && code1[l[i]].sbx == Link(l, i)
    {
      assert l[i] in l && IsJump(code, l[i]);
    }
    forall p | p in l
      ensures NoTarget(code1, p)
    {
      assert NoTarget(code, p);
    }
  }

  lemma ListInCode(code: seq<Instr>, h: int, l: seq<int>)
    requires IsList(code, h, l)
    ensures forall p :: p in l ==> 0 <= p < |code| && code[p].Jmp?
  {
    forall p | p in l
      ensures 0 <= p < |code| && code[p].Jmp?
    {
      var i :| 0 <= i < |l| && l[i] == p;
      assert IsJump(code, l[i]);
    }
  }
}
