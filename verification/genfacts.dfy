/** What the operations of the code generator do to the code and to a run of it, one lemma for each step. */
module GenFacts {
  import opened Machine
  import opened JumpLists
  import opened GenSteps
  import opened GenExps

  const MAXARG_SBX := 131071
  const MAXARG_BX := 262143
  const MAXINDEXRK := 255
  const MAXSTACK := 250

  ghost predicate StartsAt(tr: seq<Config>, g: Regs) {
    tr != [] && tr[0] == Config(0, g)
  }

  lemma PatchedLength(code: seq<Instr>, code1: seq<Instr>, l: seq<int>, dest: int)
    requires IsPatched(code, code1, l, dest)
    ensures |code1| == |code|
  {
  }

  lemma AfterCodeIs(s: Gen, code1: seq<Instr>, i: Instr)
    requires s.tr != []
    ensures AfterCode(s, code1, i) == s.(code := code1 + [i], jpc := NO_JUMP, js := [],
      tr := if Last(s.tr).pc in s.js then s.tr + [Config(|s.code|, Last(s.tr).g)] else s.tr)
  {
  }

  ghost predicate ConstantsKnown(k: seq<Value>, h: map<Value, nat>) {
    && (forall v :: v in h ==> h[v] < |k| && k[h[v]] == v)
  }

  lemma NotNoJump(code: seq<Instr>, h: int, l: seq<int>)
    requires IsList(code, h, l)
    ensures (h == NO_JUMP <==> l == []) && (l != [] ==> h == l[0])
  {
    if l != [] {
      assert IsJump(code, l[0]);
    }
  }

  lemma StillList(code: seq<Instr>, code1: seq<Instr>, h: int, l: seq<int>, i: nat, dest: int)
    requires IsList(code, h, l) && i < |l| && IsPatched(code, code1, l[..i], dest)
    ensures IsJump(code1, l[i]) && GetJump(code1, l[i]) == if i + 1 < |l| then l[i + 1] else NO_JUMP
  {
    ListNext(code, h, l, i);
    assert l[i] !in l[..i];
    assert code1[l[i]] == PatchedInstr(code, l[..i], dest, l[i]);
  }

  lemma ListLast(code: seq<Instr>, h: int, l: seq<int>, i: nat)
    requires IsList(code, h, l) && i < |l| && (if i + 1 < |l| then l[i + 1] else NO_JUMP) == NO_JUMP
    ensures i == |l| - 1 && l[i] in l && 0 <= l[i] < |code|
  {
    assert IsJump(code, l[i]) && (i + 1 < |l| ==> IsJump(code, l[i + 1]));
  }

  lemma NoMore(code: seq<Instr>, h: int, l: seq<int>, i: nat)
    requires IsList(code, h, l) && i <= |l| && (if i < |l| then l[i] else NO_JUMP) == NO_JUMP
    ensures l[..i] == l
  {
    assert i < |l| ==> IsJump(code, l[i]);
  }

  /** The effect of patchtestreg. */
  ghost predicate TestPatched(code: seq<Instr>, code1: seq<Instr>, node: nat) {
    && |code1| == |code|
    && (forall q :: 0 <= q < |code| && !(q + 1 == node && code[q].TestSet?) ==> code1[q] == code[q])
    && (0 < node <= |code| && code[node - 1].TestSet? ==> code1[node - 1] == Test(code[node - 1].b, code[node - 1].c))
  }

  lemma JumpsOfList(code: seq<Instr>, code1: seq<Instr>, h: int, l: seq<int>, i: nat, dest: int)
    requires IsList(code, h, l) && i < |l| && IsPatched(code, code1, l[..i], dest)
    ensures NoDup(l) && (forall j :: 0 <= j < |l| ==> IsJump(code, l[j])) && IsJump(code1, l[i]) && |code1| == |code|
  {
    assert l[i] !in l[..i];
    assert code1[l[i]] == PatchedInstr(code, l[..i], dest, l[i]);
  }

  lemma OnePatched(code1: seq<Instr>, code2: seq<Instr>, p: int, dest: int)
    requires IsJump(code1, p) && exists c :: TestPatched(code1, c, p) && code2 == c[p := Jmp(dest - (p + 1))]
    ensures IsPatched(code1, code2, [p], dest)
  {
  }

  lemma PatchedStep(code: seq<Instr>, code1: seq<Instr>, code2: seq<Instr>, h: int, l: seq<int>, i: nat, dest: int)
    requires IsList(code, h, l) && i < |l| && IsPatched(code, code1, l[..i], dest) && 0 <= l[i] < |code1|
    requires exists c :: TestPatched(code1, c, l[i]) && code2 == c[l[i] := Jmp(dest - (l[i] + 1))]
    ensures IsPatched(code, code2, l[..i + 1], dest)
  {
    JumpsOfList(code, code1, h, l, i, dest);
    OnePatched(code1, code2, l[i], dest);
    hide *;
    PatchedOne(code, code1, code2, l, i, dest);
  }

  lemma JumpIs(n: nat)
    ensures ConstsIn(Jmp(NO_JUMP), n)
  {
  }

  lemma JumpCoded(m: Arithmetic, s0: Gen, s1: Gen, s2: Gen, n: nat)
    requires GenInv(m, s0, n) && s1 == s0.(jpc := NO_JUMP, js := []) && s1.tr != [] && Coded(s1, s2, Jmp(NO_JUMP)) && GenInv(m, s2, n)
    ensures s2.tr == s0.tr && |s2.code| == |s0.code| + 1 && s2.code[|s0.code|] == Jmp(NO_JUMP) && s2.js == []
    ensures forall q :: 0 <= q < |s0.code| ==> s2.code[q] == s0.code[q]
    ensures IsList(s2.code, |s0.code|, [|s0.code|]) && IsList(s2.code, s0.jpc, s0.js) && Disjoint([|s0.code|], s0.js)
    ensures !Visited(s2.tr, |s0.code|)
  {
    EndUnvisited(m, s0, n);
    hide RunOk;
    hide ConstsOk;
    hide Visited;
    hide IsList;
    forall q | 0 <= q < |s0.code|
      ensures s2.code[q] == s0.code[q]
    {
      assert s2.code[q] == PatchedInstr(s1.code, s1.js, |s1.code|, q);
    }
    assert NoTarget(s0.code, |s0.code|);
    ListInCode(s0.code, s0.jpc, s0.js);
    ListKept(s0.code, s2.code, s0.jpc, s0.js);
    SingleList(s2.code, |s0.code|);
  }

  lemma SingleList(code: seq<Instr>, p: nat)
    requires p < |code| && code[p] == Jmp(NO_JUMP) && NoTarget(code, p)
    ensures IsList(code, p, [p])
  {
  }

  lemma EndUnvisited(m: Arithmetic, s: Gen, n: nat)
    requires GenInv(m, s, n)
    ensures forall p :: p >= |s.code| ==> !Visited(s.tr, p)
  {
    forall p | p >= |s.code|
      ensures !Visited(s.tr, p)
    {
      if Visited(s.tr, p) {
        VisitedBefore(m, s.k, s.code, s.tr, p);
      }
    }
  }

  lemma JumpJoined(m: Arithmetic, s0: Gen, s2: Gen, s3: Gen, pc: nat, j: int, n: nat)
    requires GenInv(m, s0, n) && GenInv(m, s2, n) && s2.js == [] && s2.tr == s0.tr && pc == |s0.code| == |s2.code| - 1 && s2.code[pc] == Jmp(NO_JUMP)
    requires !Visited(s2.tr, pc) && s3 == s2.(code := s3.code) && |s3.code| == |s2.code| && IsList(s3.code, j, [pc] + s0.js)
    requires forall q :: 0 <= q < |s2.code| ==> s3.code[q] == s2.code[q] || (q in [pc] && s3.code[q].Jmp?)
    ensures GenInv(m, s3, n) && Unvisited(s3, [pc] + s0.js)
    ensures s0.js == [] ==> s3.code[pc] == Jmp(NO_JUMP)
  {
    Relinked(m, s2, s3.code, n);
    assert s0.js == [] ==> [pc] + s0.js == [pc];
    assert IsJump(s3.code, ([pc] + s0.js)[0]) && s3.code[([pc] + s0.js)[0]].sbx == Link([pc] + s0.js, 0);
  }

  /** A test with its jump, neither of which has been executed. */
  ghost predicate TestEmitted(s: Gen, s1: Gen, i: Instr) {
    && s.tr != [] && s1.tr != [] && s1.k == s.k && s1.lasttarget == s.lasttarget && s1.js == []
    && |s1.code| == |s.code| + 2 && s1.code[|s.code|] == i && s1.code[|s.code| + 1] == Jmp(NO_JUMP)
    && (Live(s) ==> Last(s1.tr) == Config(|s.code|, s.Regs())) && (!Live(s) ==> s1.tr == s.tr)
    && !Visited(s1.tr, |s.code|) && !Visited(s1.tr, |s.code| + 1)
    && NoTarget(s1.code, |s.code| + 1)
  }

  lemma TestCoded(m: Arithmetic, s0: Gen, s1: Gen, s2: Gen, i: Instr, j: int, l: seq<int>, n: nat)
    requires GenInv(m, s0, n) && GenInv(m, s1, n) && GenInv(m, s2, n) && s0.tr != [] && Coded(s0, s1, i) && (i.TestSet? ==> i.t.NoReg?)
    requires s2.js == [] && l == [|s1.code|] + s1.js && IsList(s2.code, j, l) && |s2.code| == |s1.code| + 1 && s2.tr == s1.tr
    requires forall q :: 0 <= q < |s1.code| ==> s2.code[q] == s1.code[q]
    requires s1.js == [] ==> s2.code[|s1.code|] == Jmp(NO_JUMP)
    requires s2.k == s1.k && s2.lasttarget == s1.lasttarget
    ensures TestEmitted(s0, s2, i) && 1 <= j == |s2.code| - 1 && l == [j] && Keeps(Here(s0), s0, s2)
  {
    hide GenInv;
    hide Visited;
    CodedKeeps(m, s0, s1, i, n);
    NotVisitedYet(m, s0, s1, n);
    TestKept(s0, s1, s2);
    hide Keeps;
  }

  lemma TestKept(s0: Gen, s1: Gen, s2: Gen)
    requires Keeps(Here(s0), s0, s1) && s2.js == [] && |s2.code| >= |s1.code| && s2.tr == s1.tr && s2.k == s1.k
    requires s2.lasttarget == s1.lasttarget && forall q :: 0 <= q < |s1.code| ==> s2.code[q] == s1.code[q]
    ensures Keeps(Here(s0), s0, s2)
  {
    hide Visited;
  }

  lemma NotVisitedYet(m: Arithmetic, s0: Gen, s1: Gen, n: nat)
    requires GenInv(m, s0, n) && GenInv(m, s1, n) && s0.tr != [] && |s1.code| >= |s0.code|
    requires forall p :: Visited(s1.tr, p) ==> Visited(s0.tr, p) || p in s0.js
    ensures forall p :: p >= |s0.code| ==> !Visited(s1.tr, p)
  {
    ListInCode(s0.code, s0.jpc, s0.js);
    EndUnvisited(m, s0, n);
  }

  lemma CodedKeeps(m: Arithmetic, s: Gen, s1: Gen, i: Instr, n: nat)
    requires GenInv(m, s, n) && s.tr != [] && Coded(s, s1, i)
    ensures Keeps(Here(s), s, s1)
  {
    hide Visited;
    forall q | 0 <= q < |s.code|
      ensures s.code[q].Jmp? && q !in Here(s).own ==> s1.code[q] == s.code[q]
      ensures s1.code[q].TestSet? ==> s1.code[q] == s.code[q]
    {
      assert s1.code[q] == PatchedInstr(s.code, s.js, |s.code|, q);
    }
  }

  lemma PlainIs(i: Instr)
    requires IsPlain(i)
    ensures !i.TestSet? && !i.Jmp? && !IsTest(i)
  {
  }

  /** The instruction has been emitted, and a run that was at the end has executed it. */
  ghost predicate Emitted(m: Arithmetic, s: Gen, s1: Gen, i: Instr) {
    && s.tr != [] && s1.tr != [] && s1.js == [] && s1.k == s.k && s1.lasttarget == s.lasttarget
    && |s1.code| == |s.code| + 1 && s1.code[|s.code|] == i
    && (Live(s) ==> Last(s1.tr) == Step(m, s.k, i, Config(|s.code|, s.Regs())) && s1.Pc() == |s1.code|)
    && (!Live(s) ==> s1.tr == s.tr)
  }

  lemma CodedIs(s: Gen, s1: Gen, i: Instr)
    requires s.tr != [] && Coded(s, s1, i)
    ensures |s1.code| == |s.code| + 1 && s1.code[|s.code|] == i && s1.js == [] && s1.k == s.k
  {
  }

  lemma ExecutedCoded(m: Arithmetic, s: Gen, s1: Gen, s2: Gen, i: Instr, n: nat)
    requires GenInv(m, s, n) && s.tr != [] && s1.tr != [] && Coded(s, s1, i) && IsPlain(i)
    requires s2 == s1.(tr := s2.tr) && s2.tr != []
    requires Last(s1.tr).pc == |s1.code| - 1 ==> s2.tr == s1.tr + [Step(m, s1.k, s1.code[|s1.code| - 1], Last(s1.tr))] && Last(s2.tr).pc == |s1.code|
    requires Last(s1.tr).pc != |s1.code| - 1 ==> s2.tr == s1.tr
    requires forall p :: Visited(s2.tr, p) ==> Visited(s1.tr, p) || p == |s1.code| - 1
    ensures Emitted(m, s, s2, i) && Keeps(Here(s), s, s2)
  {
    hide Visited;
    CodedKeeps(m, s, s1, i, n);
    ListInCode(s.code, s.jpc, s.js);
    assert !Live(s) ==> s.Pc() != |s1.code| - 1;
  }

  // ---- luaK_nil ----

  /** The registers from..from+n-1 are nil for a run at the end. */
  ghost predicate Cleared(s: Gen, s1: Gen, from: nat, n: nat) {
    && s.tr != [] && s1.tr != [] && s1.js == [] && s1.k == s.k && |s1.code| >= |s.code|
    && (Live(s) ==> s1.Pc() == |s1.code|) && (!Live(s) ==> s1.tr == s.tr)
    && (Live(s) ==> forall r: nat :: At(s1.Regs(), r) == if from <= r < from + n then Value.Nil else At(s.Regs(), r))
  }

  lemma AlreadyClear(m: Arithmetic, s: Gen, from: nat, cnt: nat, n: nat)
    requires GenInv(m, s, n) && |s.code| == 0 && s.lasttarget < 0 && from >= n
    ensures Cleared(s, s, from, cnt) && Keeps(Here(s), s, s)
  {
    KeepsRefl(Here(s), s);
    if Live(s) && |s.tr| > 1 {
      Forward(m, s.k, s.code, s.tr, 0, |s.tr| - 1);
    }
  }

  lemma NilMergedIs(s: Gen, to: int)
    requires s.tr != [] && |s.code| > 0 && s.code[|s.code| - 1].LoadNil?
    ensures NilMerged(s, to) == s.(tr := NilMerged(s, to).tr, code := s.code[|s.code| - 1 := LoadNil(s.code[|s.code| - 1].a, to)])
  {
  }

  lemma NilCleared(m: Arithmetic, s: Gen, from: nat, cnt: nat, n: nat)
    requires GenInv(m, s, n) && |s.code| > s.lasttarget && |s.code| > 0 && s.code[|s.code| - 1].LoadNil? && cnt > 0
    requires var i := s.code[|s.code| - 1]; i.a <= from <= i.to + 1 && from + cnt - 1 > i.to
    ensures s.tr != [] && Cleared(s, NilMerged(s, from + cnt - 1), from, cnt) && Keeps(Here(s), s, NilMerged(s, from + cnt - 1))
  {
    var i, to := s.code[|s.code| - 1], from + cnt - 1;
    var s1 := NilMerged(s, to);
    NilMergedInv(m, s, to, n);
    if Live(s) {
      var g := s.tr[|s.tr| - 2].g;
      forall r: nat
        ensures At(s1.Regs(), r) == if from <= r < from + cnt then Value.Nil else At(s.Regs(), r)
      {
        NilRangeAt(g, i.a, to, r);
        NilRangeAt(g, i.a, i.to, r);
      }
    }
    hide Visited;
    assert forall q :: 0 <= q < |s.code| ==> s1.code[q] == s.code[q] || (s.code[q].LoadNil? && s1.code[q].LoadNil?);
  }

  lemma NilStillClear(m: Arithmetic, s: Gen, from: nat, cnt: nat, n: nat)
    requires GenInv(m, s, n) && |s.code| > s.lasttarget && |s.code| > 0 && s.code[|s.code| - 1].LoadNil?
    requires var i := s.code[|s.code| - 1]; i.a <= from && from + cnt - 1 <= i.to
    ensures Cleared(s, s, from, cnt) && Keeps(Here(s), s, s)
  {
    var i := s.code[|s.code| - 1];
    KeepsRefl(Here(s), s);
    NilMergedInv(m, s, i.to, n);
    if Live(s) {
      forall r: nat
        ensures At(s.Regs(), r) == if from <= r < from + cnt then Value.Nil else At(s.Regs(), r)
      {
        NilRangeAt(s.tr[|s.tr| - 2].g, i.a, i.to, r);
      }
    }
  }

  lemma LoadNilIs(a: nat, to: int, n: nat)
    ensures IsPlain(LoadNil(a, to)) && ConstsIn(LoadNil(a, to), n)
  {
  }

  lemma NilLoaded(m: Arithmetic, s: Gen, s1: Gen, from: nat, cnt: nat)
    requires cnt > 0 && Emitted(m, s, s1, LoadNil(from, from + cnt - 1))
    ensures Cleared(s, s1, from, cnt)
  {
    if Live(s) {
      forall r: nat
        ensures At(s1.Regs(), r) == if from <= r < from + cnt then Value.Nil else At(s.Regs(), r)
      {
        NilRangeAt(s.Regs(), from, from + cnt - 1, r);
      }
    }
  }

  // ---- discharging ----

  /** luaK_dischargevars, for local variables; other values are available already. */
  function DischargeVars(e: ExpDesc): ExpDesc {
    if e.k.VLocal? then e.(k := VNonReloc(e.k.info)) else e
  }

  /** The value of `e` is in register `reg`, and no other register has changed. */
  ghost predicate ValueIn(m: Arithmetic, s: Gen, s1: Gen, e: ExpDesc, reg: nat) {
    && s.tr != [] && s1.tr != []
    && (Ready(s, e) ==> Live(s1) && At(s1.Regs(), reg) == ValueNow(m, s, e))
    && (Ready(s, e) ==> forall r: nat :: r != reg ==> At(s1.Regs(), r) == At(s.Regs(), r))
    && (!Ready(s, e) ==> s1.tr == s.tr)
  }

  function SetA(i: Instr, reg: nat): Instr {
    match i
    case ArithI(op, _, rb, rc) => ArithI(op, reg, rb, rc)
    case Unm(_, b) => Unm(reg, b)
    case Not(_, b) => Not(reg, b)
    case _ => i
  }

  lemma VarsIs(m: Arithmetic, s: Gen, e0: ExpDesc, e: ExpDesc, t: seq<int>, f: seq<int>, c: Scope)
    requires ExpOk(s, e0, t, f, c) && !e0.k.VJmp? && e == DischargeVars(e0)
    ensures ExpOk(s, e, t, f, c) && !e.k.VJmp? && !e.k.VLocal? && e.t == e0.t && e.f == e0.f
    ensures s.tr != [] && (Ready(s, e) <==> Ready(s, e0)) && ValueNow(m, s, e) == ValueNow(m, s, e0)
  {
    assert Lists(s, e, t, f, c) by { hide KindOk; hide RunAt; }
  }

  lemma SameValueIn(m: Arithmetic, s: Gen, s1: Gen, e0: ExpDesc, e: ExpDesc, reg: nat)
    requires s.tr != [] && (Ready(s, e) <==> Ready(s, e0)) && ValueNow(m, s, e) == ValueNow(m, s, e0) && ValueIn(m, s, s1, e, reg)
    ensures ValueIn(m, s, s1, e0, reg)
  {
  }

  /** The frame part: the lists stay, and a run that is not at the expression stays where it is. */
  lemma DischargedFrame(m: Arithmetic, s: Gen, s1: Gen, e: ExpDesc, e1: ExpDesc, reg: nat, t: seq<int>, f: seq<int>, c: Scope)
    requires ExpOk(s, e, t, f, c) && e1 == ExpDesc(VNonReloc(reg), e.t, e.f) && Keeps(Here(s), s, s1) && s1.js == []
    requires ValueIn(m, s, s1, e, reg)
    ensures ExpOk(s1, e1, t, f, c) && Keeps(c, s, s1)
  {
    ListsKept(s, s1, e, e1, t, f, c);
    KeepsHere(c, s, s1);
    hide Lists;
    hide Keeps;
  }

  lemma EmittedValue(m: Arithmetic, s: Gen, s1: Gen, e: ExpDesc, e1: ExpDesc, i: Instr, reg: nat, t: seq<int>, f: seq<int>, c: Scope)
    requires ExpOk(s, e, t, f, c) && e1 == ExpDesc(VNonReloc(reg), e.t, e.f) && !e.k.VJmp? && !e.k.VRelocable?
    requires IsPlain(i) && !i.LoadNil? && i.a == reg && s.tr != [] && Emitted(m, s, s1, i) && Keeps(Here(s), s, s1)
    requires Result(m, s.k, i, s.Regs()) == ValueNow(m, s, e)
    ensures ExpOk(s1, e1, t, f, c) && Keeps(c, s, s1) && ValueIn(m, s, s1, e, reg) && s1.js == []
  {
    hide Lists;
    hide Keeps;
    DischargedFrame(m, s, s1, e, e1, reg, t, f, c);
  }

  lemma ClearedValue(m: Arithmetic, s: Gen, s1: Gen, e: ExpDesc, e1: ExpDesc, reg: nat, t: seq<int>, f: seq<int>, c: Scope)
    requires ExpOk(s, e, t, f, c) && e1 == ExpDesc(VNonReloc(reg), e.t, e.f) && e.k.VNil?
    requires s.tr != [] && Cleared(s, s1, reg, 1) && Keeps(Here(s), s, s1)
    ensures ExpOk(s1, e1, t, f, c) && Keeps(c, s, s1) && ValueIn(m, s, s1, e, reg) && s1.js == []
  {
    hide Lists;
    hide Keeps;
    DischargedFrame(m, s, s1, e, e1, reg, t, f, c);
  }

  lemma LoadBoolIs(m: Arithmetic, s: Gen, e: ExpDesc, reg: nat)
    requires (e.k.VTrue? || e.k.VFalse?) && s.tr != []
    ensures var i := LoadBool(reg, e.k.VTrue?);
      IsPlain(i) && !i.LoadNil? && ConstsIn(i, |s.k|) && Result(m, s.k, i, s.Regs()) == ValueNow(m, s, e)
  {
  }

  lemma LoadKIs(m: Arithmetic, s: Gen, e: ExpDesc, n: nat, reg: nat, t: seq<int>, f: seq<int>, c: Scope)
    requires e.k == VK(n) && ExpOk(s, e, t, f, c)
    ensures s.tr != [] && IsPlain(LoadK(reg, n)) && ConstsIn(LoadK(reg, n), |s.k|) && Result(m, s.k, LoadK(reg, n), s.Regs()) == ValueNow(m, s, e)
  {
    hide Lists;
  }

  lemma LoadNumIs(m: Arithmetic, s: Gen, e: ExpDesc, i: nat, reg: nat)
    requires e.k.VKNum? && i < |s.k| && s.k[i] == Number(e.k.nval) && s.tr != []
    ensures IsPlain(LoadK(reg, i)) && ConstsIn(LoadK(reg, i), |s.k|) && Result(m, s.k, LoadK(reg, i), s.Regs()) == ValueNow(m, s, e)
  {
  }

  lemma MoveIs(m: Arithmetic, s: Gen, e: ExpDesc, r: nat, reg: nat)
    requires e.k == VNonReloc(r) && s.tr != []
    ensures IsPlain(Move(reg, r)) && ConstsIn(Move(reg, r), |s.k|) && Result(m, s.k, Move(reg, r), s.Regs()) == ValueNow(m, s, e)
  {
  }

  /** A new constant changes nothing else. */
  lemma MoreConstants(m: Arithmetic, s: Gen, s1: Gen, e: ExpDesc, t: seq<int>, f: seq<int>, c: Scope)
    requires ExpOk(s, e, t, f, c) && s.k <= s1.k && s1 == s.(k := s1.k)
    ensures ExpOk(s1, e, t, f, c) && Keeps(c, s, s1) && s.tr != [] && (Ready(s1, e) <==> Ready(s, e))
    ensures !e.k.VRelocable? && !e.k.VJmp? ==> ValueNow(m, s1, e) == ValueNow(m, s, e)
  {
    KeepsRefl(c, s);
    assert Lists(s1, e, t, f, c);
    hide Lists;
  }

  lemma ValueAfter(m: Arithmetic, s: Gen, s1: Gen, s2: Gen, e: ExpDesc, e1: ExpDesc, reg: nat, c: Scope)
    requires s.tr != [] && s1 == s.(k := s1.k) && !e.k.VRelocable? && !e.k.VJmp? && ValueNow(m, s1, e) == ValueNow(m, s, e)
    requires Keeps(c, s, s1) && Keeps(c, s1, s2) && ValueIn(m, s1, s2, e, reg)
    ensures Keeps(c, s, s2) && ValueIn(m, s, s2, e, reg)
  {
    KeepsTrans(c, s, s1, s2);
  }

  lemma AlreadyThere(m: Arithmetic, s: Gen, e: ExpDesc, e1: ExpDesc, t: seq<int>, f: seq<int>, c: Scope)
    requires ExpOk(s, e, t, f, c) && e.k.VNonReloc? && e1 == ExpDesc(e.k, e.t, e.f)
    ensures ExpOk(s, e1, t, f, c) && Keeps(c, s, s) && ValueIn(m, s, s, e, e.k.info)
  {
    KeepsRefl(c, s);
    hide Lists;
  }

  /** The register of a relocatable instruction can still be chosen. */
  lemma RelocIs(m: Arithmetic, s: Gen, e: ExpDesc, reg: nat, t: seq<int>, f: seq<int>, c: Scope, n: nat)
    requires GenInv(m, s, n) && ExpOk(s, e, t, f, c) && e.k.VRelocable?
    ensures e.k.info == |s.code| - 1 && IsPlain(SetA(s.code[e.k.info], reg)) && s.js == []
    ensures GenInv(m, s.(code := s.code[e.k.info := SetA(s.code[e.k.info], reg)]), n)
  {
    hide Lists;
    assert ConstsIn(s.code[e.k.info], |s.k|);
    LastReplaced(m, s, e.k.info, SetA(s.code[e.k.info], reg), n);
  }

  lemma RelocValue(m: Arithmetic, s: Gen, s1: Gen, s2: Gen, e: ExpDesc, e1: ExpDesc, reg: nat, t: seq<int>, f: seq<int>, c: Scope)
    requires ExpOk(s, e, t, f, c) && e.k.VRelocable? && e1 == ExpDesc(VNonReloc(reg), e.t, e.f) && e.k.info == |s.code| - 1
    requires s1 == s.(code := s.code[e.k.info := SetA(s.code[e.k.info], reg)]) && s2 == s1.(tr := s2.tr) && s2.tr != [] && s.tr != [] && s.js == []
    requires Last(s.tr).pc == |s.code| - 1 ==> s2.tr == s1.tr + [Step(m, s1.k, s1.code[|s1.code| - 1], Last(s1.tr))] && Last(s2.tr).pc == |s1.code|
    requires Last(s.tr).pc != |s.code| - 1 ==> s2.tr == s1.tr
    requires forall p :: Visited(s2.tr, p) ==> Visited(s1.tr, p) || p == |s1.code| - 1
    ensures ExpOk(s2, e1, t, f, c) && Keeps(c, s, s2) && ValueIn(m, s, s2, e, reg)
  {
    hide Visited;
    RelocLists(s, s2, e, e1, t, f, c);
    hide Lists;
  }

  lemma RelocLists(s: Gen, s2: Gen, e: ExpDesc, e1: ExpDesc, t: seq<int>, f: seq<int>, c: Scope)
    requires ExpOk(s, e, t, f, c) && e.k.VRelocable? && e1.t == e.t && e1.f == e.f && s2.js == s.js && |s2.code| == |s.code|
    requires forall q :: 0 <= q < |s.code| - 1 ==> s2.code[q] == s.code[q]
    requires !s2.code[|s.code| - 1].Jmp? && !s2.code[|s.code| - 1].TestSet?
    requires forall p :: Visited(s2.tr, p) ==> Visited(s.tr, p) || p == |s.code| - 1
    ensures Lists(s2, e1, t, f, c)
  {
    hide Visited;
    hide RunAt;
    hide IsList;
    ListBefore(s, s2, e.t, t);
    ListBefore(s, s2, e.f, f);
  }

  lemma ListBefore(s: Gen, s2: Gen, h: int, l: seq<int>)
    requires IsList(s.code, h, l) && |s2.code| == |s.code| > 0 && !s.code[|s.code| - 1].Jmp?
    requires forall q :: 0 <= q < |s.code| - 1 ==> s2.code[q] == s.code[q]
    requires !s2.code[|s.code| - 1].Jmp? && !s2.code[|s.code| - 1].TestSet?
    requires forall p :: Visited(s2.tr, p) ==> Visited(s.tr, p) || p == |s.code| - 1
    ensures IsList(s2.code, h, l) && (Unvisited(s, l) ==> Unvisited(s2, l))
  {
    hide Visited;
    ListInCode(s.code, h, l);
    JumpsBefore(s.code, s2.code, h, l);
    hide IsList;
  }

  lemma JumpsBefore(code: seq<Instr>, code2: seq<Instr>, h: int, l: seq<int>)
    requires IsList(code, h, l) && |code2| == |code| > 0 && !code[|code| - 1].Jmp?
    requires forall q :: 0 <= q < |code| - 1 ==> code2[q] == code[q]
    requires !code2[|code| - 1].Jmp? && !code2[|code| - 1].TestSet?
    ensures IsList(code2, h, l)
  {
    hide IsList;
    ListInCode(code, h, l);
    forall p | p in l
      ensures p < |code2| && code2[p] == code[p] && (p >= 1 && code2[p - 1].TestSet? ==> code2[p - 1] == code[p - 1])
    {
      assert 0 <= p < |code| - 1;
      assert p >= 1 ==> code2[p - 1] == code[p - 1];
    }
    ListKept(code, code2, h, l);
  }

  // ---- tests and jumps ----

  lemma DelayedRegs(e: ExpDesc, base: nat, freereg: nat, nactvar: nat)
    requires RegsOk(e, base, freereg, nactvar) && !e.k.VNonReloc?
    ensures freereg == base
  {
  }

  lemma TempRegs(e: ExpDesc, base: nat, freereg: nat, nactvar: nat)
    requires e.k == VNonReloc(base) && freereg == base + 1 && nactvar <= base
    ensures RegsOk(e, base, freereg, nactvar)
  {
  }

  lemma TempOf(e: ExpDesc, r: nat, base: nat, freereg: nat, nactvar: nat)
    requires RegsOk(e, base, freereg, nactvar) && e.k == VNonReloc(r) && nactvar <= base
    ensures r >= nactvar ==> freereg == r + 1 && r == base
    ensures r < nactvar ==> freereg == base
  {
  }

  lemma TestSetIs(r: nat, cond: bool, n: nat)
    ensures IsTest(TestSet(NoReg, r, cond)) && ConstsIn(TestSet(NoReg, r, cond), n)
  {
  }

  lemma ListsOf(s: Gen, e: ExpDesc, t: seq<int>, f: seq<int>, c: Scope)
    requires ExpOk(s, e, t, f, c)
    ensures Lists(s, e, t, f, c)
  {
  }

  lemma TestNow(s: Gen, s1: Gen, i: Instr)
    requires TestEmitted(s, s1, i) && IsTest(i)
    ensures |s1.code| >= 2 && s1.code[|s1.code| - 2] == i && IsTest(s1.code[|s1.code| - 2]) && s1.code[|s1.code| - 1].Jmp?
    ensures NoTarget(s1.code, |s1.code| - 1) && s1.js == []
  {
  }

  /** A run that was at the end has executed the test and is at the jump or behind it. */
  ghost predicate Branched(m: Arithmetic, s: Gen, s1: Gen, i: Instr, j: int) {
    && s.tr != [] && s1.tr != [] && j == |s1.code| - 1 && |s1.code| >= |s.code|
    && (Live(s) ==> s1.Regs() == s.Regs() && s1.Pc() == if Taken(m, s.k, i, s.Regs()) then j else |s1.code|)
    && (!Live(s) ==> s1.tr == s.tr)
  }

  lemma TestedLists(m: Arithmetic, s: Gen, s1: Gen, s2: Gen, i: Instr, e: ExpDesc, j: int, l: seq<int>, t: seq<int>, f: seq<int>, c: Scope, n: nat)
    requires GenInv(m, s, n) && Lists(s, e, t, f, c) && TestEmitted(s, s1, i) && Keeps(Here(s), s, s1)
    requires j == |s1.code| - 1 && l == [j] && IsList(s1.code, j, l) && s2 == s1.(tr := s2.tr) && s2.tr != []
    requires Last(s1.tr).pc == |s1.code| - 2 ==> (Last(s2.tr).g == Last(s1.tr).g
      && Last(s2.tr).pc == if Taken(m, s1.k, s1.code[|s1.code| - 2], Last(s1.tr).g) then |s1.code| - 1 else |s1.code|)
    requires Last(s1.tr).pc != |s1.code| - 2 ==> s2.tr == s1.tr
    requires forall p :: Visited(s2.tr, p) ==> Visited(s1.tr, p) || p == |s1.code| - 2
    ensures Lists(s2, e, t, f, c) && ThirdList(s2, j, l, t, f, c) && Keeps(c, s, s2) && Branched(m, s, s2, i, j)
  {
    ListInCode(s.code, e.t, t);
    ListInCode(s.code, e.f, f);
    ListInCode(s.code, s.jpc, s.js);
    hide Visited;
    assert !Live(s) ==> s.Pc() != |s1.code| - 2;
    assert Keeps(Here(s), s, s2);
    hide IsList;
    ListsKept(s, s2, e, e, t, f, c);
    KeepsHere(c, s, s2);
  }

  function Flipped(i: Instr): Instr {
    if i.CompareI? then i.(jmp := !i.jmp) else i
  }

  ghost predicate Inverted(m: Arithmetic, s: Gen, s1: Gen, e: ExpDesc) {
    && s.tr != [] && s1.tr != [] && (Ready(s1, e) <==> Ready(s, e))
    && (Truthy(ValueNow(m, s1, e)) <==> !Truthy(ValueNow(m, s, e)))
  }

  lemma JumpControlled(m: Arithmetic, s: Gen, e: ExpDesc, t: seq<int>, f: seq<int>, c: Scope, n: nat)
    requires GenInv(m, s, n) && ExpOk(s, e, t, f, c) && e.k.VJmp?
    ensures IsJump(s.code, e.k.info) && 1 <= e.k.info == |s.code| - 1 && IsTest(s.code[e.k.info - 1])
    ensures GenInv(m, s.(code := s.code[e.k.info - 1 := Flipped(s.code[e.k.info - 1])]), n)
  {
    hide Lists;
    var p := e.k.info - 1;
    assert ConstsIn(s.code[p], |s.k|);
    LastReplaced(m, s, p, Flipped(s.code[p]), n);
  }

  lemma InvertedIs(m: Arithmetic, s: Gen, s1: Gen, e: ExpDesc, t: seq<int>, f: seq<int>, c: Scope, n: nat)
    requires GenInv(m, s, n) && ExpOk(s, e, t, f, c) && e.k.VJmp? && e.k.info >= 1
    requires e.k.info < |s.code| && s1 == s.(code := s.code[e.k.info - 1 := Flipped(s.code[e.k.info - 1])])
    ensures GenInv(m, s1, n) && ExpOk(s1, e, t, f, c) && Keeps(c, s, s1) && Inverted(m, s, s1, e)
  {
    hide Lists;
    JumpControlled(m, s, e, t, f, c, n);
    hide GenInv;
    KeepsRefl(c, s);
    ListsStay(s, s1, e, e, t, f, c) by { ScopeBelow(s, e, t, f, c); }
    ScopeBelow(s, e, t, f, c);
  }

  lemma ScopeBelow(s: Gen, e: ExpDesc, t: seq<int>, f: seq<int>, c: Scope)
    requires Lists(s, e, t, f, c)
    ensures c.n <= |s.code|
  {
  }

  /** The outcome of jumponcond: the run is at the jump if the truth of the value is `cond`. */
  ghost predicate Decided(m: Arithmetic, s: Gen, s1: Gen, e: ExpDesc, l: seq<int>, cond: bool, base: nat) {
    && s.tr != [] && s1.tr != []
    && (Ready(s, e) ==> Agree(s.Regs(), s1.Regs(), base))
    && (Ready(s, e) ==> if Truthy(ValueNow(m, s, e)) == cond then s1.Pc() in l else Live(s1))
    && (!Ready(s, e) ==> s1.tr == s.tr)
  }

  lemma RelocLast(m: Arithmetic, s: Gen, e: ExpDesc, t: seq<int>, f: seq<int>, c: Scope, n: nat)
    requires GenInv(m, s, n) && ExpOk(s, e, t, f, c) && e.k.VRelocable?
    ensures e.k.info == |s.code| - 1
  {
  }

  lemma NotRemoved(m: Arithmetic, s: Gen, e: ExpDesc, t: seq<int>, f: seq<int>, c: Scope, base: nat, freereg: nat, n: nat)
    requires GenInv(m, s, n) && ExpOk(s, e, t, f, c) && e.k.VRelocable? && e.k.info == |s.code| - 1 && s.code[e.k.info].Not?
    requires RegsOk(e, base, freereg, n)
    ensures var s1 := s.(code := s.code[..|s.code| - 1]); GenInv(m, s1, n) && Lists(s1, e, t, f, c) && Keeps(c, s, s1)
    ensures s.js == [] && freereg == base
    ensures forall b: nat, cond: bool :: IsTest(Test(b, cond)) && ConstsIn(Test(b, cond), |s.k|)
  {
    var s1 := s.(code := s.code[..|s.code| - 1]);
    NotAtEnd(m, s, e, t, f, c, n);
    LastRemoved(m, s, n);
    hide GenInv;
    hide Lists;
    ListsStay(s, s1, e, e, t, f, c);
  }

  /** While a relocatable instruction is pending, no run is behind it. */
  lemma NotAtEnd(m: Arithmetic, s: Gen, e: ExpDesc, t: seq<int>, f: seq<int>, c: Scope, n: nat)
    requires GenInv(m, s, n) && ExpOk(s, e, t, f, c) && (e.k.VRelocable? || e.k.VJmp?)
    ensures s.tr != [] && s.Pc() < |s.code| && s.js == [] && !Live(s)
  {
    ListInCode(s.code, e.t, t);
    ListInCode(s.code, e.f, f);
  }

  /** A run that is not at the expression is not at the end of the code. */
  lemma NotLive(s: Gen, e: ExpDesc, t: seq<int>, f: seq<int>, c: Scope)
    requires s.tr != [] && Lists(s, e, t, f, c) && (s.Pc() in t || s.Pc() in f || !Inside(s.Pc(), c))
    ensures !Live(s)
  {
    ListInCode(s.code, e.t, t);
    ListInCode(s.code, e.f, f);
  }

  lemma DecidedByNot(m: Arithmetic, s: Gen, s1: Gen, s2: Gen, e: ExpDesc, b: nat, j: int, l: seq<int>, cond: bool, t: seq<int>, f: seq<int>, c: Scope, base: nat)
    requires ExpOk(s, e, t, f, c) && e.k.VRelocable? && e.k.info == |s.code| - 1 && s.code[e.k.info].Not? && s.code[e.k.info].b == b
    requires s1 == s.(code := s.code[..|s.code| - 1]) && s.js == [] && l == [j] && Keeps(c, s, s1) && Keeps(c, s1, s2)
    requires Branched(m, s1, s2, Test(b, !cond), j)
    ensures Keeps(c, s, s2) && Decided(m, s, s2, e, l, cond, base)
  {
    KeepsTrans(c, s, s1, s2);
    hide Lists;
    hide Keeps;
    hide RunAt;
  }

  lemma DecidedByTest(m: Arithmetic, s: Gen, s1: Gen, s2: Gen, e: ExpDesc, e1: ExpDesc, r: nat, j: int, l: seq<int>, cond: bool, t: seq<int>, f: seq<int>, c: Scope, base: nat)
    requires ExpOk(s, e, t, f, c) && ExpOk(s1, e1, t, f, c) && e1.k == VNonReloc(r) && l == [j]
    requires Keeps(c, s, s1) && Keeps(c, s1, s2) && ValueIn(m, s, s1, e, r) && (r >= base || s1 == s)
    requires Branched(m, s1, s2, TestSet(NoReg, r, cond), j)
    requires Lists(s2, e1, t, f, c) && e1.t == e.t && e1.f == e.f
    ensures Keeps(c, s, s2) && Decided(m, s, s2, e, l, cond, base) && Lists(s2, e, t, f, c)
  {
    KeepsTrans(c, s, s1, s2);
    assert Lists(s2, e, t, f, c);
    if !Ready(s, e) {
      NotLive(s1, e1, t, f, c);
    }
    hide Lists;
    hide Keeps;
    hide RunAt;
  }

  // ---- going on if true, or if false ----

  /** A run whose expression has the truth `on` goes on; another one is at a jump of `l`. */
  ghost predicate WentOn(m: Arithmetic, s: Gen, s1: Gen, e: ExpDesc, here: seq<int>, away: seq<int>, l: seq<int>, on: bool, base: nat) {
    && s.tr != [] && s1.tr != []
    && (s.Pc() in here ==> Live(s1)) && (s.Pc() in away ==> s1.Pc() in l)
    && (Ready(s, e) ==> if Truthy(ValueNow(m, s, e)) == on then Live(s1) else s1.Pc() in l)
    && (Ready(s, e) ==> Agree(s.Regs(), s1.Regs(), base))
    && (!Ready(s, e) ==> s1.tr == s.tr)
  }

  lemma AnyVars(m: Arithmetic, s: Gen, e0: ExpDesc, e: ExpDesc, t: seq<int>, f: seq<int>, c: Scope, base: nat, freereg: nat, n: nat)
    requires ExpOk(s, e0, t, f, c) && e == DischargeVars(e0) && RegsOk(e0, base, freereg, n) && n <= base
    ensures ExpOk(s, e, t, f, c) && !e.k.VLocal? && e.t == e0.t && e.f == e0.f && RegsOk(e, base, freereg, n)
    ensures (TrueConst(s, e0) ==> TrueConst(s, e)) && (e0.k.VJmp? <==> e.k.VJmp?)
    ensures s.tr != [] && (Ready(s, e) <==> Ready(s, e0)) && ValueNow(m, s, e) == ValueNow(m, s, e0)
  {
    assert Lists(s, e, t, f, c) by { hide KindOk; hide RunAt; }
  }

  lemma NoJumpNeeded(m: Arithmetic, s: Gen, e: ExpDesc, l: seq<int>, t: seq<int>, f: seq<int>, c: Scope, cond: bool, base: nat, freereg: nat, n: nat)
    requires ExpOk(s, e, t, f, c) && l == [] && RegsOk(e, base, freereg, n) && TrueConst(s, e)
    requires if cond then e.k.VNil? || e.k.VFalse? else e.k.VTrue? || e.k.VKNum? || e.k.VK?
    ensures ThirdList(s, NO_JUMP, l, t, f, c) && Keeps(c, s, s) && freereg == base
    ensures Decided(m, s, s, e, l, cond, base)
  {
    KeepsRefl(c, s);
  }

  /** Constants of an expression that are in the table already are strings. */
  predicate TrueConst(s: Gen, e: ExpDesc) {
    e.k.VK? && e.k.info < |s.k| ==> Truthy(s.k[e.k.info])
  }

  lemma JumpDecided(m: Arithmetic, s: Gen, s1: Gen, e: ExpDesc, pc: int, l: seq<int>, t: seq<int>, f: seq<int>, c: Scope, cond: bool, base: nat, n: nat)
    requires GenInv(m, s, n) && ExpOk(s, e, t, f, c) && e.k == (if cond then VTrue else VFalse)
    requires s1.js == [] && l == [|s.code|] + s.js && IsList(s1.code, pc, l) && Unvisited(s1, l) && |s1.code| == |s.code| + 1
    requires s1.tr == s.tr && s1.k == s.k && (forall q :: 0 <= q < |s.code| ==> s1.code[q] == s.code[q])
    ensures Lists(s1, e, t, f, c) && ThirdList(s1, pc, l, t, f, c) && Keeps(c, s, s1) && Decided(m, s, s1, e, l, cond, base)
  {
    ListInCode(s.code, e.t, t);
    ListInCode(s.code, e.f, f);
    hide GenInv;
    ListsStay(s, s1.(js := s.js), e, e, t, f, c);
    hide IsList;
  }

  lemma JumpReady(m: Arithmetic, s: Gen, e: ExpDesc, t: seq<int>, f: seq<int>, c: Scope, n: nat)
    requires GenInv(m, s, n) && ExpOk(s, e, t, f, c) && e.k.VJmp?
    ensures |s.code| >= 2 && IsTest(s.code[|s.code| - 2]) && s.code[|s.code| - 1].Jmp? && NoTarget(s.code, |s.code| - 1) && s.js == []
    ensures e.k.info == |s.code| - 1
  {
    hide Lists;
  }

  lemma JumpTaken(m: Arithmetic, s: Gen, s1: Gen, e: ExpDesc, pc: int, l: seq<int>, t: seq<int>, f: seq<int>, c: Scope, base: nat, n: nat)
    requires GenInv(m, s, n) && ExpOk(s, e, t, f, c) && e.k.VJmp? && pc == e.k.info == |s.code| - 1 && |s.code| >= 2 && l == [pc]
    requires s1 == s.(tr := s1.tr) && s1.tr != [] && s.tr != []
    requires Last(s.tr).pc == |s.code| - 2 ==> (Last(s1.tr).g == Last(s.tr).g
      && Last(s1.tr).pc == if Taken(m, s.k, s.code[|s.code| - 2], Last(s.tr).g) then |s.code| - 1 else |s.code|)
    requires Last(s.tr).pc != |s.code| - 2 ==> s1.tr == s.tr
    requires forall p :: Visited(s1.tr, p) ==> Visited(s.tr, p) || p == |s.code| - 2
    ensures Lists(s1, e, t, f, c) && ThirdList(s1, pc, l, t, f, c) && s1.js == [] && Keeps(c, s, s1) && Decided(m, s, s1, e, l, true, base)
  {
    hide Visited;
    hide GenInv;
    JumpLists1(s, s1, e, pc, l, t, f, c);
    hide Lists;
    hide IsList;
  }

  lemma JumpLists1(s: Gen, s1: Gen, e: ExpDesc, pc: int, l: seq<int>, t: seq<int>, f: seq<int>, c: Scope)
    requires ExpOk(s, e, t, f, c) && e.k.VJmp? && pc == e.k.info == |s.code| - 1 && |s.code| >= 2 && l == [pc] && s1 == s.(tr := s1.tr)
    requires forall p :: Visited(s1.tr, p) ==> Visited(s.tr, p) || p == |s.code| - 2
    ensures Lists(s1, e, t, f, c) && ThirdList(s1, pc, l, t, f, c) && Keeps(c, s, s1)
  {
    hide Visited;
    hide RunAt;
    hide IsList;
    ListInCode(s.code, e.t, t);
    ListInCode(s.code, e.f, f);
    SingleList(s.code, pc);
  }

  lemma DecidedInverted(m: Arithmetic, s: Gen, s1: Gen, s2: Gen, e: ExpDesc, l: seq<int>, c: Scope, base: nat)
    requires Inverted(m, s, s1, e) && s1.tr == s.tr && Keeps(c, s, s1) && Keeps(c, s1, s2) && Decided(m, s1, s2, e, l, true, base)
    ensures Keeps(c, s, s2) && Decided(m, s, s2, e, l, false, base)
  {
    KeepsTrans(c, s, s1, s2);
    hide Keeps;
  }

  /** What is known when the jump for the expression is there. */
  lemma DecidedLists(m: Arithmetic, s: Gen, s1: Gen, e: ExpDesc, pc: int, pl: seq<int>, t: seq<int>, f: seq<int>, c: Scope, cond: bool, base: nat)
    requires Lists(s1, e, t, f, c) && ThirdList(s1, pc, pl, t, f, c) && Decided(m, s, s1, e, pl, cond, base)
    ensures IsList(s1.code, e.t, t) && IsList(s1.code, e.f, f) && IsList(s1.code, pc, pl) && Disjoint(t, pl) && Disjoint(f, pl)
    ensures Disjoint(t, f) && Disjoint(f, t) && Disjoint(t, s1.js) && Disjoint(f, s1.js) && Unvisited(s1, t) && Unvisited(s1, f)
    ensures AllInside(t, c) && AllInside(f, c) && AllInside(s1.js, c) && c.n <= |s1.code| && ThirdList(s1, pc, pl, f, t, c)
  {
    hide IsList;
  }

  /** The jump joins one of the lists. */
  lemma JoinedLists(m: Arithmetic, s: Gen, s1: Gen, h: int, t: seq<int>, list: int, f: seq<int>, pl: seq<int>, pc: int, c: Scope, n: nat)
    requires GenInv(m, s, n) && s1 == s.(code := s1.code) && |s1.code| == |s.code| && IsList(s1.code, list, f + pl)
    requires IsList(s.code, h, t) && ThirdList(s, pc, pl, t, f, c) && Disjoint(t, f) && Disjoint(f, s.js) && Disjoint(t, s.js)
    requires Unvisited(s, t) && Unvisited(s, f) && AllInside(t, c) && AllInside(f, c) && AllInside(s.js, c) && c.n <= |s.code|
    requires exists h2 :: IsList(s.code, h2, f)
    requires forall q :: 0 <= q < |s.code| ==> s1.code[q] == s.code[q] || (q in f && s1.code[q].Jmp?)
    ensures GenInv(m, s1, n) && IsList(s1.code, h, t) && Keeps(c, s, s1) && Unvisited(s1, t) && Disjoint(s1.js, t)
    ensures ThirdList(s1, list, f + pl, t, [], c) && AllInside(s1.js, c) && AllInside(t, c) && c.n <= |s1.code|
  {
    hide GenInv;
    hide Visited;
    hide IsList;
    var h2 :| IsList(s.code, h2, f);
    ListInCode(s.code, h2, f);
    JoinedInv(m, s, s1, f, n);
    JoinedOther(s, s1, h, t, f);
  }

  lemma JoinedInv(m: Arithmetic, s: Gen, s1: Gen, f: seq<int>, n: nat)
    requires GenInv(m, s, n) && s1 == s.(code := s1.code) && |s1.code| == |s.code| && Disjoint(f, s.js) && Unvisited(s, f)
    requires forall p :: p in f ==> 0 <= p < |s.code| && s.code[p].Jmp?
    requires forall q :: 0 <= q < |s.code| ==> s1.code[q] == s.code[q] || (q in f && s1.code[q].Jmp?)
    ensures GenInv(m, s1, n)
  {
    hide GenInv;
    hide Visited;
    Relinked(m, s, s1.code, n);
  }

  lemma JoinedOther(s: Gen, s1: Gen, h: int, t: seq<int>, f: seq<int>)
    requires IsList(s.code, h, t) && Disjoint(t, f) && |s1.code| == |s.code|
    requires forall q :: 0 <= q < |s.code| ==> s1.code[q] == s.code[q] || (q in f && s1.code[q].Jmp?)
    ensures IsList(s1.code, h, t)
  {
    ListInCode(s.code, h, t);
    hide IsList;
    ListKept(s.code, s1.code, h, t);
  }

  lemma HereLists(s: Gen, s1: Gen, list: int, l: seq<int>, t: seq<int>, c: Scope)
    requires ThirdList(s, list, l, t, [], c) && AllInside(s.js, c) && AllInside(t, c) && c.n <= |s.code|
    requires s1 == s.(code := s1.code, jpc := s1.jpc, js := s.js + t, lasttarget := s1.lasttarget) && |s1.code| == |s.code|
    requires forall q :: 0 <= q < |s.code| ==> s1.code[q] == s.code[q] || (q in s.js && s1.code[q].Jmp?)
    ensures ThirdList(s1, list, l, [], [], c) && AllInside(s1.js, c) && Keeps(c, s, s1)
  {
    hide Visited;
    ListKept(s.code, s1.code, list, l);
    hide IsList;
  }

  lemma WentOnIs(m: Arithmetic, s: Gen, s1: Gen, s2: Gen, s3: Gen, e0: ExpDesc, e: ExpDesc, here: seq<int>, away: seq<int>, pl: seq<int>, l: seq<int>, c: Scope, on: bool, base: nat)
    requires s.tr != [] && (Ready(s, e) <==> Ready(s, e0)) && ValueNow(m, s, e) == ValueNow(m, s, e0)
    requires Decided(m, s, s1, e, pl, !on, base) && l == away + pl && s2.tr == s1.tr && s3.tr == s1.tr
    requires s3.js == s1.js + here && |s3.code| == |s1.code|
    requires Ready(s, e) ==> s.Pc() !in here && s.Pc() !in away
    requires Keeps(c, s, s1) && Keeps(c, s1, s2) && Keeps(c, s2, s3)
    ensures Keeps(c, s, s3) && WentOn(m, s, s3, e0, here, away, l, on, base)
  {
    KeepsTrans(c, s, s1, s2);
    KeepsTrans(c, s, s2, s3);
    hide Keeps;
  }

  lemma ReadyOffLists(m: Arithmetic, s: Gen, e: ExpDesc, t: seq<int>, f: seq<int>, c: Scope)
    requires ExpOk(s, e, t, f, c)
    ensures s.tr != [] && (Ready(s, e) ==> s.Pc() !in t && s.Pc() !in f)
  {
    hide RunAt;
    hide OffLists;
    ReadyOffList(s, e, e.t, t, c);
    ReadyOffList(s, e, e.f, f, c);
    hide IsList;
  }

  lemma ReadyOffList(s: Gen, e: ExpDesc, h: int, l: seq<int>, c: Scope)
    requires IsList(s.code, h, l) && Disjoint(l, s.js) && KindOk(s, e, c) && s.tr != []
    ensures Ready(s, e) ==> s.Pc() !in l
  {
    hide Visited;
    hide NoTarget;
    ListInCode(s.code, h, l);
    hide IsList;
  }

  // ---- not ----

  ghost predicate ValuesRemoved(code: seq<Instr>, code1: seq<Instr>) {
    |code1| == |code| && forall q :: 0 <= q < |code| ==> SameEffect(code[q], code1[q])
  }

  lemma NothingRemoved(code: seq<Instr>)
    ensures ValuesRemoved(code, code)
  {
  }

  lemma RemovedLists(code: seq<Instr>, code1: seq<Instr>, h: int, l: seq<int>)
    requires IsList(code, h, l) && ValuesRemoved(code, code1)
    ensures IsList(code1, h, l)
  {
    ListInCode(code, h, l);
    hide IsList;
    forall p | p in l
      ensures p < |code1| && code1[p] == code[p] && (p >= 1 && code1[p - 1].TestSet? ==> code1[p - 1] == code[p - 1])
    {
      assert SameEffect(code[p], code1[p]) && (p >= 1 ==> SameEffect(code[p - 1], code1[p - 1]));
    }
    ListKept(code, code1, h, l);
  }

  lemma RemovedList(code: seq<Instr>, code1: seq<Instr>, h: int, l: seq<int>, i: nat)
    requires IsList(code, h, l) && ValuesRemoved(code, code1) && i < |l|
    ensures IsJump(code1, l[i]) && GetJump(code1, l[i]) == if i + 1 < |l| then l[i + 1] else NO_JUMP
  {
    RemovedLists(code, code1, h, l);
    ListNext(code1, h, l, i);
  }

  lemma RemovedOne(code: seq<Instr>, code1: seq<Instr>, code2: seq<Instr>, h: int, l: seq<int>, i: nat)
    requires IsList(code, h, l) && ValuesRemoved(code, code1) && i < |l| && l[i] >= 0 && TestPatched(code1, code2, l[i])
    ensures ValuesRemoved(code, code2)
  {
    ListInCode(code, h, l);
    var p := l[i];
    assert p in l && NoTarget(code, p);
    forall q | 0 <= q < |code|
      ensures SameEffect(code[q], code2[q])
    {
      assert SameEffect(code[q], code1[q]);
    }
  }

  lemma RemovedBoth(code: seq<Instr>, code1: seq<Instr>, code2: seq<Instr>)
    requires ValuesRemoved(code, code1) && ValuesRemoved(code1, code2)
    ensures ValuesRemoved(code, code2)
  {
    forall q | 0 <= q < |code|
      ensures SameEffect(code[q], code2[q])
    {
      assert SameEffect(code[q], code1[q]) && SameEffect(code1[q], code2[q]);
    }
  }

  predicate Delayed(i: Instr) {
    i.ArithI? || i.Unm? || i.Not?
  }

  lemma DelayedIs(i: Instr)
    requires Delayed(i)
    ensures !i.TestSet?
  {
  }

  lemma NotIs(r: nat, n: nat)
    ensures Delayed(Not(0, r)) && ConstsIn(Not(0, r), n)
  {
  }

  /** A run that was at the end is at the new instruction, the last one. */
  ghost predicate Relocatable(s: Gen, s1: Gen, i: Instr, info: nat, c: Scope) {
    && s.tr != [] && s1.tr != [] && info == |s1.code| - 1 && s1.code[info] == i && s1.k == s.k
    && KindOk(s1, ExpDesc(VRelocable(info), NO_JUMP, NO_JUMP), c)
    && (Live(s) ==> s1.Pc() == info && s1.Regs() == s.Regs()) && (!Live(s) ==> s1.tr == s.tr)
  }

  lemma RelocCoded(m: Arithmetic, s: Gen, s1: Gen, i: Instr, info: nat, e: ExpDesc, t: seq<int>, f: seq<int>, c: Scope, n: nat)
    requires GenInv(m, s, n) && GenInv(m, s1, n) && s.tr != [] && s1.tr != [] && Coded(s, s1, i) && info == |s.code| && Delayed(i) && Lists(s, e, t, f, c)
    ensures Lists(s1, e, t, f, c) && Keeps(c, s, s1) && Relocatable(s, s1, i, info, c)
  {
    hide Visited;
    hide IsList;
    hide RunOk;
    hide ConstsOk;
    hide Keeps;
    CodedKeeps(m, s, s1, i, n);
    NotVisitedYet(m, s, s1, n);
    ListsKept(s, s1, e, e, t, f, c);
    ScopeBelow(s, e, t, f, c);
    KeepsHere(c, s, s1);
    hide Lists;
    TargetKept(s, s1, i);
  }

  lemma TargetKept(s: Gen, s1: Gen, i: Instr)
    requires s.tr != [] && Coded(s, s1, i) && NoTarget(s.code, |s.code|)
    ensures NoTarget(s1.code, |s.code|)
  {
    hide Visited;
    if |s.code| > 0 {
      assert s1.code[|s.code| - 1] == PatchedInstr(s.code, s.js, |s.code|, |s.code| - 1);
    }
  }

  /** The new expression is available when the old one was, and has the opposite truth. */
  ghost predicate Negated(m: Arithmetic, s: Gen, s1: Gen, e: ExpDesc, e1: ExpDesc, base: nat) {
    && s.tr != [] && s1.tr != []
    && (Ready(s, e) ==> Ready(s1, e1) && (Truthy(ValueNow(m, s1, e1)) <==> !Truthy(ValueNow(m, s, e))))
    && (Ready(s, e) ==> Agree(s.Regs(), s1.Regs(), base))
    && (!Ready(s, e) ==> s1.tr == s.tr)
  }

  lemma NegatedConst(m: Arithmetic, s: Gen, e: ExpDesc, e1: ExpDesc, t: seq<int>, f: seq<int>, c: Scope, base: nat, freereg: nat, n: nat)
    requires ExpOk(s, e, t, f, c) && RegsOk(e, base, freereg, n) && TrueConst(s, e)
    requires e1 == e.(k := if e.k.VNil? || e.k.VFalse? then VTrue else VFalse)
    requires e.k.VNil? || e.k.VFalse? || e.k.VK? || e.k.VKNum? || e.k.VTrue?
    ensures ExpOk(s, e1, t, f, c) && RegsOk(e1, base, freereg, n) && !e1.k.VK? && Keeps(c, s, s) && Negated(m, s, s, e, e1, base)
  {
    KeepsRefl(c, s);
    assert Lists(s, e1, t, f, c) by { hide KindOk; hide RunAt; }
    hide Lists;
  }

  lemma NegatedJump(m: Arithmetic, s: Gen, s1: Gen, e: ExpDesc, base: nat)
    requires Inverted(m, s, s1, e) && s1.tr == s.tr && e.k.VJmp?
    ensures Negated(m, s, s1, e, e, base) && !e.k.VK?
  {
  }

  lemma NegatedReg(m: Arithmetic, s: Gen, s1: Gen, s2: Gen, e: ExpDesc, e2: ExpDesc, e1: ExpDesc, r: nat, info: nat, t: seq<int>, f: seq<int>, c: Scope, base: nat, freereg: nat, n: nat)
    requires ExpOk(s, e, t, f, c) && ExpOk(s1, e2, t, f, c) && e2 == ExpDesc(VNonReloc(r), e.t, e.f) && e1 == e.(k := VRelocable(info))
    requires ValueIn(m, s, s1, e, r) && (r >= base || s1 == s) && Keeps(c, s, s1) && Keeps(c, s1, s2)
    requires Lists(s2, e2, t, f, c) && Relocatable(s1, s2, Not(0, r), info, c) && freereg == base
    ensures ExpOk(s2, e1, t, f, c) && RegsOk(e1, base, freereg, n) && !e1.k.VK? && Keeps(c, s, s2) && Negated(m, s, s2, e, e1, base)
  {
    KeepsTrans(c, s, s1, s2);
    assert Lists(s2, e1, t, f, c) by { hide KindOk; hide RunAt; hide Keeps; }
    if !Ready(s, e) {
      NotLive(s1, e2, t, f, c);
    }
    hide Lists;
    hide Keeps;
  }

  /** The two lists are exchanged, and no test for their jumps sets a register. */
  lemma SwappedExp(m: Arithmetic, s: Gen, s1: Gen, e: ExpDesc, e1: ExpDesc, t: seq<int>, f: seq<int>, c: Scope, base: nat, freereg: nat, n: nat)
    requires GenInv(m, s, n) && ExpOk(s, e, t, f, c) && ValuesRemoved(s.code, s1.code) && s1 == s.(code := s1.code)
    requires e1 == ExpDesc(e.k, e.f, e.t) && RegsOk(e, base, freereg, n)
    ensures GenInv(m, s1, n) && ExpOk(s1, e1, f, t, c) && Keeps(c, s, s1) && RegsOk(e1, base, freereg, n)
    ensures s.tr != [] && (Ready(s1, e1) <==> Ready(s, e)) && ValueNow(m, s1, e1) == ValueNow(m, s, e)
  {
    RemovedInv(m, s, s1, n);
    RemovedLists(s.code, s1.code, e.t, t);
    RemovedLists(s.code, s1.code, e.f, f);
    hide GenInv;
    assert Lists(s1, e1, f, t, c) by { hide KindOk; hide RunAt; hide ValuesRemoved; }
    SameKind(m, s, s1, e, e1, c);
    hide Lists;
    hide KindOk;
    KeepsRefl(c, s);
  }

  lemma SameKind(m: Arithmetic, s: Gen, s1: Gen, e: ExpDesc, e1: ExpDesc, c: Scope)
    requires KindOk(s, e, c) && s.tr != [] && ValuesRemoved(s.code, s1.code) && s1 == s.(code := s1.code) && e1.k == e.k
    ensures KindOk(s1, e1, c) && ValueNow(m, s1, e1) == ValueNow(m, s, e)
  {
    hide Visited;
    assert forall q :: 0 <= q < |s.code| && !s.code[q].TestSet? ==> s1.code[q] == s.code[q];
    assert forall q :: 0 <= q < |s.code| && s1.code[q].TestSet? ==> s1.code[q] == s.code[q];
  }

  lemma RemovedInv(m: Arithmetic, s: Gen, s1: Gen, n: nat)
    requires GenInv(m, s, n) && ValuesRemoved(s.code, s1.code) && s1 == s.(code := s1.code)
    ensures GenInv(m, s1, n)
  {
    RunFrame(m, s.k, s.code, s.tr, s.k, s1.code);
    RemovedLists(s.code, s1.code, s.jpc, s.js);
    forall i | 0 <= i < |s1.code|
      ensures ConstsIn(s1.code[i], |s1.k|)
    {
      assert SameEffect(s.code[i], s1.code[i]) && ConstsIn(s.code[i], |s.k|);
    }
  }

  lemma NegatedLater(m: Arithmetic, s: Gen, s2: Gen, s3: Gen, e0: ExpDesc, e: ExpDesc, e2: ExpDesc, e1: ExpDesc, c: Scope, base: nat)
    requires s.tr != [] && (Ready(s, e) <==> Ready(s, e0)) && ValueNow(m, s, e) == ValueNow(m, s, e0) && Negated(m, s, s2, e, e2, base)
    requires s3 == s2.(code := s3.code) && s2.tr != [] && (Ready(s3, e1) <==> Ready(s2, e2)) && ValueNow(m, s3, e1) == ValueNow(m, s2, e2)
    requires Keeps(c, s, s2) && Keeps(c, s2, s3)
    ensures Keeps(c, s, s3) && Negated(m, s, s3, e0, e1, base)
  {
    KeepsTrans(c, s, s2, s3);
    hide Keeps;
  }

  // ---- operands ----

  lemma FreeRegs(e: ExpDesc, base: nat, freereg: nat, n: nat)
    requires RegsOk(e, base, freereg, n) && !e.k.VLocal? && n <= base
    ensures e.k.VNonReloc? && e.k.info >= n ==> freereg == e.k.info + 1 && e.k.info == base
    ensures !(e.k.VNonReloc? && e.k.info >= n) ==> freereg == base
  {
  }

  lemma AnyVarsOnly(m: Arithmetic, s: Gen, e0: ExpDesc, e: ExpDesc, t: seq<int>, f: seq<int>, c: Scope, base: nat, freereg: nat, n: nat)
    requires ExpOk(s, e0, t, f, c) && e == DischargeVars(e0) && n <= base
    requires e0.k.VNonReloc? || RegsOk(e0, base, freereg, n)
    ensures ExpOk(s, e, t, f, c) && !e.k.VLocal? && e.t == e0.t && e.f == e0.f && (e0.k.VJmp? <==> e.k.VJmp?)
    ensures e0.k.VNonReloc? ==> e == e0
    ensures !e0.k.VNonReloc? ==> RegsOk(e, base, freereg, n)
    ensures s.tr != [] && (Ready(s, e) <==> Ready(s, e0)) && ValueNow(m, s, e) == ValueNow(m, s, e0)
  {
    assert Lists(s, e, t, f, c) by { hide KindOk; hide RunAt; }
    hide Lists;
  }

  /** The descriptor and the operand of an instruction denote the same register or constant. */
  predicate OperandIs(s: Gen, e: ExpDesc, o: RK) {
    match o
    case R(r) => e.k == VNonReloc(r)
    case K(i) => e.k == VK(i) && i <= MAXINDEXRK && i < |s.k|
  }

  /** The operand has the value of the expression. */
  ghost predicate Loaded(m: Arithmetic, s: Gen, s1: Gen, e: ExpDesc, o: RK, base: nat) {
    && s.tr != [] && s1.tr != []
    && (Ready(s, e) ==> Live(s1) && RKValue(s1.k, s1.Regs(), o) == ValueNow(m, s, e) && Agree(s.Regs(), s1.Regs(), base))
    && (!Ready(s, e) ==> s1.tr == s.tr)
  }

  function Constant(e: ExpDesc): Value {
    match e.k
    case VTrue => Boolean(true)
    case VFalse => Boolean(false)
    case VKNum(n) => Number(n)
    case _ => Value.Nil
  }

  lemma ConstantLoaded(m: Arithmetic, s: Gen, s1: Gen, e0: ExpDesc, e: ExpDesc, e1: ExpDesc, i: nat, c: Scope, base: nat, freereg: nat, n: nat)
    requires ExpOk(s, e, [], [], c) && s.k <= s1.k && s1 == s.(k := s1.k) && e1 == e.(k := VK(i)) && i < |s1.k| && i <= MAXINDEXRK
    requires (e.k.VKNum? || e.k.VTrue? || e.k.VFalse? || e.k.VNil?) && s1.k[i] == Constant(e)
    requires s.tr != [] && (Ready(s, e) <==> Ready(s, e0)) && ValueNow(m, s, e) == ValueNow(m, s, e0)
    requires if e0.k.VNonReloc? then e == e0 else RegsOk(e, base, freereg, n)
    ensures ExpOk(s1, e1, [], [], c) && OperandIs(s1, e1, K(i)) && Keeps(c, s, s1) && RegsOk(e1, base, freereg, n) && !e0.k.VNonReloc?
    ensures Loaded(m, s, s1, e0, K(i), base)
  {
    KeepsRefl(c, s);
    assert Lists(s1, e1, [], [], c) by { hide KindOk; hide RunAt; }
    hide Lists;
  }

  lemma ConstantThere(m: Arithmetic, s: Gen, e0: ExpDesc, e: ExpDesc, i: nat, c: Scope, base: nat, freereg: nat, n: nat)
    requires ExpOk(s, e, [], [], c) && e.k == VK(i) && i <= MAXINDEXRK
    requires s.tr != [] && (Ready(s, e) <==> Ready(s, e0)) && ValueNow(m, s, e) == ValueNow(m, s, e0)
    requires if e0.k.VNonReloc? then e == e0 else RegsOk(e, base, freereg, n)
    ensures OperandIs(s, e, K(i)) && Keeps(c, s, s) && Loaded(m, s, s, e0, K(i), base) && !e0.k.VNonReloc? && RegsOk(e, base, freereg, n)
  {
    KeepsRefl(c, s);
    hide Lists;
  }

  lemma RegisterLoaded(m: Arithmetic, s: Gen, s1: Gen, e0: ExpDesc, e: ExpDesc, e1: ExpDesc, r: nat, c: Scope, base: nat)
    requires e1.k == VNonReloc(r) && ValueIn(m, s, s1, e, r) && (r >= base || s1 == s)
    requires s.tr != [] && (Ready(s, e) <==> Ready(s, e0)) && ValueNow(m, s, e) == ValueNow(m, s, e0)
    ensures OperandIs(s1, e1, R(r)) && Loaded(m, s, s1, e0, R(r), base)
  {
  }

  // ---- two operands ----

  function Encoded(o: RK): nat {
    match o
    case R(i) => i
    case K(i) => i + 256
  }

  /** The first operand, while the second one is being compiled. */
  predicate Stable(s: Gen, e: ExpDesc) {
    && e.t == NO_JUMP && e.f == NO_JUMP
    && (e.k.VNonReloc? || e.k.VKNum? || (e.k.VK? && e.k.info < |s.k| && e.k.info <= MAXINDEXRK))
  }

  /** A run at `e` has gone on to `e1`, which has the value `v`. */
  ghost predicate Computed(m: Arithmetic, s: Gen, s1: Gen, e: ExpDesc, e1: ExpDesc, v: Value, base: nat) {
    && s.tr != [] && s1.tr != []
    && (Ready(s, e) ==> Ready(s1, e1) && ValueNow(m, s1, e1) == v && Agree(s.Regs(), s1.Regs(), base))
    && (!Ready(s, e) ==> s1.tr == s.tr)
  }

  /** The registers of both operands can be freed, the higher one first. */
  predicate OperandRegs(e1: ExpDesc, e2: ExpDesc, o1: RK, o2: RK, base: nat, base2: nat, base3: nat, freereg: nat, n: nat) {
    && n <= base && (o1.R? ==> e1.k == VNonReloc(o1.i)) && (o2.R? ==> e2.k == VNonReloc(o2.i))
    && (o1.K? ==> !e1.k.VNonReloc?) && (o2.K? ==> !e2.k.VNonReloc?)
    && RegsOk(e2, base2, base3, n) && !e2.k.VLocal? && !e1.k.VLocal?
    && (if base2 == base && freereg != base3 then RegsOk(e1, base3, freereg, n) else freereg == base3 && RegsOk(e1, base, base2, n))
  }

  lemma BaseOrder(e: ExpDesc, base: nat, base2: nat, n: nat)
    requires RegsOk(e, base, base2, n) && n <= base
    ensures n <= base <= base2
  {
  }

  lemma Folded(m: Arithmetic, s: Gen, op: ArithOp, e1: ExpDesc, e2: ExpDesc, e: ExpDesc, r: int, c: Scope, base: nat, base2: nat, freereg: nat, n: nat)
    requires Stable(s, e1) && ExpOk(s, e2, [], [], c) && e1.k.VKNum? && e2.k.VKNum? && r == m.num(op, e1.k.nval, e2.k.nval) && !m.isnan(r)
    requires RegsOk(e1, base, base2, n) && RegsOk(e2, base2, freereg, n) && e == e1.(k := VKNum(r))
    ensures IsNumber(m, e) && ExpOk(s, e, [], [], c) && !e.k.VJmp? && !e.k.VK? && RegsOk(e, base, freereg, n) && Keeps(c, s, s)
    ensures s.tr != [] && Computed(m, s, s, e2, e, Arith(m, op, ValueNow(m, s, e1), ValueNow(m, s, e2)), base)
  {
    KeepsRefl(c, s);
    assert Lists(s, e, [], [], c) by { hide KindOk; hide RunAt; }
    hide Lists;
  }

  lemma StableExp(m: Arithmetic, s: Gen, s1: Gen, e1: ExpDesc, e2: ExpDesc, f2: ExpDesc, o2: RK, c: Scope, base: nat, base2: nat, base3: nat, n: nat)
    requires Stable(s, e1) && ExpOk(s1, f2, [], [], c) && OperandIs(s1, f2, o2) && Keeps(c, s, s1)
    requires RegsOk(e1, base, base2, n) && n <= base <= base2
    requires if e2.k.VNonReloc? then f2 == e2 && s1 == s && RegsOk(e2, base2, base3, n) else RegsOk(f2, base2, base3, n)
    ensures ExpOk(s1, e1, [], [], c) && !e1.k.VJmp? && n <= base3 && base2 <= base3
    ensures e1.k.VNonReloc? || RegsOk(e1, base3, base3, n)
  {
    assert Lists(s1, e1, [], [], c) by { hide KindOk; hide RunAt; }
    hide Lists;
  }

  /** Both operands hold their values. */
  ghost predicate BothLoaded(m: Arithmetic, s: Gen, s2: Gen, e1: ExpDesc, e2: ExpDesc, o1: RK, o2: RK, base: nat) {
    && s.tr != [] && s2.tr != []
    && (Ready(s, e2) ==> Live(s2) && RKValue(s2.k, s2.Regs(), o1) == ValueNow(m, s, e1) && RKValue(s2.k, s2.Regs(), o2) == ValueNow(m, s, e2))
    && (Ready(s, e2) ==> Agree(s.Regs(), s2.Regs(), base))
    && (!Ready(s, e2) ==> s2.tr == s.tr)
  }

  lemma BothOperands(m: Arithmetic, s: Gen, s1: Gen, s2: Gen, e1: ExpDesc, e2: ExpDesc, f1: ExpDesc, f2: ExpDesc, o1: RK, o2: RK, c: Scope, base: nat, base2: nat, base3: nat, freereg: nat, n: nat)
    requires Stable(s, e1) && ExpOk(s, e2, [], [], c) && ExpOk(s1, f2, [], [], c) && ExpOk(s2, f1, [], [], c)
    requires OperandIs(s1, f2, o2) && OperandIs(s2, f1, o1)
    requires RegsOk(e1, base, base2, n) && n <= base <= base2 <= base3 && !e2.k.VJmp?
    requires if e2.k.VNonReloc? then f2 == e2 && s1 == s && RegsOk(e2, base2, base3, n) else RegsOk(f2, base2, base3, n)
    requires if e1.k.VNonReloc? then f1 == e1 && s2 == s1 && freereg == base3 else RegsOk(f1, base3, freereg, n)
    requires Loaded(m, s, s1, e2, o2, base2) && Loaded(m, s1, s2, e1, o1, base3) && Keeps(c, s, s1) && Keeps(c, s1, s2)
    ensures Keeps(c, s, s2) && BothLoaded(m, s, s2, e1, e2, o1, o2, base) && OperandConst(s2, o2)
    ensures OperandRegs(f1, f2, o1, o2, base, base2, base3, freereg, n)
    ensures s.tr != [] && (!Ready(s, e2) ==> !Inside(s.Pc(), c) && !Live(s2))
  {
    KeepsTrans(c, s, s1, s2);
    assert s.k <= s1.k <= s2.k;
    hide Keeps;
    if !Ready(s, e2) {
      NotLive(s1, f2, [], [], c);
      NotLive(s2, f1, [], [], c);
    }
    hide Lists;
  }

  lemma ArithIs(s: Gen, op: ArithOp, f1: ExpDesc, f2: ExpDesc, o1: RK, o2: RK, c: Scope)
    requires ExpOk(s, f1, [], [], c) && OperandIs(s, f1, o1) && OperandConst(s, o2)
    ensures Lists(s, f1, [], [], c) && Delayed(ArithI(op, 0, o1, o2)) && ConstsIn(ArithI(op, 0, o1, o2), |s.k|)
  {
    hide IsList;
  }

  predicate OperandConst(s: Gen, o: RK) {
    o.K? ==> o.i < |s.k|
  }

  lemma ComputedIs(m: Arithmetic, s: Gen, s2: Gen, s3: Gen, op: ArithOp, e1: ExpDesc, e2: ExpDesc, f1: ExpDesc, e: ExpDesc, o1: RK, o2: RK, info: nat, c: Scope, base: nat, freereg: nat, n: nat)
    requires BothLoaded(m, s, s2, e1, e2, o1, o2, base) && ExpOk(s2, f1, [], [], c) && Lists(s3, f1, [], [], c)
    requires Relocatable(s2, s3, ArithI(op, 0, o1, o2), info, c) && e == f1.(k := VRelocable(info)) && freereg == base
    requires Keeps(c, s, s2) && Keeps(c, s2, s3)
    requires !Ready(s, e2) ==> !Live(s2) && !Inside(s.Pc(), c)
    ensures IsNumber(m, e) && ExpOk(s3, e, [], [], c) && !e.k.VJmp? && !e.k.VK? && RegsOk(e, base, freereg, n) && Keeps(c, s, s3)
    ensures Computed(m, s, s3, e2, e, Arith(m, op, ValueNow(m, s, e1), ValueNow(m, s, e2)), base)
  {
    KeepsTrans(c, s, s2, s3);
    hide Keeps;
    assert Lists(s3, e, [], [], c) by { hide KindOk; hide RunAt; }
    hide Lists;
  }

  // ---- negation and comparison ----

  /** Numerals are numbers. */
  predicate IsNumber(m: Arithmetic, e: ExpDesc) {
    e.k.VKNum? ==> !m.isnan(e.k.nval)
  }

  lemma NoLists(s: Gen, e: ExpDesc, c: Scope)
    requires ExpOk(s, e, [], [], c)
    ensures e.t == NO_JUMP && e.f == NO_JUMP
  {
  }

  lemma NegationIsNumber(m: Arithmetic, e: ExpDesc)
    requires e.k.VKNum? && IsNumber(m, e) && NegationSane(m)
    ensures !m.isnan(m.unm(e.k.nval))
  {
  }

  lemma NegatedNumber(m: Arithmetic, s: Gen, e0: ExpDesc, e: ExpDesc, r: int, c: Scope, base: nat, freereg: nat, n: nat)
    requires ExpOk(s, e0, [], [], c) && e0.k.VKNum? && r == m.unm(e0.k.nval) && !m.isnan(r) && e == e0.(k := VKNum(r)) && RegsOk(e0, base, freereg, n)
    ensures ExpOk(s, e, [], [], c) && !e.k.VJmp? && !e.k.VK? && RegsOk(e, base, freereg, n) && IsNumber(m, e) && Keeps(c, s, s)
    ensures s.tr != [] && Computed(m, s, s, e0, e, Negate(m, ValueNow(m, s, e0)), base)
  {
    KeepsRefl(c, s);
    assert Lists(s, e, [], [], c) by { hide KindOk; hide RunAt; }
    hide Lists;
  }

  lemma AnyRegs(e0: ExpDesc, e1: ExpDesc, r: nat, base: nat, freereg: nat, n: nat)
    requires e1.k == VNonReloc(r) && n <= base && RegsOk(e1, base, freereg, n)
    ensures r >= n ==> freereg == r + 1 && r == base
    ensures r < n ==> freereg == base
  {
  }

  lemma UnmIs(r: nat, n: nat)
    ensures Delayed(Unm(0, r)) && ConstsIn(Unm(0, r), n)
  {
  }

  lemma UnmDone(m: Arithmetic, s: Gen, s1: Gen, s2: Gen, e0: ExpDesc, e1: ExpDesc, e: ExpDesc, r: nat, info: nat, c: Scope, base: nat, freereg: nat, n: nat)
    requires ExpOk(s, e0, [], [], c) && ExpOk(s1, e1, [], [], c) && e1 == ExpDesc(VNonReloc(r), e0.t, e0.f) && e == e1.(k := VRelocable(info))
    requires ValueIn(m, s, s1, e0, r) && (r >= base || s1 == s) && Keeps(c, s, s1) && Keeps(c, s1, s2)
    requires Lists(s2, e1, [], [], c) && Relocatable(s1, s2, Unm(0, r), info, c) && freereg == base
    ensures ExpOk(s2, e, [], [], c) && !e.k.VJmp? && !e.k.VK? && RegsOk(e, base, freereg, n) && IsNumber(m, e) && Keeps(c, s, s2)
    ensures Computed(m, s, s2, e0, e, Negate(m, ValueNow(m, s, e0)), base)
  {
    KeepsTrans(c, s, s1, s2);
    assert Lists(s2, e, [], [], c) by { hide KindOk; hide RunAt; hide Keeps; }
    if !Ready(s, e0) {
      NotLive(s1, e1, [], [], c);
    }
    hide Lists;
    hide Keeps;
  }

  /** The meaning of the comparison that codecomp is asked for: with `cond` 0, an inequality, or a comparison
      with its operands exchanged. */
  predicate Related(m: Arithmetic, op: CmpOp, cond: bool, a: Value, b: Value) {
    if cond then Compare(m, op, a, b) else if op == Eq then !Compare(m, op, a, b) else Compare(m, op, b, a)
  }

  /** luaK_exp2RK, for an operand that it has been applied to. */
  function LoadedOperand(e: ExpDesc): RK {
    match e.k
    case VNonReloc(r) => R(r)
    case VK(i) => K(i)
    case _ => R(0)
  }

  lemma CompOperands(m: Arithmetic, s: Gen, s1: Gen, e1: ExpDesc, e2: ExpDesc, f2: ExpDesc, o1: RK, o2: RK, c: Scope, base: nat, base2: nat, freereg: nat, n: nat)
    requires Stable(s, e1) && !e1.k.VKNum? && o1 == LoadedOperand(e1) && ExpOk(s, e2, [], [], c) && !e2.k.VJmp?
    requires ExpOk(s1, f2, [], [], c) && OperandIs(s1, f2, o2) && Keeps(c, s, s1) && Loaded(m, s, s1, e2, o2, base2)
    requires RegsOk(e1, base, base2, n) && n <= base <= base2
    requires RegsOk(f2, base2, freereg, n)
    ensures BothLoaded(m, s, s1, e1, e2, o1, o2, base) && OperandConst(s1, o1) && OperandConst(s1, o2)
    ensures s.tr != [] && (!Ready(s, e2) ==> !Inside(s.Pc(), c) && !Live(s1))
    ensures f2.k.VNonReloc? && f2.k.info >= n ==> freereg == f2.k.info + 1
    ensures e1.k.VNonReloc? && e1.k.info >= n ==> base2 == e1.k.info + 1
    ensures (if f2.k.VNonReloc? && f2.k.info >= n then f2.k.info else freereg) == base2
    ensures (if e1.k.VNonReloc? && e1.k.info >= n then e1.k.info else base2) == base
  {
    assert s.k <= s1.k;
    if !Ready(s, e2) {
      NotLive(s1, f2, [], [], c);
    }
    hide Keeps;
    hide Lists;
  }

  lemma CompareIs(s: Gen, op: CmpOp, jmp: bool, a: RK, b: RK, n: nat, o1: RK, o2: RK)
    requires (a == o1 && b == o2) || (a == o2 && b == o1)
    requires OperandConst(s, o1) && OperandConst(s, o2) && n == |s.k|
    ensures IsTest(CompareI(op, jmp, a, b)) && ConstsIn(CompareI(op, jmp, a, b), n)
  {
  }

  lemma CompDone(m: Arithmetic, s: Gen, s1: Gen, s2: Gen, op: CmpOp, cond: bool, jmp: bool, a: RK, b: RK, e1: ExpDesc, e2: ExpDesc, f2: ExpDesc, e: ExpDesc,
                 o1: RK, o2: RK, j: nat, c: Scope, base: nat, freereg: nat, n: nat)
    requires if !cond && op != Eq then a == o2 && b == o1 && jmp else a == o1 && b == o2 && jmp == cond
    requires BothLoaded(m, s, s1, e1, e2, o1, o2, base) && ExpOk(s1, f2, [], [], c) && (!Ready(s, e2) ==> !Inside(s.Pc(), c) && !Live(s1))
    requires TestEmitted(s1, s2, CompareI(op, jmp, a, b)) && Keeps(Here(s1), s1, s2) && Keeps(c, s, s1)
    requires j == |s2.code| - 1 && e == ExpDesc(VJmp(j), NO_JUMP, NO_JUMP) && freereg == base
    ensures ExpOk(s2, e, [], [], c) && e.k.VJmp? && RegsOk(e, base, freereg, n) && Keeps(c, s, s2)
    ensures Computed(m, s, s2, e2, e, Boolean(Related(m, op, cond, ValueNow(m, s, e1), ValueNow(m, s, e2))), base)
  {
    ScopeBelow(s1, f2, [], [], c);
    KeepsHere(c, s1, s2);
    KeepsTrans(c, s, s1, s2);
    EmptyLists(s2, e, c);
    hide Keeps;
    hide Lists;
  }

  lemma EmptyLists(s: Gen, e: ExpDesc, c: Scope)
    requires e.t == NO_JUMP && e.f == NO_JUMP && s.js == [] && c.n <= |s.code|
    ensures Lists(s, e, [], [], c)
  {
  }
}
