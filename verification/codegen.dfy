/** The code generator of lcode.c, for conditions and arithmetic over local variables and constants. */
module CodeGenerator {
  import opened Machine
  import opened JumpLists
  import opened GenSteps
  import opened GenExps
  import opened GenFacts
  import opened Frames

  class FuncState {
    const m: Arithmetic
    var code: seq<Instr>
    var k: seq<Value>
    var h: map<Value, nat>
    var jpc: int
    var lasttarget: int
    var freereg: nat
    var nactvar: nat
    var maxstacksize: nat
    /** A limit was exceeded: the parser raises a syntax error and the code is not used. */
    var failed: bool
    /** The initial registers of the run, which the emitted code does not depend on. */
    ghost const init: Regs
    ghost var js: seq<int>
    ghost var tr: seq<Config>
    /** How long the code has been; the last instruction may be taken back. */
    ghost var longest: nat

    /** open_func, with the registers of the parameters reserved: no code yet; the registers beyond the parameters
        are nil when the function starts. */
    constructor (ops: Arithmetic, params: nat, ghost g: Regs)
      requires Clean(g, params) && NegationSane(ops)
      ensures Valid() && m == ops && init == g && nactvar == freereg == params && code == []
      ensures maxstacksize == (if params > 2 then params else 2) && (failed <==> params >= MAXSTACK)
      ensures tr == [Config(0, g)] && js == []
    {
      m, init := ops, g;
      code, k, h, jpc, lasttarget, freereg, nactvar, maxstacksize, failed := [], [], map[], NO_JUMP, -1, params, params, if params > 2 then params else 2, params >= MAXSTACK;
      js, tr, longest := [], [Config(0, g)], 0;
    }

    ghost function S(): Gen
      reads this`code, this`k, this`jpc, this`js, this`lasttarget, this`tr
    {
      Gen(code, k, jpc, js, lasttarget, tr)
    }

    ghost predicate Valid()
      reads this`code, this`k, this`jpc, this`js, this`lasttarget, this`tr, this`h, this`nactvar, this`freereg
      reads this`maxstacksize, this`failed, this`longest
    {
      GenInv(m, S(), nactvar) && nactvar <= freereg && ConstantsKnown(k, h) && StartsAt(tr, init) && NegationSane(m) && Framed()
    }

    /** The registers in use and those that the code names belong to the frame, and the limits are kept unless the
        parser has given up. */
    ghost predicate Framed()
      reads this`code, this`k, this`freereg, this`maxstacksize, this`failed, this`longest
    {
      InFrame(code, |k|, freereg, maxstacksize, failed, longest)
    }

    lemma FramedPatched(code0: seq<Instr>, failed0: bool)
      requires SafelyPatched(code0, failed0, code, failed)
      ensures InFrame(code0, |k|, freereg, maxstacksize, failed0, longest) ==> Framed()
    {
      hide SafelyPatched;
      hide InFrame;
      if InFrame(code0, |k|, freereg, maxstacksize, failed0, longest) {
        FramePatched(code0, |k|, freereg, maxstacksize, failed0, longest, code, failed);
      }
    }

    lemma FramedIs()
      ensures Framed() <==> InFrame(code, |k|, freereg, maxstacksize, failed, longest)
    {
    }

    lemma SIs()
      ensures S() == Gen(code, k, jpc, js, lasttarget, tr)
    {
    }

    /** luaK_getlabel. */
    method GetLabel() returns (pc: nat)
      modifies this`lasttarget
      ensures pc == |code| == lasttarget
    {
      lasttarget := |code|;
      pc := |code|;
    }

    /** fixjump. */
    method FixJump(pc: nat, dest: int)
      requires IsJump(code, pc)
      modifies this`code, this`failed
      ensures code == old(code)[pc := Jmp(dest - (pc + 1))]
      ensures failed == (old(failed) || dest - (pc + 1) > MAXARG_SBX || dest - (pc + 1) < -MAXARG_SBX)
      ensures 0 <= dest <= |code| ==> SafelyPatched(old(code), old(failed), code, failed)
    {
      hide SafelyPatched;
      ghost var code0, failed0 := code, failed;
      var offset := dest - (pc + 1);
      if offset > MAXARG_SBX || offset < -MAXARG_SBX {
        failed := true;
      }
      code := code[pc := Jmp(offset)];
      if 0 <= dest <= |code| {
        FixedSafe(code0, failed0, pc, dest, failed);
      }
    }

    /** getjumpcontrol. */
    method JumpControl(pc: nat) returns (i: nat)
      requires IsJump(code, pc)
      ensures i < |code| && (if pc >= 1 && IsTest(code[pc - 1]) then i == pc - 1 else i == pc)
    {
      i := if pc >= 1 && IsTest(code[pc - 1]) then pc - 1 else pc;
    }

    /** patchtestreg with the register NO_REG. */
    method PatchTestReg(node: nat) returns (patched: bool)
      requires IsJump(code, node)
      modifies this`code
      ensures TestPatched(old(code), code, node) && SafelyPatched(old(code), failed, code, failed)
    {
      ghost var code0 := code;
      var i := JumpControl(node);
      patched := code[i].TestSet?;
      if patched {
        code := code[i := Test(code[i].b, code[i].c)];
      }
      TestSafe(code0, code, node, failed);
      hide SafelyPatched;
    }

    /** patchlistaux with the register NO_REG and one destination. */
    method PatchListAux(list: int, dest: int, ghost l: seq<int>)
      requires IsList(code, list, l) && 0 <= dest <= |code|
      modifies this`code, this`failed
      ensures IsPatched(old(code), code, l, dest) && SafelyPatched(old(code), old(failed), code, failed)
    {
      hide *;
      var p := list;
      ghost var i := 0;
      PatchedNone(code, dest);
      SafeRefl(code, failed);
      NotNoJump(code, list, l);
      assert l[..0] == [];
      while p != NO_JUMP
        invariant 0 <= i <= |l| && p == (if i < |l| then l[i] else NO_JUMP)
        invariant IsPatched(old(code), code, l[..i], dest) && SafelyPatched(old(code), old(failed), code, failed)
        decreases |l| - i
      {
        ghost var code1, failed1 := code, failed;
        SafeFails(old(code), old(failed), code, failed);
        StillList(old(code), code, list, l, i, dest);
        var next := GetJump(code, p);
        var patched := PatchTestReg(p);
        ghost var code2 := code;
        SafeFails(code1, failed, code, failed);
        StillJump(code1, code, p);
        FixJump(p, dest);
        SafeTrans(code1, failed1, code2, failed1, code, failed);
        SafeTrans(old(code), old(failed), code1, failed1, code, failed);
        PatchedStep(old(code), code1, code, list, l, i, dest);
        p := next;
        i := i + 1;
      }
      NoMore(old(code), list, l, i);
    }

    /** luaK_code. A run that was at the end of the code is now at the new instruction. */
    method Code(i: Instr) returns (pc: nat)
      requires Valid() && ConstsIn(i, |k|) && (i.TestSet? ==> i.t.NoReg?) && InstrOk(i, maxstacksize, failed)
      modifies this`code, this`jpc, this`failed, this`js, this`tr, this`longest
      ensures Valid() && pc == |old(code)| == |code| - 1 && Coded(old(S()), S(), i) && (old(failed) ==> failed)
    {
      hide *;
      SIs();
      ValidIs();
      ghost var s0, failed0 := S(), failed;
      FramedIs();
      PatchListAux(jpc, |code|, js);
      FramePatched(s0.code, |k|, freereg, maxstacksize, failed0, longest, code, failed);
      SafeFails(s0.code, failed0, code, failed);
      InstrOkFails(i, maxstacksize, failed0, maxstacksize, failed);
      FrameMore(code, |k|, freereg, maxstacksize, failed, longest, i);
      PatchedLength(s0.code, code, js, |s0.code|);
      CodeStep(m, s0, code, i, nactvar);
      AfterCodeIs(s0, code, i);
      jpc := NO_JUMP;
      pc := |code|;
      code := code + [i];
      longest := if longest >= |code| then longest else |code|;
      if Last(tr).pc in js {
        tr := tr + [Config(pc, Last(tr).g)];
      }
      js := [];
      SIs();
      FramedIs();
      ValidNow();
    }

    /** luaK_concat: appends the list `l2` to the list `l1`. */
    method Concat(l1: int, l2: int, ghost a: seq<int>, ghost b: seq<int>) returns (l: int)
      requires IsList(code, l1, a) && IsList(code, l2, b) && Disjoint(a, b)
      modifies this`code, this`failed
      ensures IsList(code, l, a + b) && |code| == |old(code)| && (old(failed) ==> failed)
      ensures SafelyPatched(old(code), old(failed), code, failed) && (old(Framed()) ==> Framed())
      ensures forall q :: 0 <= q < |code| ==> code[q] == old(code)[q] || (q in a && code[q].Jmp?)
    {
      hide *;
      NotNoJump(code, l1, a);
      NotNoJump(code, l2, b);
      FramedIs();
      SafeRefl(code, failed);
      ListInCode(code, l2, b);
      assert b != [] ==> b[0] in b;
      if l2 == NO_JUMP {
        assert a + b == a;
        return l1;
      } else if l1 == NO_JUMP {
        assert a + b == b;
        return l2;
      }
      var list := l1;
      ghost var i := 0;
      ListNext(code, l1, a, 0);
      var next := GetJump(code, list);
      while next != NO_JUMP
        modifies {}
        invariant 0 <= i < |a| && list == a[i] && IsJump(code, list) && next == (if i + 1 < |a| then a[i + 1] else NO_JUMP)
        decreases |a| - i
      {
        list := next;
        i := i + 1;
        ListNext(code, l1, a, i);
        next := GetJump(code, list);
      }
      ListLast(code, l1, a, i);
      Concatenated(code, l1, a, l2, b);
      ghost var code0, failed0 := code, failed;
      FixJump(list, l2);
      SafeFails(code0, failed0, code, failed);
      FramedPatched(code0, failed0);
      l := l1;
    }

    // ---- jumps ----

    /** luaK_jump: the pending jumps are put on hold behind the new one. */
    method Jump() returns (j: int, ghost l: seq<int>)
      requires Valid()
      modifies this`code, this`jpc, this`failed, this`js, this`tr, this`longest
      ensures Valid() && js == [] && l == [|old(code)|] + old(js) && IsList(code, j, l) && Unvisited(S(), l) && (old(failed) ==> failed)
      ensures |code| == |old(code)| + 1 && tr == old(tr)
      ensures forall q :: 0 <= q < |old(code)| ==> code[q] == old(code)[q]
      ensures old(js) == [] ==> code[|old(code)|] == Jmp(NO_JUMP)
    {
      ghost var s0 := S();
      ghost var pending := js;
      hide *;
      SIs();
      var hold := jpc;
      ValidIs();
      OnHold(m, S(), nactvar);
      jpc := NO_JUMP;
      js := [];
      SIs();
      ValidNow();
      ghost var s1 := S();
      JumpIs(|k|);
      JumpOk(maxstacksize, failed);
      var pc := Code(Jmp(NO_JUMP));
      SIs();
      ValidIs();
      JumpCoded(m, s0, s1, S(), nactvar);
      ghost var s2 := S();
      j := Concat(pc, hold, [pc], pending);
      l := [pc] + pending;
      SIs();
      JumpJoined(m, s0, s2, S(), pc, j, nactvar);
      ValidNow();
    }

    /** condjump. A run that was at the end is at the test. */
    method CondJump(i: Instr) returns (j: int, ghost l: seq<int>)
      requires Valid() && IsTest(i) && ConstsIn(i, |k|) && (i.TestSet? ==> i.t.NoReg?) && InstrOk(i, maxstacksize, failed)
      modifies this`code, this`jpc, this`failed, this`js, this`tr, this`longest
      ensures Valid() && TestEmitted(old(S()), S(), i) && 1 <= j == |code| - 1 && l == [j] && IsList(code, j, l)
      ensures Keeps(Here(old(S())), old(S()), S()) && (old(failed) ==> failed)
    {
      hide *;
      SIs();
      ValidIs();
      ghost var s0 := S();
      var pc := Code(i);
      SIs();
      ValidIs();
      ghost var s1 := S();
      j, l := Jump();
      SIs();
      ValidIs();
      TestCoded(m, s0, s1, S(), i, j, l, nactvar);
    }

    /** luaK_patchtohere. */
    method PatchToHere(list: int, ghost l: seq<int>)
      requires Valid() && IsList(code, list, l) && Disjoint(js, l) && Unvisited(S(), l)
      modifies this`code, this`jpc, this`failed, this`js, this`lasttarget
      ensures Valid() && js == old(js) + l && |code| == |old(code)| && tr == old(tr) && (old(failed) ==> failed)
      ensures forall q :: 0 <= q < |code| ==> code[q] == old(code)[q] || (q in old(js) && code[q].Jmp?)
    {
      hide *;
      ghost var s0 := S();
      SIs();
      ValidIs();
      var pc := GetLabel();
      var joined := Concat(jpc, list, js, l);
      PatchedHere(m, s0, code, joined, l, nactvar);
      jpc := joined;
      js := js + l;
      SIs();
      ValidNow();
    }

    // ---- the run, which only the specification follows ----

    /** Executes the last instruction, if the run is there. */
    ghost method RunLast()
      requires Valid() && |code| > 0 && IsPlain(code[|code| - 1])
      modifies this`tr
      ensures Valid()
      ensures Last(old(tr)).pc == |code| - 1 ==> tr == old(tr) + [Step(m, k, code[|code| - 1], Last(old(tr)))] && Last(tr).pc == |code|
      ensures Last(old(tr)).pc != |code| - 1 ==> tr == old(tr)
      ensures forall p :: Visited(tr, p) ==> Visited(old(tr), p) || p == |code| - 1
    {
      if S().Pc() == |code| - 1 {
        ExecutedLast(m, S(), nactvar);
        tr := tr + [Step(m, k, code[|code| - 1], Last(tr))];
      }
    }

    /** Executes the test before the last jump, if the run is there. */
    ghost method RunTest()
      requires Valid() && |code| >= 2 && IsTest(code[|code| - 2]) && code[|code| - 1].Jmp? && NoTarget(code, |code| - 1) && js == []
      modifies this`tr
      ensures Valid()
      ensures Last(old(tr)).pc == |code| - 2 ==> (Last(tr).g == Last(old(tr)).g
        && Last(tr).pc == if Taken(m, k, code[|code| - 2], Last(old(tr)).g) then |code| - 1 else |code|)
      ensures Last(old(tr)).pc != |code| - 2 ==> tr == old(tr)
      ensures forall p :: Visited(tr, p) ==> Visited(old(tr), p) || p == |code| - 2
    {
      if S().Pc() == |code| - 2 {
        ExecutedTest(m, S(), nactvar);
        tr := tr + [Step(m, k, code[|code| - 2], Last(tr))];
      }
    }

    // ---- registers and constants ----

    /** luaK_checkstack. */
    method CheckStack(n: nat)
      modifies this`maxstacksize, this`failed
      ensures maxstacksize == if freereg + n > old(maxstacksize) then freereg + n else old(maxstacksize)
      ensures failed == (old(failed) || (freereg + n > old(maxstacksize) && freereg + n >= MAXSTACK))
    {
      var newstack := freereg + n;
      if newstack > maxstacksize {
        if newstack >= MAXSTACK {
          failed := true;
        }
        maxstacksize := newstack;
      }
    }

    /** luaK_reserveregs. */
    method ReserveRegs(n: nat)
      modifies this`maxstacksize, this`failed, this`freereg
      ensures freereg == old(freereg) + n && maxstacksize == if freereg > old(maxstacksize) then freereg else old(maxstacksize)
      ensures failed == (old(failed) || (freereg > old(maxstacksize) && freereg >= MAXSTACK))
    {
      CheckStack(n);
      freereg := freereg + n;
    }

    /** freereg: only the last register in use can be freed. */
    method FreeReg(reg: RK)
      requires reg.R? && reg.i >= nactvar ==> freereg == reg.i + 1
      modifies this`freereg
      ensures freereg == if reg.R? && reg.i >= nactvar then reg.i else old(freereg)
      ensures freereg <= old(freereg)
    {
      if reg.R? && reg.i >= nactvar {
        freereg := freereg - 1;
        assert reg.i == freereg;
      }
    }

    /** freeexp. */
    method FreeExp(e: ExpDesc)
      requires e.k.VNonReloc? && e.k.info >= nactvar ==> freereg == e.k.info + 1
      modifies this`freereg
      ensures freereg == if e.k.VNonReloc? && e.k.info >= nactvar then e.k.info else old(freereg)
      ensures freereg <= old(freereg)
    {
      if e.k.VNonReloc? {
        FreeReg(R(e.k.info));
      }
    }

    /** addk: the index of a constant, which is added unless it is there already. */
    method AddK(v: Value) returns (i: nat)
      requires Valid()
      modifies this`k, this`h, this`failed
      ensures Valid() && i < |k| && k[i] == v && k == if v in old(h) then old(k) else old(k) + [v]
      ensures failed == (old(failed) || (v !in old(h) && |old(k)| >= MAXARG_BX))
    {
      hide *;
      SIs();
      ValidIs();
      if v in h {
        return h[v];
      }
      FramedIs();
      ghost var failed0 := failed;
      if |k| >= MAXARG_BX {
        failed := true;
      }
      i := |k|;
      ConstAdded(m, S(), v, nactvar);
      FrameConstant(code, |k|, freereg, maxstacksize, failed0, longest, failed);
      h := h[v := i];
      k := k + [v];
      SIs();
      FramedIs();
      ValidNow();
    }

    /** Emits an instruction that computes a value; a run that was at the end executes it. */
    method Emit(i: Instr) returns (pc: nat)
      requires Valid() && IsPlain(i) && ConstsIn(i, |k|) && InstrOk(i, maxstacksize, failed)
      modifies this`code, this`jpc, this`failed, this`js, this`tr, this`longest
      ensures Valid() && pc == |old(code)| && Emitted(m, old(S()), S(), i) && Keeps(Here(old(S())), old(S()), S()) && (old(failed) ==> failed)
    {
      hide *;
      SIs();
      ValidIs();
      PlainIs(i);
      ghost var s0 := S();
      pc := Code(i);
      SIs();
      ValidIs();
      ghost var s1 := S();
      CodedIs(s0, s1, i);
      RunLast();
      SIs();
      ExecutedCoded(m, s0, s1, S(), i, nactvar);
    }

    /** luaK_nil. */
    method Nil(from: nat, n: nat)
      requires Valid() && n > 0 && from + n <= maxstacksize
      modifies this`code, this`jpc, this`failed, this`js, this`tr, this`longest
      ensures Valid() && Cleared(old(S()), S(), from, n) && Keeps(Here(old(S())), old(S()), S()) && (old(failed) ==> failed)
    {
      hide *;
      SIs();
      ValidIs();
      ghost var s0 := S();
      if |code| > lasttarget {
        if |code| == 0 {
          if from >= nactvar {
            AlreadyClear(m, s0, from, n, nactvar);
            return;
          }
        } else if code[|code| - 1].LoadNil? {
          var pfrom, pto := code[|code| - 1].a, code[|code| - 1].to;
          if pfrom <= from && from <= pto + 1 {
            if from + n - 1 > pto {
              NilMergedInv(m, s0, from + n - 1, nactvar);
              NilMergedIs(s0, from + n - 1);
              NilCleared(m, s0, from, n, nactvar);
              FramedIs();
              FrameInstr(code, |k|, freereg, maxstacksize, failed, longest, |code| - 1);
              LoadNilMoreOk(code[|code| - 1], from + n - 1, maxstacksize, failed);
              FrameReplaced(code, |k|, freereg, maxstacksize, failed, longest, |code| - 1, LoadNil(pfrom, from + n - 1));
              tr := NilMerged(s0, from + n - 1).tr;
              code := code[|code| - 1 := LoadNil(pfrom, from + n - 1)];
              SIs();
              FramedIs();
              ValidNow();
            } else {
              NilStillClear(m, s0, from, n, nactvar);
            }
            return;
          }
        }
      }
      LoadNilIs(from, from + n - 1, |k|);
      LoadNilOk(from, from + n - 1, maxstacksize, failed);
      var pc := Emit(LoadNil(from, from + n - 1));
      NilLoaded(m, s0, S(), from, n);
    }

    // ---- delayed expressions ----

    /** discharge2reg: the value goes to the register `reg`. */
    method Discharge2Reg(e0: ExpDesc, reg: nat, ghost t: seq<int>, ghost f: seq<int>, ghost c: Scope) returns (e1: ExpDesc)
      requires Valid() && ExpOk(S(), e0, t, f, c) && !e0.k.VJmp? && ExpInFrame(e0, maxstacksize) && reg < maxstacksize
      modifies this`code, this`k, this`h, this`jpc, this`failed, this`js, this`tr, this`longest
      ensures Valid() && e1 == ExpDesc(VNonReloc(reg), e0.t, e0.f) && ExpOk(S(), e1, t, f, c)
      ensures Keeps(c, old(S()), S()) && (js == [] || js == old(js)) && (old(failed) ==> failed)
      ensures ValueIn(m, old(S()), S(), e0, reg)
    {
      hide *;
      SIs();
      ValidIs();
      ghost var s0 := S();
      var e := DischargeVars(e0);
      VarsIs(m, s0, e0, e, t, f, c);
      VarsInFrame(e0, maxstacksize);
      FramedIs();
      FrameFacts(code, |k|, freereg, maxstacksize, failed, longest);
      e1 := ExpDesc(VNonReloc(reg), e0.t, e0.f);
      if e.k.VNil? {
        Nil(reg, 1);
        ClearedValue(m, s0, S(), e, e1, reg, t, f, c);
      } else if e.k.VTrue? || e.k.VFalse? {
        LoadBoolIs(m, s0, e, reg);
        LoadBoolOk(reg, e.k.VTrue?, maxstacksize, failed);
        var pc := Emit(LoadBool(reg, e.k.VTrue?));
        EmittedValue(m, s0, S(), e, e1, LoadBool(reg, e.k.VTrue?), reg, t, f, c);
      } else if e.k.VK? {
        LoadKIs(m, s0, e, e.k.info, reg, t, f, c);
        LoadOk(reg, e.k.info, |k|, maxstacksize, failed);
        var pc := Emit(LoadK(reg, e.k.info));
        EmittedValue(m, s0, S(), e, e1, LoadK(reg, e.k.info), reg, t, f, c);
      } else if e.k.VKNum? {
        var i := AddK(Number(e.k.nval));
        SIs();
        ghost var s1 := S();
        MoreConstants(m, s0, s1, e, t, f, c);
        LoadNumIs(m, s1, e, i, reg);
        ValidIs();
        FramedIs();
        FrameFacts(code, |k|, freereg, maxstacksize, failed, longest);
        LoadOk(reg, i, |k|, maxstacksize, failed);
        var pc := Emit(LoadK(reg, i));
        EmittedValue(m, s1, S(), e, e1, LoadK(reg, i), reg, t, f, c);
        ValueAfter(m, s0, s1, S(), e, e1, reg, c);
      } else if e.k.VRelocable? {
        RelocIs(m, s0, e, reg, t, f, c, nactvar);
        FrameInstr(code, |k|, freereg, maxstacksize, failed, longest, e.k.info);
        SetAOk(code[e.k.info], reg, maxstacksize, failed);
        FrameReplaced(code, |k|, freereg, maxstacksize, failed, longest, e.k.info, SetA(code[e.k.info], reg));
        code := code[e.k.info := SetA(code[e.k.info], reg)];
        SIs();
        FramedIs();
        ValidNow();
        ghost var s1 := S();
        RunLast();
        SIs();
        RelocValue(m, s0, s1, S(), e, e1, reg, t, f, c);
      } else if e.k.VNonReloc? {
        if reg != e.k.info {
          MoveIs(m, s0, e, e.k.info, reg);
          MoveOk(reg, e, maxstacksize, failed);
          var pc := Emit(Move(reg, e.k.info));
          EmittedValue(m, s0, S(), e, e1, Move(reg, e.k.info), reg, t, f, c);
        } else {
          AlreadyThere(m, s0, e, e1, t, f, c);
        }
      }
      SIs();
      SameValueIn(m, s0, S(), e0, e, reg);
    }

    /** discharge2anyreg. */
    method Discharge2AnyReg(e: ExpDesc, ghost t: seq<int>, ghost f: seq<int>, ghost c: Scope, ghost base: nat) returns (e1: ExpDesc, r: nat)
      requires Valid() && ExpOk(S(), e, t, f, c) && !e.k.VJmp? && !e.k.VLocal? && RegsOk(e, base, freereg, nactvar) && nactvar <= base
      modifies this`code, this`k, this`h, this`jpc, this`failed, this`js, this`tr, this`longest, this`freereg, this`maxstacksize
      ensures Valid() && e1 == ExpDesc(VNonReloc(r), e.t, e.f) && ExpOk(S(), e1, t, f, c) && RegsOk(e1, base, freereg, nactvar)
      ensures Keeps(c, old(S()), S()) && (js == [] || js == old(js)) && (old(failed) ==> failed)
      ensures r < maxstacksize && old(maxstacksize) <= maxstacksize
      ensures ValueIn(m, old(S()), S(), e, r) && (r >= base || S() == old(S()))
    {
      hide *;
      SIs();
      ValidIs();
      FramedIs();
      FrameFacts(code, |k|, freereg, maxstacksize, failed, longest);
      RegsInFrame(e, base, freereg, nactvar, maxstacksize);
      if !e.k.VNonReloc? {
        DelayedRegs(e, base, freereg, nactvar);
        ghost var free0, max0, failed0 := freereg, maxstacksize, failed;
        ReserveRegs(1);
        FrameReserved(code, |k|, free0, max0, failed0, longest, freereg, maxstacksize, failed);
        FramedIs();
        FrameFacts(code, |k|, freereg, maxstacksize, failed, longest);
        InFrameMore(e, max0, maxstacksize);
        ValidNow();
        r := freereg - 1;
        e1 := Discharge2Reg(e, r, t, f, c);
        TempRegs(e1, base, freereg, nactvar);
      } else {
        r := e.k.info;
        e1 := e;
        AlreadyThere(m, S(), e, e1, t, f, c);
      }
    }

    /** A test, followed by a jump, that a run at the end of the code executes. */
    method TestAndJump(i: Instr, ghost e: ExpDesc, ghost t: seq<int>, ghost f: seq<int>, ghost c: Scope) returns (j: int, ghost l: seq<int>)
      requires Valid() && IsTest(i) && ConstsIn(i, |k|) && (i.TestSet? ==> i.t.NoReg?) && Lists(S(), e, t, f, c)
      requires InstrOk(i, maxstacksize, failed)
      modifies this`code, this`jpc, this`failed, this`js, this`tr, this`longest
      ensures Valid() && Lists(S(), e, t, f, c) && ThirdList(S(), j, l, t, f, c) && js == [] && l == [j]
      ensures Keeps(c, old(S()), S()) && (old(failed) ==> failed)
      ensures Branched(m, old(S()), S(), i, j)
    {
      hide *;
      SIs();
      ValidIs();
      ghost var s0 := S();
      j, l := CondJump(i);
      SIs();
      ValidIs();
      ghost var s1 := S();
      TestNow(s0, s1, i);
      RunTest();
      SIs();
      ValidIs();
      TestedLists(m, s0, s1, S(), i, e, j, l, t, f, c, nactvar);
    }

    /** invertjump. */
    method InvertJump(e: ExpDesc, ghost t: seq<int>, ghost f: seq<int>, ghost c: Scope)
      requires Valid() && ExpOk(S(), e, t, f, c) && e.k.VJmp?
      modifies this`code
      ensures Valid() && ExpOk(S(), e, t, f, c) && Keeps(c, old(S()), S()) && tr == old(tr) && js == old(js)
      ensures Inverted(m, old(S()), S(), e)
    {
      hide *;
      SIs();
      ValidIs();
      ghost var s0 := S();
      JumpControlled(m, s0, e, t, f, c, nactvar);
      var pc := JumpControl(e.k.info);
      FramedIs();
      FrameInstr(code, |k|, freereg, maxstacksize, failed, longest, pc);
      FlippedOk(code[pc], maxstacksize, failed);
      FrameReplaced(code, |k|, freereg, maxstacksize, failed, longest, pc, Flipped(code[pc]));
      code := code[pc := Flipped(code[pc])];
      FramedIs();
      SIs();
      InvertedIs(m, s0, S(), e, t, f, c, nactvar);
      ValidNow();
    }

    /** jumponcond: a jump that is taken when the truth of the value is `cond`. */
    method JumpOnCond(e: ExpDesc, cond: bool, ghost t: seq<int>, ghost f: seq<int>, ghost c: Scope, ghost base: nat) returns (pc: int, ghost l: seq<int>)
      requires Valid() && ExpOk(S(), e, t, f, c) && !e.k.VJmp? && !e.k.VLocal? && RegsOk(e, base, freereg, nactvar) && nactvar <= base
      modifies this`code, this`k, this`h, this`jpc, this`failed, this`js, this`tr, this`longest, this`freereg, this`maxstacksize
      ensures Valid() && Lists(S(), e, t, f, c) && ThirdList(S(), pc, l, t, f, c) && js == [] && freereg == base
      ensures Keeps(c, old(S()), S()) && (old(failed) ==> failed)
      ensures Decided(m, old(S()), S(), e, l, cond, base)
    {
      hide *;
      SIs();
      ValidIs();
      ghost var s0 := S();
      ListsOf(s0, e, t, f, c);
      if e.k.VRelocable? {
        RelocLast(m, s0, e, t, f, c, nactvar);
        if code[e.k.info].Not? {
          var b := code[e.k.info].b;
          NotRemoved(m, s0, e, t, f, c, base, freereg, nactvar);
          FramedIs();
          FrameShorter(code, |k|, freereg, maxstacksize, failed, longest);
          NotArgument(code[e.k.info], !cond, maxstacksize, failed);
          code := code[..|code| - 1];
          SIs();
          FramedIs();
          ValidNow();
          ghost var s1 := S();
          pc, l := TestAndJump(Test(b, !cond), e, t, f, c);
          DecidedByNot(m, s0, s1, S(), e, b, pc, l, cond, t, f, c, base);
          return;
        }
      }
      var e1, r := Discharge2AnyReg(e, t, f, c, base);
      SIs();
      ValidIs();
      ghost var s1 := S();
      ListsOf(s1, e1, t, f, c);
      TempOf(e1, r, base, freereg, nactvar);
      FramedIs();
      ghost var free0 := freereg;
      FreeExp(e1);
      FrameFreed(code, |k|, free0, maxstacksize, failed, longest, freereg);
      FramedIs();
      TestSetIs(r, cond, |k|);
      TestsOk(r, cond, maxstacksize, failed);
      ValidNow();
      pc, l := TestAndJump(TestSet(NoReg, r, cond), e1, t, f, c);
      DecidedByTest(m, s0, s1, S(), e, e1, r, pc, l, cond, t, f, c, base);
    }

    /** The jump of luaK_goiftrue, which is taken when the expression is false. */
    method FalseJump(e: ExpDesc, ghost t: seq<int>, ghost f: seq<int>, ghost c: Scope, ghost base: nat) returns (pc: int, ghost pl: seq<int>)
      requires Valid() && ExpOk(S(), e, t, f, c) && !e.k.VLocal? && RegsOk(e, base, freereg, nactvar) && nactvar <= base && TrueConst(S(), e)
      modifies this`code, this`k, this`h, this`jpc, this`failed, this`js, this`tr, this`longest, this`freereg, this`maxstacksize
      ensures Valid() && Lists(S(), e, t, f, c) && ThirdList(S(), pc, pl, t, f, c) && freereg == base
      ensures Keeps(c, old(S()), S()) && (old(failed) ==> failed)
      ensures Decided(m, old(S()), S(), e, pl, false, base)
    {
      hide *;
      SIs();
      ValidIs();
      ghost var s0 := S();
      ListsOf(s0, e, t, f, c);
      pc, pl := NO_JUMP, [];
      if e.k.VK? || e.k.VKNum? || e.k.VTrue? {
        NoJumpNeeded(m, s0, e, pl, t, f, c, false, base, freereg, nactvar);
      } else if e.k.VFalse? {
        DelayedRegs(e, base, freereg, nactvar);
        pc, pl := AlwaysJump(e, t, f, c, false, base);
      } else if e.k.VJmp? {
        DelayedRegs(e, base, freereg, nactvar);
        InvertJump(e, t, f, c);
        SIs();
        ghost var s1 := S();
        pc, pl := TakeJump(e, t, f, c, base);
        DecidedInverted(m, s0, s1, S(), e, pl, c, base);
      } else {
        pc, pl := JumpOnCond(e, false, t, f, c, base);
      }
    }

    /** luaK_goiftrue: code goes on if the expression is true; otherwise it takes a jump of the list that is returned. */
    method GoIfTrue(e0: ExpDesc, ghost t: seq<int>, ghost f: seq<int>, ghost c: Scope, ghost base: nat) returns (list: int, ghost l: seq<int>)
      requires Valid() && ExpOk(S(), e0, t, f, c) && RegsOk(e0, base, freereg, nactvar) && nactvar <= base && TrueConst(S(), e0)
      modifies this`code, this`k, this`h, this`jpc, this`failed, this`js, this`tr, this`longest, this`freereg, this`maxstacksize, this`lasttarget
      ensures Valid() && ThirdList(S(), list, l, [], [], c) && AllInside(js, c) && c.n <= |code| && freereg == base
      ensures Keeps(c, old(S()), S()) && (old(failed) ==> failed)
      ensures WentOn(m, old(S()), S(), e0, t, f, l, true, base)
    {
      hide *;
      SIs();
      ValidIs();
      ghost var s0 := S();
      var e := DischargeVars(e0);
      AnyVars(m, s0, e0, e, t, f, c, base, freereg, nactvar);
      ListsOf(s0, e, t, f, c);
      ReadyOffLists(m, s0, e, t, f, c);
      var pc, pl := FalseJump(e, t, f, c, base);
      SIs();
      ValidIs();
      ghost var s1 := S();
      DecidedLists(m, s0, s1, e, pc, pl, t, f, c, false, base);
      list := Concat(e.f, pc, f, pl);
      SIs();
      l := f + pl;
      JoinedLists(m, s1, S(), e.t, t, list, f, pl, pc, c, nactvar);
      ValidNow();
      ghost var s2 := S();
      PatchToHere(e.t, t);
      SIs();
      HereLists(s2, S(), list, l, t, c);
      WentOnIs(m, s0, s1, s2, S(), e0, e, t, f, pl, l, c, true, base);
    }

    /** The jump of luaK_goiffalse. */
    method TrueJump(e: ExpDesc, ghost t: seq<int>, ghost f: seq<int>, ghost c: Scope, ghost base: nat) returns (pc: int, ghost pl: seq<int>)
      requires Valid() && ExpOk(S(), e, t, f, c) && !e.k.VLocal? && RegsOk(e, base, freereg, nactvar) && nactvar <= base && TrueConst(S(), e)
      modifies this`code, this`k, this`h, this`jpc, this`failed, this`js, this`tr, this`longest, this`freereg, this`maxstacksize
      ensures Valid() && Lists(S(), e, t, f, c) && ThirdList(S(), pc, pl, t, f, c) && freereg == base
      ensures Keeps(c, old(S()), S()) && (old(failed) ==> failed)
      ensures Decided(m, old(S()), S(), e, pl, true, base)
    {
      hide *;
      SIs();
      ValidIs();
      ghost var s0 := S();
      ListsOf(s0, e, t, f, c);
      pc, pl := NO_JUMP, [];
      if e.k.VNil? || e.k.VFalse? {
        NoJumpNeeded(m, s0, e, pl, t, f, c, true, base, freereg, nactvar);
      } else if e.k.VTrue? {
        DelayedRegs(e, base, freereg, nactvar);
        pc, pl := AlwaysJump(e, t, f, c, true, base);
      } else if e.k.VJmp? {
        DelayedRegs(e, base, freereg, nactvar);
        pc, pl := TakeJump(e, t, f, c, base);
      } else {
        pc, pl := JumpOnCond(e, true, t, f, c, base);
      }
    }

    /** luaK_goiffalse. */
    method GoIfFalse(e0: ExpDesc, ghost t: seq<int>, ghost f: seq<int>, ghost c: Scope, ghost base: nat) returns (list: int, ghost l: seq<int>)
      requires Valid() && ExpOk(S(), e0, t, f, c) && RegsOk(e0, base, freereg, nactvar) && nactvar <= base && TrueConst(S(), e0)
      modifies this`code, this`k, this`h, this`jpc, this`failed, this`js, this`tr, this`longest, this`freereg, this`maxstacksize, this`lasttarget
      ensures Valid() && ThirdList(S(), list, l, [], [], c) && AllInside(js, c) && c.n <= |code| && freereg == base
      ensures Keeps(c, old(S()), S()) && (old(failed) ==> failed)
      ensures WentOn(m, old(S()), S(), e0, f, t, l, false, base)
    {
      hide *;
      SIs();
      ValidIs();
      ghost var s0 := S();
      var e := DischargeVars(e0);
      AnyVars(m, s0, e0, e, t, f, c, base, freereg, nactvar);
      ListsOf(s0, e, t, f, c);
      ReadyOffLists(m, s0, e, t, f, c);
      var pc, pl := TrueJump(e, t, f, c, base);
      SIs();
      ValidIs();
      ghost var s1 := S();
      DecidedLists(m, s0, s1, e, pc, pl, t, f, c, true, base);
      list := Concat(e.t, pc, t, pl);
      SIs();
      l := t + pl;
      JoinedLists(m, s1, S(), e.f, f, list, t, pl, pc, c, nactvar);
      ValidNow();
      ghost var s2 := S();
      PatchToHere(e.f, f);
      SIs();
      HereLists(s2, S(), list, l, f, c);
      WentOnIs(m, s0, s1, s2, S(), e0, e, f, t, pl, l, c, false, base);
    }

    /** An unconditional jump: the value of the expression is constant. The pending jumps go where it goes. */
    method AlwaysJump(e: ExpDesc, ghost t: seq<int>, ghost f: seq<int>, ghost c: Scope, ghost cond: bool, ghost base: nat) returns (pc: int, ghost l: seq<int>)
      requires Valid() && ExpOk(S(), e, t, f, c) && e.k == (if cond then VTrue else VFalse)
      modifies this`code, this`jpc, this`failed, this`js, this`tr, this`longest
      ensures Valid() && Lists(S(), e, t, f, c) && ThirdList(S(), pc, l, t, f, c) && js == []
      ensures Keeps(c, old(S()), S()) && (old(failed) ==> failed)
      ensures Decided(m, old(S()), S(), e, l, cond, base)
    {
      hide *;
      SIs();
      ValidIs();
      ghost var s0 := S();
      pc, l := Jump();
      SIs();
      ValidIs();
      JumpDecided(m, s0, S(), e, pc, l, t, f, c, cond, base, nactvar);
    }

    /** The jump of a comparison is used as it is. */
    method TakeJump(e: ExpDesc, ghost t: seq<int>, ghost f: seq<int>, ghost c: Scope, ghost base: nat) returns (pc: int, ghost l: seq<int>)
      requires Valid() && ExpOk(S(), e, t, f, c) && e.k.VJmp?
      modifies this`tr
      ensures Valid() && Lists(S(), e, t, f, c) && ThirdList(S(), pc, l, t, f, c) && js == []
      ensures Keeps(c, old(S()), S())
      ensures Decided(m, old(S()), S(), e, l, true, base)
    {
      hide *;
      SIs();
      ValidIs();
      ghost var s0 := S();
      JumpReady(m, s0, e, t, f, c, nactvar);
      pc := e.k.info;
      l := [pc];
      RunTest();
      SIs();
      ValidIs();
      JumpTaken(m, s0, S(), e, pc, l, t, f, c, base, nactvar);
    }

    /** removevalues: the tests that control the jumps of the list set no register. */
    method RemoveValues(list: int, ghost l: seq<int>)
      requires IsList(code, list, l)
      modifies this`code
      ensures ValuesRemoved(old(code), code) && (old(Framed()) ==> Framed())
    {
      FramedIs();
      hide *;
      var p := list;
      ghost var i := 0;
      NotNoJump(code, list, l);
      NothingRemoved(code);
      SafeRefl(code, failed);
      while p != NO_JUMP
        invariant 0 <= i <= |l| && p == (if i < |l| then l[i] else NO_JUMP)
        invariant ValuesRemoved(old(code), code) && SafelyPatched(old(code), failed, code, failed)
        decreases |l| - i
      {
        RemovedList(old(code), code, list, l, i);
        ghost var code1 := code;
        var next := GetJump(code, p);
        var patched := PatchTestReg(p);
        RemovedOne(old(code), code1, code, list, l, i);
        SafeTrans(old(code), failed, code1, failed, code, failed);
        p := next;
        i := i + 1;
      }
      FramedPatched(old(code), failed);
    }

    /** An instruction whose register will be chosen later: no run executes it yet. */
    method CodeReloc(i: Instr, ghost e: ExpDesc, ghost t: seq<int>, ghost f: seq<int>, ghost c: Scope) returns (info: nat)
      requires Valid() && Delayed(i) && ConstsIn(i, |k|) && Lists(S(), e, t, f, c) && InstrOk(i, maxstacksize, failed)
      modifies this`code, this`jpc, this`failed, this`js, this`tr, this`longest
      ensures Valid() && Lists(S(), e, t, f, c) && Keeps(c, old(S()), S()) && (old(failed) ==> failed)
      ensures Relocatable(old(S()), S(), i, info, c)
    {
      hide *;
      SIs();
      ValidIs();
      DelayedIs(i);
      ghost var s0 := S();
      info := Code(i);
      SIs();
      ValidIs();
      RelocCoded(m, s0, S(), i, info, e, t, f, c, nactvar);
    }

    /** codenot. */
    method CodeNot(e0: ExpDesc, ghost t: seq<int>, ghost f: seq<int>, ghost c: Scope, ghost base: nat) returns (e1: ExpDesc)
      requires Valid() && ExpOk(S(), e0, t, f, c) && RegsOk(e0, base, freereg, nactvar) && nactvar <= base && TrueConst(S(), e0)
      modifies this`code, this`k, this`h, this`jpc, this`failed, this`js, this`tr, this`longest, this`freereg, this`maxstacksize
      ensures Valid() && ExpOk(S(), e1, f, t, c) && RegsOk(e1, base, freereg, nactvar) && !e1.k.VK?
      ensures Keeps(c, old(S()), S()) && (old(failed) ==> failed)
      ensures Negated(m, old(S()), S(), e0, e1, base)
    {
      hide *;
      SIs();
      ValidIs();
      ghost var s0 := S();
      var e := DischargeVars(e0);
      AnyVars(m, s0, e0, e, t, f, c, base, freereg, nactvar);
      if e.k.VNil? || e.k.VFalse? {
        e1 := e.(k := VTrue);
        NegatedConst(m, s0, e, e1, t, f, c, base, freereg, nactvar);
      } else if e.k.VK? || e.k.VKNum? || e.k.VTrue? {
        e1 := e.(k := VFalse);
        NegatedConst(m, s0, e, e1, t, f, c, base, freereg, nactvar);
      } else if e.k.VJmp? {
        InvertJump(e, t, f, c);
        e1 := e;
        SIs();
        NegatedJump(m, s0, S(), e, base);
      } else {
        var e2, r := Discharge2AnyReg(e, t, f, c, base);
        SIs();
        ValidIs();
        ghost var s1 := S();
        TempOf(e2, r, base, freereg, nactvar);
        FramedIs();
        ghost var free0 := freereg;
        FreeExp(e2);
        FrameFreed(code, |k|, free0, maxstacksize, failed, longest, freereg);
        FramedIs();
        ListsOf(s1, e2, t, f, c);
        NotIs(r, |k|);
        UnaryOk(r, maxstacksize, failed);
        ValidNow();
        var info := CodeReloc(Not(0, r), e2, t, f, c);
        e1 := e.(k := VRelocable(info));
        NegatedReg(m, s0, s1, S(), e, e2, e1, r, info, t, f, c, base, freereg, nactvar);
      }
      ghost var s2 := S();
      SIs();
      ValidIs();
      ListsOf(s2, e1, t, f, c);
      e1 := e1.(t := e1.f, f := e1.t);
      RemoveValues(e1.f, t);
      ghost var code1 := code;
      RemovedLists(s2.code, code1, e1.t, f);
      RemoveValues(e1.t, f);
      SIs();
      RemovedBoth(s2.code, code1, code);
      SwappedExp(m, s2, S(), e1.(t := e1.f, f := e1.t), e1, t, f, c, base, freereg, nactvar);
      ValidNow();
      NegatedLater(m, s0, s2, S(), e0, e, e1.(t := e1.f, f := e1.t), e1, c, base);
    }

    // ---- operands ----

    /** luaK_exp2nextreg, for an expression without jumps: its value goes to the next register. */
    method Exp2NextReg(e0: ExpDesc, ghost c: Scope, ghost base: nat) returns (e1: ExpDesc)
      requires Valid() && ExpOk(S(), e0, [], [], c) && !e0.k.VJmp? && RegsOk(e0, base, freereg, nactvar) && nactvar <= base
      modifies this`code, this`k, this`h, this`jpc, this`failed, this`js, this`tr, this`longest, this`freereg, this`maxstacksize
      ensures Valid() && e1 == ExpDesc(VNonReloc(base), e0.t, e0.f) && ExpOk(S(), e1, [], [], c) && freereg == base + 1
      ensures Keeps(c, old(S()), S()) && (old(failed) ==> failed) && old(maxstacksize) <= maxstacksize
      ensures ValueIn(m, old(S()), S(), e0, base)
    {
      hide *;
      SIs();
      ValidIs();
      ghost var s0 := S();
      var e := DischargeVars(e0);
      AnyVars(m, s0, e0, e, [], [], c, base, freereg, nactvar);
      FreeRegs(e, base, freereg, nactvar);
      FramedIs();
      FrameFacts(code, |k|, freereg, maxstacksize, failed, longest);
      RegsInFrame(e, base, freereg, nactvar, maxstacksize);
      ghost var free0, max0, failed0 := freereg, maxstacksize, failed;
      FreeExp(e);
      FrameFreed(code, |k|, free0, maxstacksize, failed, longest, freereg);
      ghost var free1 := freereg;
      ReserveRegs(1);
      FrameReserved(code, |k|, free1, max0, failed0, longest, freereg, maxstacksize, failed);
      FramedIs();
      FrameFacts(code, |k|, freereg, maxstacksize, failed, longest);
      InFrameMore(e, max0, maxstacksize);
      ValidNow();
      e1 := Discharge2Reg(e, freereg - 1, [], [], c);
      SIs();
      ValidIs();
      SameValueIn(m, s0, S(), e0, e, base);
    }

    /** luaK_exp2anyreg, for an expression without jumps. */
    method Exp2AnyReg(e0: ExpDesc, ghost c: Scope, ghost base: nat) returns (e1: ExpDesc, r: nat)
      requires Valid() && ExpOk(S(), e0, [], [], c) && !e0.k.VJmp? && nactvar <= base && ExpInFrame(e0, maxstacksize)
      requires e0.k.VNonReloc? || RegsOk(e0, base, freereg, nactvar)
      modifies this`code, this`k, this`h, this`jpc, this`failed, this`js, this`tr, this`longest, this`freereg, this`maxstacksize
      ensures Valid() && e1 == ExpDesc(VNonReloc(r), e0.t, e0.f) && ExpOk(S(), e1, [], [], c)
      ensures if e0.k.VNonReloc? then S() == old(S()) && freereg == old(freereg) && e1 == e0 else RegsOk(e1, base, freereg, nactvar)
      ensures Keeps(c, old(S()), S()) && (old(failed) ==> failed)
      ensures ValueIn(m, old(S()), S(), e0, r) && (r >= base || S() == old(S()))
      ensures r < maxstacksize && old(maxstacksize) <= maxstacksize
    {
      hide *;
      SIs();
      ValidIs();
      ghost var s0 := S();
      var e := DischargeVars(e0);
      AnyVarsOnly(m, s0, e0, e, [], [], c, base, freereg, nactvar);
      VarsInFrame(e0, maxstacksize);
      InFrameIs(e, maxstacksize);
      if e.k.VNonReloc? {
        r := e.k.info;
        e1 := e;
        AlreadyThere(m, s0, e, e1, [], [], c);
        SameValueIn(m, s0, S(), e0, e, r);
        return;
      }
      e1 := Exp2NextReg(e, c, base);
      r := e1.k.info;
      SIs();
      SameValueIn(m, s0, S(), e0, e, r);
      TempRegs(e1, base, freereg, nactvar);
      ValidIs();
      FramedIs();
      FrameFacts(code, |k|, freereg, maxstacksize, failed, longest);
    }

    /** luaK_exp2RK, for an expression without jumps. */
    method Exp2RK(e0: ExpDesc, ghost c: Scope, ghost base: nat) returns (e1: ExpDesc, o: RK)
      requires Valid() && ExpOk(S(), e0, [], [], c) && !e0.k.VJmp? && nactvar <= base && ExpInFrame(e0, maxstacksize)
      requires e0.k.VNonReloc? || RegsOk(e0, base, freereg, nactvar)
      modifies this`code, this`k, this`h, this`jpc, this`failed, this`js, this`tr, this`longest, this`freereg, this`maxstacksize
      ensures Valid() && ExpOk(S(), e1, [], [], c) && OperandIs(S(), e1, o)
      ensures if e0.k.VNonReloc? then S() == old(S()) && freereg == old(freereg) && e1 == e0 else RegsOk(e1, base, freereg, nactvar)
      ensures Keeps(c, old(S()), S()) && (old(failed) ==> failed)
      ensures Loaded(m, old(S()), S(), e0, o, base)
      ensures RKBelow(o, maxstacksize) && RKShort(o) && old(maxstacksize) <= maxstacksize
    {
      hide *;
      SIs();
      ValidIs();
      ghost var s0 := S();
      var e := DischargeVars(e0);
      AnyVarsOnly(m, s0, e0, e, [], [], c, base, freereg, nactvar);
      VarsInFrame(e0, maxstacksize);
      if e.k.VKNum? || e.k.VTrue? || e.k.VFalse? || e.k.VNil? {
        if |k| <= MAXINDEXRK {
          var i := AddK(Constant(e));
          SIs();
          ValidIs();
          e1 := e.(k := VK(i));
          o := K(i);
          RKConstant(i, maxstacksize);
          ConstantLoaded(m, s0, S(), e0, e, e1, i, c, base, freereg, nactvar);
          return;
        }
      } else if e.k.VK? {
        if e.k.info <= MAXINDEXRK {
          e1 := e;
          o := K(e.k.info);
          RKConstant(e.k.info, maxstacksize);
          ConstantThere(m, s0, e0, e, e.k.info, c, base, freereg, nactvar);
          return;
        }
      }
      var r;
      e1, r := Exp2AnyReg(e, c, base);
      o := R(r);
      RKOf(r, maxstacksize);
      SIs();
      ValidIs();
      RegisterLoaded(m, s0, S(), e0, e, e1, r, c, base);
    }

    // ---- arithmetic and comparisons ----

    /** constfolding: divisions by zero and results that are not numbers are left to the program. */
    method ConstFolding(op: ArithOp, e1: ExpDesc, e2: ExpDesc) returns (ok: bool, r: int)
      ensures ok ==> e1.k.VKNum? && e2.k.VKNum? && r == m.num(op, e1.k.nval, e2.k.nval) && !m.isnan(r)
    {
      r := 0;
      if !e1.k.VKNum? || !e2.k.VKNum? || e1.t != NO_JUMP || e1.f != NO_JUMP || e2.t != NO_JUMP || e2.f != NO_JUMP {
        return false, r;
      }
      if (op == Div || op == Mod) && e2.k.nval == 0 {
        return false, r;
      }
      r := m.num(op, e1.k.nval, e2.k.nval);
      ok := !m.isnan(r);
    }

    /** Frees the registers of two operands, the higher one first. */
    method FreeBoth(e1: ExpDesc, e2: ExpDesc, o1: RK, o2: RK, ghost base: nat, ghost base2: nat, ghost base3: nat)
      requires OperandRegs(e1, e2, o1, o2, base, base2, base3, freereg, nactvar)
      modifies this`freereg
      ensures freereg == base <= old(freereg)
    {
      if Encoded(o1) > Encoded(o2) {
        FreeExp(e1);
        FreeExp(e2);
      } else {
        FreeExp(e2);
        FreeExp(e1);
      }
    }

    /** codearith, for binary operators: the operands are loaded, and the result can go to any register. */
    method CodeArith(op: ArithOp, e1: ExpDesc, e2: ExpDesc, ghost c: Scope, ghost base: nat, ghost base2: nat) returns (e: ExpDesc)
      requires Valid() && Stable(S(), e1) && ExpOk(S(), e2, [], [], c) && !e2.k.VJmp?
      requires RegsOk(e1, base, base2, nactvar) && RegsOk(e2, base2, freereg, nactvar) && nactvar <= base
      modifies this`code, this`k, this`h, this`jpc, this`failed, this`js, this`tr, this`longest, this`freereg, this`maxstacksize
      ensures Valid() && ExpOk(S(), e, [], [], c) && !e.k.VJmp? && !e.k.VK? && RegsOk(e, base, freereg, nactvar) && IsNumber(m, e)
      ensures Keeps(c, old(S()), S()) && (old(failed) ==> failed)
      ensures Computed(m, old(S()), S(), e2, e, Arith(m, op, ValueNow(m, old(S()), e1), ValueNow(m, old(S()), e2)), base)
    {
      hide *;
      SIs();
      ValidIs();
      ghost var s0 := S();
      var ok, r := ConstFolding(op, e1, e2);
      if ok {
        e := e1.(k := VKNum(r));
        Folded(m, s0, op, e1, e2, e, r, c, base, base2, freereg, nactvar);
        return;
      }
      BaseOrder(e1, base, base2, nactvar);
      BothInFrame(e1, e2, base, base2);
      ghost var max0 := maxstacksize;
      var f2, o2 := Exp2RK(e2, c, base2);
      SIs();
      ValidIs();
      ghost var s1, base3, max1 := S(), freereg, maxstacksize;
      StableExp(m, s0, s1, e1, e2, f2, o2, c, base, base2, base3, nactvar);
      InFrameMore(e1, max0, maxstacksize);
      var f1, o1 := Exp2RK(e1, c, base3);
      SIs();
      ValidIs();
      RKMore(o2, max1, maxstacksize);
      ghost var s2 := S();
      BothOperands(m, s0, s1, s2, e1, e2, f1, f2, o1, o2, c, base, base2, base3, freereg, nactvar);
      FramedIs();
      FrameFacts(code, |k|, freereg, maxstacksize, failed, longest);
      ghost var free0 := freereg;
      FreeBoth(f1, f2, o1, o2, base, base2, base3);
      FrameFreed(code, |k|, free0, maxstacksize, failed, longest, freereg);
      FramedIs();
      ValidNow();
      ArithIs(s2, op, f1, f2, o1, o2, c);
      ArithOk(op, o1, o2, maxstacksize, failed);
      var info := CodeReloc(ArithI(op, 0, o1, o2), f1, [], [], c);
      e := f1.(k := VRelocable(info));
      ComputedIs(m, s0, s2, S(), op, e1, e2, f1, e, o1, o2, info, c, base, freereg, nactvar);
    }

    /** luaK_prefix with OPR_MINUS. */
    method PrefixMinus(e0: ExpDesc, ghost c: Scope, ghost base: nat) returns (e: ExpDesc)
      requires Valid() && ExpOk(S(), e0, [], [], c) && !e0.k.VJmp? && RegsOk(e0, base, freereg, nactvar) && nactvar <= base && IsNumber(m, e0)
      modifies this`code, this`k, this`h, this`jpc, this`failed, this`js, this`tr, this`longest, this`freereg, this`maxstacksize
      ensures Valid() && ExpOk(S(), e, [], [], c) && !e.k.VJmp? && !e.k.VK? && RegsOk(e, base, freereg, nactvar) && IsNumber(m, e)
      ensures Keeps(c, old(S()), S()) && (old(failed) ==> failed)
      ensures Computed(m, old(S()), S(), e0, e, Negate(m, ValueNow(m, old(S()), e0)), base)
    {
      hide *;
      SIs();
      ValidIs();
      ghost var s0 := S();
      NoLists(s0, e0, c);
      if e0.k.VKNum? && e0.t == NO_JUMP && e0.f == NO_JUMP {
        var r := m.unm(e0.k.nval);
        if !m.isnan(r) {
          e := e0.(k := VKNum(r));
          NegatedNumber(m, s0, e0, e, r, c, base, freereg, nactvar);
          return;
        }
        NegationIsNumber(m, e0);
        assert false;
      }
      InFrameNow(e0, base);
      var e1, r := Exp2AnyReg(e0, c, base);
      SIs();
      ValidIs();
      ghost var s1 := S();
      AnyRegs(e0, e1, r, base, freereg, nactvar);
      FramedIs();
      ghost var free0 := freereg;
      FreeExp(e1);
      FrameFreed(code, |k|, free0, maxstacksize, failed, longest, freereg);
      FramedIs();
      ListsOf(s1, e1, [], [], c);
      UnmIs(r, |k|);
      UnaryOk(r, maxstacksize, failed);
      ValidNow();
      var info := CodeReloc(Unm(0, r), e1, [], [], c);
      e := e1.(k := VRelocable(info));
      UnmDone(m, s0, s1, S(), e0, e1, e, r, info, c, base, freereg, nactvar);
    }

    /** Frees the registers of the second operand of a comparison and then those of the first one. */
    method FreeInOrder(e2: ExpDesc, e1: ExpDesc, ghost base: nat, ghost base2: nat)
      requires Valid() && nactvar <= base
      requires e2.k.VNonReloc? && e2.k.info >= nactvar ==> freereg == e2.k.info + 1
      requires e1.k.VNonReloc? && e1.k.info >= nactvar ==> base2 == e1.k.info + 1
      requires (if e2.k.VNonReloc? && e2.k.info >= nactvar then e2.k.info else freereg) == base2
      requires (if e1.k.VNonReloc? && e1.k.info >= nactvar then e1.k.info else base2) == base
      modifies this`freereg
      ensures Valid() && freereg == base
    {
      hide *;
      SIs();
      ValidIs();
      FramedIs();
      ghost var free0 := freereg;
      FreeExp(e2);
      FreeExp(e1);
      FrameFreed(code, |k|, free0, maxstacksize, failed, longest, freereg);
      FramedIs();
      ValidNow();
    }

    /** codecomp; luaK_infix has loaded the first operand. */
    method CodeComp(op: CmpOp, cond: bool, e1: ExpDesc, e2: ExpDesc, ghost c: Scope, ghost base: nat, ghost base2: nat) returns (e: ExpDesc)
      requires Valid() && Stable(S(), e1) && !e1.k.VKNum? && ExpOk(S(), e2, [], [], c) && !e2.k.VJmp?
      requires RegsOk(e1, base, base2, nactvar) && RegsOk(e2, base2, freereg, nactvar) && nactvar <= base
      modifies this`code, this`k, this`h, this`jpc, this`failed, this`js, this`tr, this`longest, this`freereg, this`maxstacksize
      ensures Valid() && ExpOk(S(), e, [], [], c) && e.k.VJmp? && RegsOk(e, base, freereg, nactvar)
      ensures Keeps(c, old(S()), S()) && (old(failed) ==> failed)
      ensures Computed(m, old(S()), S(), e2, e, Boolean(Related(m, op, cond, ValueNow(m, old(S()), e1), ValueNow(m, old(S()), e2))), base)
    {
      hide *;
      SIs();
      ValidIs();
      ghost var s0 := S();
      BaseOrder(e1, base, base2, nactvar);
      var o1 := LoadedOperand(e1);
      BothInFrame(e1, e2, base, base2);
      StableOperand(s0, e1, maxstacksize);
      ghost var max0 := maxstacksize;
      var f2, o2 := Exp2RK(e2, c, base2);
      SIs();
      ValidIs();
      RKMore(o1, max0, maxstacksize);
      ghost var s1 := S();
      CompOperands(m, s0, s1, e1, e2, f2, o1, o2, c, base, base2, freereg, nactvar);
      FreeInOrder(f2, e1, base, base2);
      var a, b, jmp := o1, o2, cond;
      if !cond && op != Eq {
        a, b := o2, o1;
        jmp := true;
      }
      CompareIs(s1, op, jmp, a, b, |k|, o1, o2);
      CompareOk(op, jmp, a, b, maxstacksize, failed);
      var j, l := CondJump(CompareI(op, jmp, a, b));
      e := ExpDesc(VJmp(j), NO_JUMP, NO_JUMP);
      SIs();
      ValidIs();
      CompDone(m, s0, s1, S(), op, cond, jmp, a, b, e1, e2, f2, e, o1, o2, j, c, base, freereg, nactvar);
    }

    /** What the invariant says about the limits. */
    lemma Limits()
      requires Valid()
      ensures WithinLimits(code, freereg, maxstacksize, failed)
      ensures failed ==> maxstacksize >= MAXSTACK || |k| > MAXARG_BX || longest > MAXARG_SBX
    {
      hide *;
      ValidIs();
      FramedIs();
      FrameLimits(code, |k|, freereg, maxstacksize, failed, longest);
    }

    /** The register of an expression belongs to the frame. */
    lemma InFrameNow(e: ExpDesc, base: nat)
      requires Valid() && RegsOk(e, base, freereg, nactvar) && nactvar <= base
      ensures ExpInFrame(e, maxstacksize)
    {
      hide *;
      ValidIs();
      FramedIs();
      FrameFacts(code, |k|, freereg, maxstacksize, failed, longest);
      RegsInFrame(e, base, freereg, nactvar, maxstacksize);
    }

    /** The registers of two operands belong to the frame. */
    lemma BothInFrame(e1: ExpDesc, e2: ExpDesc, base: nat, base2: nat)
      requires Valid() && RegsOk(e1, base, base2, nactvar) && RegsOk(e2, base2, freereg, nactvar) && nactvar <= base <= base2
      ensures ExpInFrame(e1, maxstacksize) && ExpInFrame(e2, maxstacksize)
    {
      hide *;
      ValidIs();
      FramedIs();
      FrameFacts(code, |k|, freereg, maxstacksize, failed, longest);
      BaseOrder(e2, base2, freereg, nactvar);
      RegsInFrame(e2, base2, freereg, nactvar, maxstacksize);
      RegsInFrame(e1, base, base2, nactvar, maxstacksize);
    }

    lemma ValidIs()
      requires Valid()
      ensures GenInv(m, S(), nactvar) && nactvar <= freereg && ConstantsKnown(k, h) && tr != [] && StartsAt(tr, init) && NegationSane(m)
      ensures Framed()
    {
    }

    lemma ValidNow()
      requires GenInv(m, S(), nactvar) && nactvar <= freereg && ConstantsKnown(k, h) && StartsAt(tr, init) && NegationSane(m) && Framed()
      ensures Valid()
    {
    }
  }
}
