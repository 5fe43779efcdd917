/** The limits of a function: the registers of its frame, and the arguments that its instructions can hold. */
module Frames {
  import opened Machine
  import opened JumpLists
  import opened GenExps
  import opened GenFacts

  predicate RKBelow(x: RK, n: nat) {
    x.R? ==> x.i < n
  }

  /** The instruction names only registers below `n`. */
  predicate RegsBelow(i: Instr, n: nat) {
    match i
    case Move(a, b) => a < n && b < n
    case LoadK(a, _) => a < n
    case LoadBool(a, _) => a < n
    case LoadNil(a, to) => a < n && to < n
    case ArithI(_, a, rb, rc) => a < n && RKBelow(rb, n) && RKBelow(rc, n)
    case Unm(a, b) => a < n && b < n
    case Not(a, b) => a < n && b < n
    case CompareI(_, _, rb, rc) => RKBelow(rb, n) && RKBelow(rc, n)
    case Test(b, _) => b < n
    case TestSet(t, b, _) => b < n && (t.Reg? ==> t.i < n)
    case _ => true
  }

  predicate RKShort(x: RK) {
    x.K? ==> x.i <= MAXINDEXRK
  }

  /** The constants of an RK argument fit into its nine bits. */
  predicate OperandsShort(i: Instr) {
    match i
    case ArithI(_, _, rb, rc) => RKShort(rb) && RKShort(rc)
    case CompareI(_, _, rb, rc) => RKShort(rb) && RKShort(rc)
    case _ => true
  }

  /** The arguments Bx and sBx fit into their eighteen bits. */
  predicate LongArgument(i: Instr) {
    match i
    case LoadK(_, bx) => bx <= MAXARG_BX
    case Jmp(sbx) => -MAXARG_SBX <= sbx <= MAXARG_SBX
    case _ => true
  }

  predicate InstrOk(i: Instr, n: nat, failed: bool) {
    RegsBelow(i, n) && OperandsShort(i) && (failed || LongArgument(i))
  }

  ghost predicate CodeOk(code: seq<Instr>, n: nat, failed: bool) {
    forall q :: 0 <= q < |code| ==> InstrOk(code[q], n, failed)
  }

  /** No register beyond the frame is in use or named by an instruction, and the parser has given up exactly if a
      limit was exceeded; `longest` is how long the code has been. */
  ghost predicate InFrame(code: seq<Instr>, constants: nat, freereg: nat, maxstack: nat, failed: bool, longest: nat) {
    && freereg <= maxstack && 2 <= maxstack && |code| <= longest && CodeOk(code, maxstack, failed)
    && (maxstack >= MAXSTACK || constants > MAXARG_BX ==> failed)
    && (failed ==> maxstack >= MAXSTACK || constants > MAXARG_BX || longest > MAXARG_SBX)
  }

  /** No instruction names a register outside the frame, and while the parser has not given up, the frame is small
      enough and every instruction can be encoded. */
  ghost predicate WithinLimits(code: seq<Instr>, freereg: nat, maxstack: nat, failed: bool) {
    && freereg <= maxstack && (maxstack >= MAXSTACK ==> failed)
    && (forall q :: 0 <= q < |code| ==> RegsBelow(code[q], maxstack) && OperandsShort(code[q]))
    && (!failed ==> forall q :: 0 <= q < |code| ==> LongArgument(code[q]))
  }

  lemma FrameLimits(code: seq<Instr>, constants: nat, freereg: nat, maxstack: nat, failed: bool, longest: nat)
    requires InFrame(code, constants, freereg, maxstack, failed, longest)
    ensures WithinLimits(code, freereg, maxstack, failed)
    ensures failed ==> maxstack >= MAXSTACK || constants > MAXARG_BX || longest > MAXARG_SBX
  {
    hide RegsBelow;
    hide OperandsShort;
    hide LongArgument;
    forall q | 0 <= q < |code|
      ensures RegsBelow(code[q], maxstack) && OperandsShort(code[q]) && (failed || LongArgument(code[q]))
    {
      assert InstrOk(code[q], maxstack, failed);
    }
  }

  // ---- changing jumps and the tests in front of them ----

  /** Whatever was within the limits still is, or the parser gives up, and then the code is long. */
  ghost predicate SafelyPatched(code: seq<Instr>, failed: bool, code1: seq<Instr>, failed1: bool) {
    && |code1| == |code| && (failed ==> failed1) && (failed1 ==> failed || |code| > MAXARG_SBX)
    && forall n: nat :: CodeOk(code, n, failed) ==> CodeOk(code1, n, failed1)
  }

  lemma SafeRefl(code: seq<Instr>, failed: bool)
    ensures SafelyPatched(code, failed, code, failed)
  {
  }

  lemma SafeTrans(code: seq<Instr>, f: bool, code1: seq<Instr>, f1: bool, code2: seq<Instr>, f2: bool)
    requires SafelyPatched(code, f, code1, f1) && SafelyPatched(code1, f1, code2, f2)
    ensures SafelyPatched(code, f, code2, f2)
  {
    hide CodeOk;
  }

  lemma SafeFails(code: seq<Instr>, f: bool, code1: seq<Instr>, f1: bool)
    requires SafelyPatched(code, f, code1, f1)
    ensures |code1| == |code| && (f ==> f1)
  {
    hide CodeOk;
  }

  lemma FixedSafe(code: seq<Instr>, failed: bool, pc: nat, dest: int, failed1: bool)
    requires IsJump(code, pc) && 0 <= dest <= |code|
    requires failed1 == (failed || dest - (pc + 1) > MAXARG_SBX || dest - (pc + 1) < -MAXARG_SBX)
    ensures SafelyPatched(code, failed, code[pc := Jmp(dest - (pc + 1))], failed1)
  {
    var code1 := code[pc := Jmp(dest - (pc + 1))];
    forall n: nat | CodeOk(code, n, failed)
      ensures CodeOk(code1, n, failed1)
    {
      forall q | 0 <= q < |code1|
        ensures InstrOk(code1[q], n, failed1)
      {
        assert InstrOk(code[q], n, failed);
      }
    }
  }

  lemma TestSafe(code: seq<Instr>, code1: seq<Instr>, node: nat, failed: bool)
    requires IsJump(code, node) && TestPatched(code, code1, node)
    ensures SafelyPatched(code, failed, code1, failed)
  {
    forall n: nat | CodeOk(code, n, failed)
      ensures CodeOk(code1, n, failed)
    {
      forall q | 0 <= q < |code1|
        ensures InstrOk(code1[q], n, failed)
      {
        assert InstrOk(code[q], n, failed);
      }
    }
  }

  lemma StillJump(code: seq<Instr>, code1: seq<Instr>, p: nat)
    requires TestPatched(code, code1, p) && IsJump(code, p)
    ensures IsJump(code1, p)
  {
  }

  // ---- the frame after each kind of change ----

  lemma FramePatched(code: seq<Instr>, constants: nat, freereg: nat, maxstack: nat, failed: bool, longest: nat, code1: seq<Instr>, failed1: bool)
    requires InFrame(code, constants, freereg, maxstack, failed, longest) && SafelyPatched(code, failed, code1, failed1)
    ensures InFrame(code1, constants, freereg, maxstack, failed1, longest)
  {
    hide CodeOk;
  }

  lemma FrameMore(code: seq<Instr>, constants: nat, freereg: nat, maxstack: nat, failed: bool, longest: nat, i: Instr)
    requires InFrame(code, constants, freereg, maxstack, failed, longest) && InstrOk(i, maxstack, failed)
    ensures InFrame(code + [i], constants, freereg, maxstack, failed, if longest > |code| then longest else |code| + 1)
  {
    hide InstrOk;
  }

  lemma FrameReplaced(code: seq<Instr>, constants: nat, freereg: nat, maxstack: nat, failed: bool, longest: nat, q: nat, i: Instr)
    requires InFrame(code, constants, freereg, maxstack, failed, longest) && q < |code| && InstrOk(i, maxstack, failed)
    ensures InFrame(code[q := i], constants, freereg, maxstack, failed, longest)
  {
    hide InstrOk;
  }

  lemma FrameShorter(code: seq<Instr>, constants: nat, freereg: nat, maxstack: nat, failed: bool, longest: nat)
    requires InFrame(code, constants, freereg, maxstack, failed, longest) && code != []
    ensures InFrame(code[..|code| - 1], constants, freereg, maxstack, failed, longest)
    ensures InstrOk(code[|code| - 1], maxstack, failed)
  {
    hide InstrOk;
  }

  lemma FrameInstr(code: seq<Instr>, constants: nat, freereg: nat, maxstack: nat, failed: bool, longest: nat, q: nat)
    requires InFrame(code, constants, freereg, maxstack, failed, longest) && q < |code|
    ensures InstrOk(code[q], maxstack, failed)
  {
  }

  lemma CodeOkFails(code: seq<Instr>, n: nat, failed: bool, n1: nat, failed1: bool)
    requires CodeOk(code, n, failed) && (failed ==> failed1) && n <= n1
    ensures CodeOk(code, n1, failed1)
  {
    forall q | 0 <= q < |code|
      ensures InstrOk(code[q], n1, failed1)
    {
      assert InstrOk(code[q], n, failed);
    }
  }

  lemma InstrOkFails(i: Instr, n: nat, failed: bool, n1: nat, failed1: bool)
    requires InstrOk(i, n, failed) && (failed ==> failed1) && n <= n1
    ensures InstrOk(i, n1, failed1)
  {
  }

  /** A new constant. */
  lemma FrameConstant(code: seq<Instr>, constants: nat, freereg: nat, maxstack: nat, failed: bool, longest: nat, failed1: bool)
    requires InFrame(code, constants, freereg, maxstack, failed, longest) && failed1 == (failed || constants >= MAXARG_BX)
    ensures InFrame(code, constants + 1, freereg, maxstack, failed1, longest)
  {
    CodeOkFails(code, maxstack, failed, maxstack, failed1);
    hide CodeOk;
  }

  /** Registers are reserved. */
  lemma FrameReserved(code: seq<Instr>, constants: nat, freereg: nat, maxstack: nat, failed: bool, longest: nat, free1: nat, max1: nat, failed1: bool)
    requires InFrame(code, constants, freereg, maxstack, failed, longest)
    requires max1 == if free1 > maxstack then free1 else maxstack
    requires failed1 == (failed || (free1 > maxstack && free1 >= MAXSTACK))
    ensures InFrame(code, constants, free1, max1, failed1, longest)
  {
    CodeOkFails(code, maxstack, failed, max1, failed1);
    hide CodeOk;
  }

  /** Registers are freed. */
  lemma FrameFreed(code: seq<Instr>, constants: nat, freereg: nat, maxstack: nat, failed: bool, longest: nat, free1: nat)
    requires InFrame(code, constants, freereg, maxstack, failed, longest) && free1 <= freereg
    ensures InFrame(code, constants, free1, maxstack, failed, longest)
  {
  }

  lemma FrameFacts(code: seq<Instr>, constants: nat, freereg: nat, maxstack: nat, failed: bool, longest: nat)
    requires InFrame(code, constants, freereg, maxstack, failed, longest)
    ensures freereg <= maxstack && 2 <= maxstack && (maxstack >= MAXSTACK || constants > MAXARG_BX ==> failed)
  {
    hide CodeOk;
  }

  // ---- the registers of expressions ----

  /** The register that the expression is in, if it is in one, belongs to the frame. */
  predicate ExpInFrame(e: ExpDesc, n: nat) {
    e.k.VNonReloc? || e.k.VLocal? ==> e.k.info < n
  }

  lemma RegsInFrame(e: ExpDesc, base: nat, freereg: nat, n: nat, maxstack: nat)
    requires RegsOk(e, base, freereg, n) && n <= base && freereg <= maxstack
    ensures ExpInFrame(e, maxstack) && base <= maxstack
  {
  }

  lemma InFrameMore(e: ExpDesc, n: nat, n1: nat)
    requires ExpInFrame(e, n) && n <= n1
    ensures ExpInFrame(e, n1)
  {
  }

  lemma InFrameIs(e: ExpDesc, n: nat)
    requires ExpInFrame(e, n)
    ensures e.k.VNonReloc? || e.k.VLocal? ==> e.k.info < n
  {
  }

  lemma VarsInFrame(e: ExpDesc, n: nat)
    requires ExpInFrame(e, n)
    ensures ExpInFrame(DischargeVars(e), n)
  {
  }

  // ---- the instructions that are emitted ----

  lemma MoveOk(reg: nat, e: ExpDesc, n: nat, failed: bool)
    requires reg < n && ExpInFrame(e, n) && e.k.VNonReloc?
    ensures InstrOk(Move(reg, e.k.info), n, failed)
  {
  }

  lemma LoadOk(reg: nat, bx: nat, constants: nat, n: nat, failed: bool)
    requires reg < n && ConstsIn(LoadK(reg, bx), constants) && (constants > MAXARG_BX ==> failed)
    ensures InstrOk(LoadK(reg, bx), n, failed)
  {
  }

  lemma LoadBoolOk(reg: nat, b: bool, n: nat, failed: bool)
    requires reg < n
    ensures InstrOk(LoadBool(reg, b), n, failed)
  {
  }

  lemma LoadNilOk(from: nat, to: int, n: nat, failed: bool)
    requires from < n && to < n
    ensures InstrOk(LoadNil(from, to), n, failed)
  {
  }

  lemma LoadNilMoreOk(i: Instr, to: int, n: nat, failed: bool)
    requires InstrOk(i, n, failed) && i.LoadNil? && to < n
    ensures InstrOk(LoadNil(i.a, to), n, failed)
  {
  }

  lemma SetAOk(i: Instr, reg: nat, n: nat, failed: bool)
    requires InstrOk(i, n, failed) && reg < n
    ensures InstrOk(SetA(i, reg), n, failed)
  {
  }

  lemma FlippedOk(i: Instr, n: nat, failed: bool)
    requires InstrOk(i, n, failed)
    ensures InstrOk(Flipped(i), n, failed)
  {
  }

  lemma TestsOk(b: nat, cond: bool, n: nat, failed: bool)
    requires b < n
    ensures InstrOk(Test(b, cond), n, failed) && InstrOk(TestSet(NoReg, b, cond), n, failed)
  {
  }

  lemma NotArgument(i: Instr, cond: bool, n: nat, failed: bool)
    requires InstrOk(i, n, failed) && i.Not?
    ensures InstrOk(Test(i.b, cond), n, failed)
  {
  }

  lemma UnaryOk(r: nat, n: nat, failed: bool)
    requires r < n
    ensures InstrOk(Not(0, r), n, failed) && InstrOk(Unm(0, r), n, failed)
  {
  }

  lemma ArithOk(op: ArithOp, a: RK, b: RK, n: nat, failed: bool)
    requires 0 < n && RKBelow(a, n) && RKBelow(b, n) && RKShort(a) && RKShort(b)
    ensures InstrOk(ArithI(op, 0, a, b), n, failed)
  {
  }

  lemma CompareOk(op: CmpOp, jmp: bool, a: RK, b: RK, n: nat, failed: bool)
    requires RKBelow(a, n) && RKBelow(b, n) && RKShort(a) && RKShort(b)
    ensures InstrOk(CompareI(op, jmp, a, b), n, failed)
  {
  }

  lemma JumpOk(n: nat, failed: bool)
    ensures InstrOk(Jmp(NO_JUMP), n, failed)
  {
  }

  lemma RKMore(x: RK, n: nat, n1: nat)
    requires RKBelow(x, n) && n <= n1
    ensures RKBelow(x, n1)
  {
  }

  lemma RKOf(r: nat, n: nat)
    requires r < n
    ensures RKBelow(R(r), n) && RKShort(R(r))
  {
  }

  lemma RKConstant(i: nat, n: nat)
    requires i <= MAXINDEXRK
    ensures RKBelow(K(i), n) && RKShort(K(i))
  {
  }

  /** An operand that is loaded already. */
  lemma StableOperand(s: Gen, e: ExpDesc, n: nat)
    requires Stable(s, e) && !e.k.VKNum? && ExpInFrame(e, n)
    ensures RKBelow(LoadedOperand(e), n) && RKShort(LoadedOperand(e))
  {
  }
}
