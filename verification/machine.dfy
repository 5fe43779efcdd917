/** The instructions that conditions and arithmetic compile to, and what luaV_execute does with them. */
module Machine {

  datatype Value = Nil | Boolean(b: bool) | Number(n: int) | Str(s: int) | Other(x: int)

  datatype ArithOp = Add | Sub | Mul | Div | Mod | Pow

  datatype CmpOp = Eq | Lt | Le

  /** The operations on numbers, and what metamethods make of other operands. */
  datatype Arithmetic = Arithmetic(
    num: (ArithOp, int, int) -> int, unm: int -> int, isnan: int -> bool,
    meta: (ArithOp, Value, Value) -> Value, metaUnm: Value -> Value,
    equal: (Value, Value) -> bool, less: (Value, Value) -> bool, lessEqual: (Value, Value) -> bool)

  /** The negation of a number is a number. */
  ghost predicate NegationSane(m: Arithmetic) {
    forall x :: m.isnan(m.unm(x)) ==> m.isnan(x)
  }

  predicate Truthy(v: Value) {
    v != Nil && v != Boolean(false)
  }

  function Arith(m: Arithmetic, op: ArithOp, a: Value, b: Value): Value {
    if a.Number? && b.Number? then Number(m.num(op, a.n, b.n)) else m.meta(op, a, b)
  }

  function Negate(m: Arithmetic, a: Value): Value {
    if a.Number? then Number(m.unm(a.n)) else m.metaUnm(a)
  }

  predicate Compare(m: Arithmetic, op: CmpOp, a: Value, b: Value) {
    match op
    case Eq => m.equal(a, b)
    case Lt => m.less(a, b)
    case Le => m.lessEqual(a, b)
  }

  /** A register, or a constant in an RK operand. */
  datatype RK = R(i: nat) | K(i: nat)

  /** Argument A of OP_TESTSET: NO_REG until the jump is patched. */
  datatype Target = NoReg | Reg(i: nat)

  /** `jmp` is the argument A of the comparisons; Opaque stands for the instructions of statement bodies. */
  datatype Instr =
    | Move(a: nat, b: nat)
    | LoadK(a: nat, bx: nat)
    | LoadBool(a: nat, v: bool)
    | LoadNil(a: nat, to: int)
    | ArithI(op: ArithOp, a: nat, rb: RK, rc: RK)
    | Unm(a: nat, b: nat)
    | Not(a: nat, b: nat)
    | Jmp(sbx: int)
    | CompareI(cmp: CmpOp, jmp: bool, rb: RK, rc: RK)
    | Test(b: nat, c: bool)
    | TestSet(t: Target, b: nat, c: bool)
    | Opaque(n: int)

  /** testTMode: the next instruction is a jump that is taken or skipped. */
  predicate IsTest(i: Instr) {
    i.CompareI? || i.Test? || i.TestSet?
  }

  /** Instructions that compute a value into register A and go on. */
  predicate IsPlain(i: Instr) {
    !IsTest(i) && !i.Jmp? && !i.Opaque?
  }

  type Regs = map<nat, Value>

  function At(g: Regs, r: nat): Value {
    if r in g then g[r] else Nil
  }

  function NilRange(g: Regs, a: nat, to: int): Regs
    decreases if to < a then 0 else to - a + 1
  {
    if to < a then g else NilRange(g, a, to - 1)[to := Nil]
  }

  lemma {:induction false} NilRangeAt(g: Regs, a: nat, to: int, r: nat)
    ensures At(NilRange(g, a, to), r) == (if a <= r <= to then Nil else At(g, r))
    decreases if to < a then 0 else to - a + 1
  {
    if a <= to {
      NilRangeAt(g, a, to - 1, r);
    }
  }

  function RKValue(k: seq<Value>, g: Regs, x: RK): Value {
    match x
    case R(i) => At(g, i)
    case K(i) => if i < |k| then k[i] else Nil
  }

  /** The value that an instruction puts into register A. */
  function Result(m: Arithmetic, k: seq<Value>, i: Instr, g: Regs): Value {
    match i
    case Move(_, b) => At(g, b)
    case LoadK(_, bx) => if bx < |k| then k[bx] else Nil
    case LoadBool(_, v) => Boolean(v)
    case ArithI(op, _, rb, rc) => Arith(m, op, RKValue(k, g, rb), RKValue(k, g, rc))
    case Unm(_, b) => Negate(m, At(g, b))
    case Not(_, b) => Boolean(!Truthy(At(g, b)))
    case _ => Nil
  }

  /** Whether the jump after a test is taken. */
  predicate Taken(m: Arithmetic, k: seq<Value>, i: Instr, g: Regs) {
    match i
    case CompareI(op, jmp, rb, rc) => Compare(m, op, RKValue(k, g, rb), RKValue(k, g, rc)) == jmp
    case Test(b, c) => Truthy(At(g, b)) == c
    case TestSet(_, b, c) => Truthy(At(g, b)) == c
    case _ => false
  }

  datatype Config = Config(pc: int, g: Regs)

  /** One instruction. The jump behind a test is a step of its own. */
  function Step(m: Arithmetic, k: seq<Value>, i: Instr, c: Config): Config {
    match i
    case Jmp(sbx) => c.(pc := c.pc + 1 + sbx)
    case CompareI(_, _, _, _) => c.(pc := if Taken(m, k, i, c.g) then c.pc + 1 else c.pc + 2)
    case Test(_, _) => c.(pc := if Taken(m, k, i, c.g) then c.pc + 1 else c.pc + 2)
    case TestSet(t, b, _) =>
      if Taken(m, k, i, c.g) then Config(c.pc + 1, if t.Reg? then c.g[t.i := At(c.g, b)] else c.g)
      else c.(pc := c.pc + 2)
    case LoadNil(a, to) => Config(c.pc + 1, NilRange(c.g, a, to))
    case Opaque(_) => c
    case _ => Config(c.pc + 1, c.g[i.a := Result(m, k, i, c.g)])
  }

  /** A test and the jump behind it, as luaV_execute does them together: the jump is done if the comparison has the
      outcome A, or if the register holds a value whose truth is C. Nil and false are false, all other values true. */
  lemma TestThenJump(m: Arithmetic, k: seq<Value>, i: Instr, sbx: int, c: Config)
    requires IsTest(i)
    ensures var c1 := Step(m, k, i, c);
      var c2 := if c1.pc == c.pc + 1 then Step(m, k, Jmp(sbx), c1) else c1;
      match i
      case CompareI(op, a, rb, rc) =>
        var x, y := RKValue(k, c.g, rb), RKValue(k, c.g, rc);
        var holds := if op == Eq then m.equal(x, y) else if op == Lt then m.less(x, y) else m.lessEqual(x, y);
        c2 == Config(c.pc + 2 + (if holds == a then sbx else 0), c.g)
      case Test(b, isTrue) =>
        var v := At(c.g, b);
        c2 == Config(c.pc + 2 + (if (v != Nil && v != Boolean(false)) == isTrue then sbx else 0), c.g)
      case TestSet(t, b, isTrue) =>
        var v := At(c.g, b);
        if (v != Nil && v != Boolean(false)) == isTrue
        then c2 == Config(c.pc + 2 + sbx, if t.Reg? then c.g[t.i := v] else c.g)
        else c2 == Config(c.pc + 2, c.g)
  {
  }

  /** The other instructions change register A, or the registers from A to B, and go on. */
  lemma PlainStep(m: Arithmetic, k: seq<Value>, i: Instr, c: Config, r: nat)
    requires IsPlain(i)
    ensures Step(m, k, i, c).pc == c.pc + 1
    ensures var v := At(Step(m, k, i, c).g, r);
      match i
      case LoadNil(a, to) => v == if a <= r <= to then Nil else At(c.g, r)
      case Move(a, b) => v == At(c.g, if r == a then b else r)
      case LoadK(a, bx) => r == a && bx < |k| ==> v == k[bx]
      case LoadBool(a, b) => r == a ==> v == Boolean(b)
      case Not(a, b) => r == a ==> v == Boolean(At(c.g, b) == Nil || At(c.g, b) == Boolean(false))
      case Unm(a, b) => r == a && At(c.g, b).Number? ==> v == Number(m.unm(At(c.g, b).n))
      case ArithI(op, a, rb, rc) =>
        var x, y := RKValue(k, c.g, rb), RKValue(k, c.g, rc);
        r == a && x.Number? && y.Number? ==> v == Number(m.num(op, x.n, y.n))
    ensures !i.LoadNil? && r != i.a ==> At(Step(m, k, i, c).g, r) == At(c.g, r)
  {
    if i.LoadNil? {
      NilRangeAt(c.g, i.a, i.to, r);
    }
  }

  /** A run of the machine; all jumps go forward. */
  ghost predicate IsRun(m: Arithmetic, k: seq<Value>, code: seq<Instr>, tr: seq<Config>) {
    && tr != []
    && forall i :: 0 <= i < |tr| - 1 ==> Stepped(m, k, code, tr[i], tr[i + 1])
  }

  ghost predicate Stepped(m: Arithmetic, k: seq<Value>, code: seq<Instr>, c: Config, c1: Config) {
    0 <= c.pc < |code| && c.pc < c1.pc && !code[c.pc].Opaque? && c1 == Step(m, k, code[c.pc], c)
  }

  function Last(tr: seq<Config>): Config
    requires tr != []
  {
    tr[|tr| - 1]
  }

  /** The constants that an instruction refers to exist. */
  predicate ConstsIn(i: Instr, n: nat) {
    match i
    case LoadK(_, bx) => bx < n
    case ArithI(_, _, rb, rc) => RKIn(rb, n) && RKIn(rc, n)
    case CompareI(_, _, rb, rc) => RKIn(rb, n) && RKIn(rc, n)
    case _ => true
  }

  predicate RKIn(x: RK, n: nat) {
    x.K? ==> x.i < n
  }

  /** Registers below `n` are the same. */
  ghost predicate Agree(g: Regs, g1: Regs, n: nat) {
    forall r: nat :: r < n ==> At(g1, r) == At(g, r)
  }

  /** Patching may turn OP_TESTSET without a register into OP_TEST. */
  predicate SameEffect(i: Instr, i1: Instr) {
    i1 == i || (i.TestSet? && i.t.NoReg? && i1 == Test(i.b, i.c))
  }

  lemma {:induction false} Forward(m: Arithmetic, k: seq<Value>, code: seq<Instr>, tr: seq<Config>, i: nat, j: nat)
    requires IsRun(m, k, code, tr) && i < j < |tr|
    ensures tr[i].pc < tr[j].pc && 0 <= tr[i].pc < |code|
    decreases j
  {
    assert Stepped(m, k, code, tr[i], tr[i + 1]);
    if i < j - 1 {
      Forward(m, k, code, tr, i, j - 1);
      assert Stepped(m, k, code, tr[j - 1], tr[j]);
    }
  }

  /** The instruction at `p` has been executed. */
  ghost predicate Visited(tr: seq<Config>, p: int) {
    exists i :: 0 <= i < |tr| - 1 && tr[i].pc == p
  }

  /** A run does not notice changes to code that it has not executed. */
  lemma RunFrame(m: Arithmetic, k: seq<Value>, code: seq<Instr>, tr: seq<Config>, k1: seq<Value>, code1: seq<Instr>)
    requires IsRun(m, k, code, tr) && k <= k1 && forall i :: 0 <= i < |code| ==> ConstsIn(code[i], |k|)
    requires forall p :: 0 <= p < |code| && Visited(tr, p) ==> p < |code1| && SameEffect(code[p], code1[p])
    ensures IsRun(m, k1, code1, tr)
  {
    forall i | 0 <= i < |tr| - 1
      ensures Stepped(m, k1, code1, tr[i], tr[i + 1])
    {
      assert Visited(tr, tr[i].pc);
      assert Stepped(m, k, code, tr[i], tr[i + 1]);
    }
  }

  lemma VisitedBefore(m: Arithmetic, k: seq<Value>, code: seq<Instr>, tr: seq<Config>, p: int)
    requires IsRun(m, k, code, tr) && Visited(tr, p)
    ensures 0 <= p < Last(tr).pc && p < |code|
  {
    var i :| 0 <= i < |tr| - 1 && tr[i].pc == p;
    Forward(m, k, code, tr, i, |tr| - 1);
  }

  lemma VisitedMore(tr: seq<Config>, c: Config)
    requires tr != []
    ensures forall p :: Visited(tr + [c], p) <==> Visited(tr, p) || p == Last(tr).pc
  {
    forall p
      ensures Visited(tr + [c], p) <==> Visited(tr, p) || p == Last(tr).pc
    {
      if Visited(tr, p) {
        var i :| 0 <= i < |tr| - 1 && tr[i].pc == p;
        assert (tr + [c])[i].pc == p;
      }
      assert (tr + [c])[|tr| - 1] == Last(tr);
    }
  }

  lemma RunStep(m: Arithmetic, k: seq<Value>, code: seq<Instr>, tr: seq<Config>)
    requires IsRun(m, k, code, tr) && 0 <= Last(tr).pc < |code| && !code[Last(tr).pc].Opaque?
    requires code[Last(tr).pc].Jmp? ==> code[Last(tr).pc].sbx >= 0
    ensures IsRun(m, k, code, tr + [Step(m, k, code[Last(tr).pc], Last(tr))])
  {
    var tr1 := tr + [Step(m, k, code[Last(tr).pc], Last(tr))];
    forall i | 0 <= i < |tr1| - 1
      ensures Stepped(m, k, code, tr1[i], tr1[i + 1])
    {
      if i < |tr| - 1 {
        assert Stepped(m, k, code, tr[i], tr[i + 1]);
      }
    }
  }
}
