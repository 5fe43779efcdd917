/** Expressions and conditions as the parser hands them to the code generator, and what the emitted code does. */
module Conditions {
  import opened Machine
  import opened JumpLists
  import opened GenSteps
  import opened GenExps
  import opened GenFacts
  import opened Frames
  import opened CodeGenerator

  /** Arithmetic over local variables, which are in registers, and constants. */
  datatype Exp =
    | Local(r: nat) | NilExp | TrueExp | FalseExp | NumExp(n: int) | StrExp(s: int)
    | Binary(op: ArithOp, a: Exp, b: Exp) | Minus(a: Exp)

  datatype Rel = EQ | NE | LT | LE | GT | GE

  datatype Cond = Leaf(e: Exp) | Cmp(rel: Rel, a: Exp, b: Exp) | NotC(c: Cond) | AndC(x: Cond, y: Cond) | OrC(x: Cond, y: Cond)

  function Eval(m: Arithmetic, e: Exp, g: Regs): Value {
    match e
    case Local(r) => At(g, r)
    case NilExp => Value.Nil
    case TrueExp => Boolean(true)
    case FalseExp => Boolean(false)
    case NumExp(n) => Number(n)
    case StrExp(s) => Str(s)
    case Binary(op, a, b) => Arith(m, op, Eval(m, a, g), Eval(m, b, g))
    case Minus(a) => Negate(m, Eval(m, a, g))
  }

  /** `a > b` means `b < a`, and `a ~= b` means `not (a == b)`. */
  predicate EvalRel(m: Arithmetic, rel: Rel, a: Value, b: Value) {
    match rel
    case EQ => m.equal(a, b)
    case NE => !m.equal(a, b)
    case LT => m.less(a, b)
    case LE => m.lessEqual(a, b)
    case GT => m.less(b, a)
    case GE => m.lessEqual(b, a)
  }

  predicate Holds(m: Arithmetic, c: Cond, g: Regs) {
    match c
    case Leaf(e) => Eval(m, e, g) != Value.Nil && Eval(m, e, g) != Boolean(false)
    case Cmp(rel, a, b) => EvalRel(m, rel, Eval(m, a, g), Eval(m, b, g))
    case NotC(x) => !Holds(m, x, g)
    case AndC(x, y) => Holds(m, x, g) && Holds(m, y, g)
    case OrC(x, y) => Holds(m, x, g) || Holds(m, y, g)
  }

  /** The local variables are active, and the numerals are numbers. */
  predicate ExpFits(m: Arithmetic, e: Exp, n: nat) {
    match e
    case Local(r) => r < n
    case NumExp(x) => !m.isnan(x)
    case Binary(_, a, b) => ExpFits(m, a, n) && ExpFits(m, b, n)
    case Minus(a) => ExpFits(m, a, n)
    case _ => true
  }

  predicate CondFits(m: Arithmetic, c: Cond, n: nat) {
    match c
    case Leaf(e) => ExpFits(m, e, n)
    case Cmp(_, a, b) => ExpFits(m, a, n) && ExpFits(m, b, n)
    case NotC(x) => CondFits(m, x, n)
    case AndC(x, y) => CondFits(m, x, n) && CondFits(m, y, n)
    case OrC(x, y) => CondFits(m, x, n) && CondFits(m, y, n)
  }

  lemma {:induction false} EvalAgree(m: Arithmetic, e: Exp, g: Regs, g1: Regs, n: nat)
    requires ExpFits(m, e, n) && Agree(g, g1, n)
    ensures Eval(m, e, g1) == Eval(m, e, g)
  {
    match e
    case Binary(_, a, b) =>
      EvalAgree(m, a, g, g1, n);
      EvalAgree(m, b, g, g1, n);
    case Minus(a) => EvalAgree(m, a, g, g1, n);
    case _ =>
  }

  lemma {:induction false} HoldsAgree(m: Arithmetic, c: Cond, g: Regs, g1: Regs, n: nat)
    requires CondFits(m, c, n) && Agree(g, g1, n)
    ensures Holds(m, c, g1) <==> Holds(m, c, g)
  {
    match c
    case Leaf(e) => EvalAgree(m, e, g, g1, n);
    case Cmp(_, a, b) =>
      EvalAgree(m, a, g, g1, n);
      EvalAgree(m, b, g, g1, n);
    case NotC(x) => HoldsAgree(m, x, g, g1, n);
    case AndC(x, y) =>
      HoldsAgree(m, x, g, g1, n);
      HoldsAgree(m, y, g, g1, n);
    case OrC(x, y) =>
      HoldsAgree(m, x, g, g1, n);
      HoldsAgree(m, y, g, g1, n);
  }

  /** A run that was at the end when the expression began is now where its value `v` is available. */
  ghost predicate Evaluated(m: Arithmetic, s: Gen, s1: Gen, e: ExpDesc, v: Value, base: nat) {
    && s.tr != [] && s1.tr != []
    && (Live(s) ==> Ready(s1, e) && ValueNow(m, s1, e) == v && Agree(s.Regs(), s1.Regs(), base))
    && (!Live(s) ==> s1.tr == s.tr)
  }

  /** init_exp: the descriptors of variables and constants. */
  method LeafExp(fs: FuncState, a: Exp) returns (e: ExpDesc)
    requires fs.Valid() && !a.Binary? && !a.Minus? && ExpFits(fs.m, a, fs.nactvar)
    modifies fs`k, fs`h, fs`failed
    ensures fs.Valid() && ExpOk(fs.S(), e, [], [], Here(old(fs.S()))) && !e.k.VJmp? && RegsOk(e, fs.freereg, fs.freereg, fs.nactvar)
    ensures TrueConst(fs.S(), e) && IsNumber(fs.m, e) && Keeps(Here(old(fs.S())), old(fs.S()), fs.S()) && (old(fs.failed) ==> fs.failed)
    ensures Evaluated(fs.m, old(fs.S()), fs.S(), e, Eval(fs.m, a, Last(old(fs.tr)).g), fs.freereg)
  {
    hide *;
    fs.SIs();
    fs.ValidIs();
    ghost var s0 := fs.S();
    var k;
    if a.Local? {
      k := VLocal(a.r);
    } else if a.NumExp? {
      k := VKNum(a.n);
    } else if a.StrExp? {
      var i := fs.AddK(Str(a.s));
      k := VK(i);
    } else {
      k := if a.NilExp? then VNil else if a.TrueExp? then VTrue else VFalse;
    }
    e := ExpDesc(k, NO_JUMP, NO_JUMP);
    fs.SIs();
    fs.ValidIs();
    LeafIs(fs.m, s0, fs.S(), a, e, fs.freereg, fs.nactvar);
  }

  lemma LeafIs(m: Arithmetic, s: Gen, s1: Gen, a: Exp, e: ExpDesc, freereg: nat, n: nat)
    requires GenInv(m, s, n) && s.k <= s1.k && s1 == s.(k := s1.k) && !a.Binary? && !a.Minus? && ExpFits(m, a, n) && e.t == e.f == NO_JUMP
    requires match a
      case Local(r) => e.k == VLocal(r)
      case NumExp(x) => e.k == VKNum(x)
      case StrExp(x) => e.k.VK? && e.k.info < |s1.k| && s1.k[e.k.info] == Str(x)
      case NilExp => e.k == VNil
      case TrueExp => e.k == VTrue
      case FalseExp => e.k == VFalse
      case _ => false
    ensures ExpOk(s1, e, [], [], Here(s)) && !e.k.VJmp? && RegsOk(e, freereg, freereg, n) && TrueConst(s1, e) && IsNumber(m, e)
    ensures Keeps(Here(s), s, s1) && s.tr != [] && Evaluated(m, s, s1, e, Eval(m, a, Last(s.tr).g), freereg)
  {
    KeepsRefl(Here(s), s);
    hide Visited;
    assert Lists(s1, e, [], [], Here(s));
    hide GenInv;
    hide Lists;
  }

  /** The calls that subexpr makes for an arithmetic expression. */
  method GenExp(fs: FuncState, a: Exp) returns (e: ExpDesc)
    requires fs.Valid() && ExpFits(fs.m, a, fs.nactvar)
    modifies fs`code, fs`k, fs`h, fs`jpc, fs`failed, fs`js, fs`tr, fs`longest, fs`freereg, fs`maxstacksize
    ensures fs.Valid() && ExpOk(fs.S(), e, [], [], Here(old(fs.S()))) && !e.k.VJmp? && RegsOk(e, old(fs.freereg), fs.freereg, fs.nactvar)
    ensures TrueConst(fs.S(), e) && IsNumber(fs.m, e) && Keeps(Here(old(fs.S())), old(fs.S()), fs.S()) && (old(fs.failed) ==> fs.failed)
    ensures Evaluated(fs.m, old(fs.S()), fs.S(), e, Eval(fs.m, a, Last(old(fs.tr)).g), old(fs.freereg))
    decreases a
  {
    hide *;
    fs.SIs();
    fs.ValidIs();
    ghost var s0, base, c := fs.S(), fs.freereg, Here(fs.S());
    if a.Binary? {
      FitsBinary(fs.m, a, fs.nactvar);
      var e1 := GenExp(fs, a.a);
      fs.SIs();
      fs.ValidIs();
      ghost var s1 := fs.S();
      var f1 := e1;
      if !e1.k.VKNum? {
        f1 := FirstOperand(fs, e1, c, base);
      } else {
        NumberStable(fs.m, s1, e1, c, base, fs.freereg, fs.nactvar);
      }
      fs.SIs();
      fs.ValidIs();
      ghost var s2, base2 := fs.S(), fs.freereg;
      FirstDone(fs.m, s0, s1, s2, e1, f1, a.a, base, fs.nactvar);
      var e2 := GenExp(fs, a.b);
      fs.SIs();
      fs.ValidIs();
      ghost var s3 := fs.S();
      SecondDone(fs.m, s0, s2, s3, f1, e2, a.a, a.b, c, base, base2, fs.nactvar);
      BaseOrder(f1, base, base2, fs.nactvar);
      e := fs.CodeArith(a.op, f1, e2, c, base, base2);
      fs.SIs();
      fs.ValidIs();
      BinaryDone(fs.m, s0, s3, fs.S(), a, f1, e2, e, c, base);
    } else if a.Minus? {
      FitsBinary(fs.m, a, fs.nactvar);
      var e1 := GenExp(fs, a.a);
      fs.SIs();
      fs.ValidIs();
      ghost var s1 := fs.S();
      e := fs.PrefixMinus(e1, c, base);
      fs.SIs();
      fs.ValidIs();
      MinusDone(fs.m, s0, s1, fs.S(), a, e1, e, c, base, fs.nactvar);
    } else {
      e := LeafExp(fs, a);
    }
  }

  /** luaK_infix, for a first operand that is not a numeral. */
  method FirstOperand(fs: FuncState, e: ExpDesc, ghost c: Scope, ghost base: nat) returns (e1: ExpDesc)
    requires fs.Valid() && ExpOk(fs.S(), e, [], [], c) && !e.k.VJmp? && RegsOk(e, base, fs.freereg, fs.nactvar) && fs.nactvar <= base
    modifies fs`code, fs`k, fs`h, fs`jpc, fs`failed, fs`js, fs`tr, fs`longest, fs`freereg, fs`maxstacksize
    ensures fs.Valid() && Stable(fs.S(), e1) && ExpOk(fs.S(), e1, [], [], c) && !e1.k.VKNum? && RegsOk(e1, base, fs.freereg, fs.nactvar)
    ensures Keeps(c, old(fs.S()), fs.S()) && (old(fs.failed) ==> fs.failed)
    ensures Computed(fs.m, old(fs.S()), fs.S(), e, e1, ValueNow(fs.m, old(fs.S()), e), base)
  {
    hide *;
    fs.SIs();
    fs.ValidIs();
    ghost var s0 := fs.S();
    var o;
    fs.InFrameNow(e, base);
    e1, o := fs.Exp2RK(e, c, base);
    fs.SIs();
    fs.ValidIs();
    FirstLoaded(fs.m, s0, fs.S(), e, e1, o, c, base);
  }

  lemma FirstLoaded(m: Arithmetic, s: Gen, s1: Gen, e: ExpDesc, e1: ExpDesc, o: RK, c: Scope, base: nat)
    requires ExpOk(s1, e1, [], [], c) && OperandIs(s1, e1, o) && Loaded(m, s, s1, e, o, base)
    ensures Stable(s1, e1) && !e1.k.VKNum? && Computed(m, s, s1, e, e1, ValueNow(m, s, e), base)
  {
  }

  lemma FitsBinary(m: Arithmetic, a: Exp, n: nat)
    requires ExpFits(m, a, n) && (a.Binary? || a.Minus?)
    ensures ExpFits(m, a.a, n) && (a.Binary? ==> ExpFits(m, a.b, n))
  {
  }

  lemma NumberStable(m: Arithmetic, s: Gen, e: ExpDesc, c: Scope, base: nat, freereg: nat, n: nat)
    requires ExpOk(s, e, [], [], c) && e.k.VKNum? && RegsOk(e, base, freereg, n)
    ensures Stable(s, e) && s.tr != [] && Computed(m, s, s, e, e, ValueNow(m, s, e), base) && Keeps(c, s, s)
  {
    NoLists(s, e, c);
    hide Lists;
    KeepsRefl(c, s) by { ScopeOf(s, e, c); }
  }

  lemma ScopeOf(s: Gen, e: ExpDesc, c: Scope)
    requires ExpOk(s, e, [], [], c)
    ensures c.n <= |s.code| && AllInside(s.js, c)
  {
  }

  /** A run that did not enter the expression is not at it. */
  lemma SkippedOver(m: Arithmetic, s0: Gen, s1: Gen, e: ExpDesc, t: seq<int>, f: seq<int>, n: nat)
    requires GenInv(m, s0, n) && s0.tr != [] && !Live(s0) && s1.tr == s0.tr && ExpOk(s1, e, t, f, Here(s0))
    ensures !Inside(s1.Pc(), Here(s0)) && !Ready(s1, e) && s1.Pc() !in t && s1.Pc() !in f
  {
    hide IsList;
    hide Visited;
  }

  /** The first operand is available wherever the run goes on. */
  lemma FirstDone(m: Arithmetic, s0: Gen, s1: Gen, s2: Gen, e1: ExpDesc, f1: ExpDesc, a: Exp, base: nat, n: nat)
    requires GenInv(m, s0, n) && s0.tr != [] && Evaluated(m, s0, s1, e1, Eval(m, a, Last(s0.tr).g), base)
    requires Computed(m, s1, s2, e1, f1, ValueNow(m, s1, e1), base) && ExpOk(s1, e1, [], [], Here(s0))
    requires Keeps(Here(s0), s0, s1) && Keeps(Here(s0), s1, s2)
    ensures Evaluated(m, s0, s2, f1, Eval(m, a, Last(s0.tr).g), base) && Keeps(Here(s0), s0, s2)
  {
    KeepsTrans(Here(s0), s0, s1, s2);
    hide Keeps;
    if !Live(s0) {
      SkippedOver(m, s0, s1, e1, [], [], n);
    }
    hide GenInv;
    hide Lists;
  }

  /** Both operands are available after the second one has been compiled. */
  ghost predicate BothEvaluated(m: Arithmetic, s0: Gen, s3: Gen, f1: ExpDesc, e2: ExpDesc, v1: Value, v2: Value, base: nat) {
    && s0.tr != [] && s3.tr != []
    && (Live(s0) ==> Ready(s3, e2) && ValueNow(m, s3, f1) == v1 && ValueNow(m, s3, e2) == v2 && Agree(s0.Regs(), s3.Regs(), base))
    && (!Live(s0) ==> s3.tr == s0.tr && !Ready(s3, e2))
  }

  /** An expression that began later is an expression of the outer scope. */
  lemma OuterScope(m: Arithmetic, s2: Gen, s3: Gen, e1: ExpDesc, e2: ExpDesc, t: seq<int>, f: seq<int>, c: Scope, n: nat)
    requires GenInv(m, s2, n) && ExpOk(s2, e1, [], [], c) && (Ready(s2, e1) <==> Live(s2)) && ExpOk(s3, e2, t, f, Here(s2))
    requires !Live(s2) ==> s3.tr == s2.tr
    requires Live(s2) ==> Ready(s3, e2) || s3.Pc() in t || s3.Pc() in f
    ensures ExpOk(s3, e2, t, f, c) && (!Live(s2) ==> !Ready(s3, e2))
  {
    HereInside(s2, c) by { ScopeOf(s2, e1, c); }
    if !Live(s2) {
      SkippedOver(m, s2, s3, e2, t, f, n);
    }
    hide GenInv;
    assert Lists(s3, e2, t, f, c) by { hide KindOk; hide RunAt; }
    hide Lists;
  }

  lemma SecondDone(m: Arithmetic, s0: Gen, s2: Gen, s3: Gen, f1: ExpDesc, e2: ExpDesc, a: Exp, b: Exp, c: Scope, base: nat, base2: nat, n: nat)
    requires GenInv(m, s0, n) && GenInv(m, s2, n) && Stable(s2, f1) && ExpOk(s2, f1, [], [], c) && RegsOk(f1, base, base2, n) && n <= base
    requires s0.tr != [] && s2.tr != [] && Evaluated(m, s0, s2, f1, Eval(m, a, Last(s0.tr).g), base) && Keeps(c, s0, s2) && c == Here(s0)
    requires ExpOk(s3, e2, [], [], Here(s2)) && Evaluated(m, s2, s3, e2, Eval(m, b, Last(s2.tr).g), base2) && Keeps(Here(s2), s2, s3)
    requires ExpFits(m, b, n)
    ensures ExpOk(s3, e2, [], [], c) && Stable(s3, f1) && Keeps(c, s0, s3)
    ensures BothEvaluated(m, s0, s3, f1, e2, Eval(m, a, Last(s0.tr).g), Eval(m, b, Last(s0.tr).g), base)
  {
    ScopeOf(s2, f1, c);
    KeepsHere(c, s2, s3);
    KeepsTrans(c, s0, s2, s3);
    assert s2.k <= s3.k;
    hide Keeps;
    OuterScope(m, s2, s3, f1, e2, [], [], c, n);
    if !Live(s0) {
      SkippedOver(m, s0, s2, f1, [], [], n);
    } else {
      EvalAgree(m, b, s0.Regs(), s2.Regs(), n);
    }
    hide GenInv;
    hide Lists;
  }

  lemma BinaryDone(m: Arithmetic, s0: Gen, s3: Gen, s4: Gen, a: Exp, f1: ExpDesc, e2: ExpDesc, e: ExpDesc, c: Scope, base: nat)
    requires a.Binary? && s0.tr != [] && s3.tr != []
    requires BothEvaluated(m, s0, s3, f1, e2, Eval(m, a.a, Last(s0.tr).g), Eval(m, a.b, Last(s0.tr).g), base)
    requires Computed(m, s3, s4, e2, e, Arith(m, a.op, ValueNow(m, s3, f1), ValueNow(m, s3, e2)), base)
    requires Keeps(c, s0, s3) && Keeps(c, s3, s4) && !e.k.VK?
    ensures Keeps(c, s0, s4) && Evaluated(m, s0, s4, e, Eval(m, a, Last(s0.tr).g), base) && TrueConst(s4, e)
  {
    KeepsTrans(c, s0, s3, s4);
    hide Keeps;
  }

  lemma MinusDone(m: Arithmetic, s0: Gen, s1: Gen, s2: Gen, a: Exp, e1: ExpDesc, e: ExpDesc, c: Scope, base: nat, n: nat)
    requires GenInv(m, s0, n) && a.Minus? && s0.tr != [] && s1.tr != [] && ExpOk(s1, e1, [], [], c) && c == Here(s0)
    requires Evaluated(m, s0, s1, e1, Eval(m, a.a, Last(s0.tr).g), base) && Computed(m, s1, s2, e1, e, Negate(m, ValueNow(m, s1, e1)), base)
    requires Keeps(c, s0, s1) && Keeps(c, s1, s2) && !e.k.VK?
    ensures Keeps(c, s0, s2) && Evaluated(m, s0, s2, e, Eval(m, a, Last(s0.tr).g), base) && TrueConst(s2, e)
  {
    KeepsTrans(c, s0, s1, s2);
    hide Keeps;
    if !Live(s0) {
      SkippedOver(m, s0, s1, e1, [], [], n);
    }
    hide GenInv;
    hide Lists;
  }

  /** An arithmetic expression closed by luaK_exp2nextreg: its value is in the next register, the registers
      below are unchanged, and exactly one register more is in use. */
  method ArithToNextReg(fs: FuncState, a: Exp) returns (r: nat)
    requires fs.Valid() && ExpFits(fs.m, a, fs.nactvar)
    modifies fs`code, fs`k, fs`h, fs`jpc, fs`failed, fs`js, fs`tr, fs`longest, fs`freereg, fs`maxstacksize
    ensures fs.Valid() && r == old(fs.freereg) && fs.freereg == old(fs.freereg) + 1 && (old(fs.failed) ==> fs.failed)
    ensures WithinLimits(fs.code, fs.freereg, fs.maxstacksize, fs.failed)
    ensures fs.failed ==> fs.maxstacksize >= MAXSTACK || |fs.k| > MAXARG_BX || fs.longest > MAXARG_SBX
    ensures old(Live(fs.S())) ==> (Live(fs.S()) && At(Last(fs.tr).g, r) == Eval(fs.m, a, Last(old(fs.tr)).g)
      && Agree(Last(old(fs.tr)).g, Last(fs.tr).g, r))
  {
    hide *;
    fs.SIs();
    fs.ValidIs();
    ghost var s0, base := fs.S(), fs.freereg;
    var e := GenExp(fs, a);
    fs.SIs();
    fs.ValidIs();
    ghost var s1 := fs.S();
    var e1 := fs.Exp2NextReg(e, Here(s0), base);
    fs.SIs();
    fs.ValidIs();
    r := e1.k.info;
    NextRegDone(fs.m, s0, s1, fs.S(), a, e, base);
    fs.Limits();
  }

  lemma NextRegDone(m: Arithmetic, s0: Gen, s1: Gen, s2: Gen, a: Exp, e: ExpDesc, base: nat)
    requires s0.tr != [] && s2.tr != [] && Evaluated(m, s0, s1, e, Eval(m, a, Last(s0.tr).g), base) && ValueIn(m, s1, s2, e, base)
    ensures Live(s0) ==> Live(s2) && At(Last(s2.tr).g, base) == Eval(m, a, Last(s0.tr).g) && Agree(Last(s0.tr).g, Last(s2.tr).g, base)
  {
  }

  // ---- conditions ----

  /** A run that was at the end when the condition began has found out whether it holds, or can read it off. */
  ghost predicate Judged(m: Arithmetic, s: Gen, s1: Gen, e: ExpDesc, t: seq<int>, f: seq<int>, b: bool, base: nat) {
    && s.tr != [] && s1.tr != []
    && (Live(s) ==> Outcome(m, s1, e, t, f, b) && Agree(s.Regs(), s1.Regs(), base))
    && (!Live(s) ==> s1.tr == s.tr)
  }

  /** The calls that subexpr makes for a condition. */
  method GenCond(fs: FuncState, a: Cond) returns (e: ExpDesc, ghost t: seq<int>, ghost f: seq<int>)
    requires fs.Valid() && CondFits(fs.m, a, fs.nactvar)
    modifies fs`code, fs`k, fs`h, fs`jpc, fs`failed, fs`js, fs`tr, fs`longest, fs`freereg, fs`maxstacksize, fs`lasttarget
    ensures fs.Valid() && ExpOk(fs.S(), e, t, f, Here(old(fs.S()))) && RegsOk(e, old(fs.freereg), fs.freereg, fs.nactvar)
    ensures TrueConst(fs.S(), e) && Keeps(Here(old(fs.S())), old(fs.S()), fs.S()) && (old(fs.failed) ==> fs.failed)
    ensures Judged(fs.m, old(fs.S()), fs.S(), e, t, f, Holds(fs.m, a, Last(old(fs.tr)).g), old(fs.freereg))
    decreases a, 1
  {
    hide *;
    fs.SIs();
    fs.ValidIs();
    ghost var s0, base, c := fs.S(), fs.freereg, Here(fs.S());
    FitsCond(fs.m, a, fs.nactvar);
    if a.Leaf? {
      e := GenExp(fs, a.e);
      t, f := [], [];
      LeafDone(fs.m, s0, fs.S(), a, e, base);
    } else if a.Cmp? {
      e := GenCmp(fs, a);
      t, f := [], [];
    } else if a.NotC? {
      var e1, t1, f1 := GenCond(fs, a.c);
      fs.SIs();
      fs.ValidIs();
      ghost var s1 := fs.S();
      e := fs.CodeNot(e1, t1, f1, c, base);
      t, f := f1, t1;
      fs.SIs();
      fs.ValidIs();
      NotDone(fs.m, s0, s1, fs.S(), a, e1, e, t1, f1, c, base, fs.nactvar);
    } else if a.AndC? {
      e, t, f := GenAnd(fs, a);
    } else {
      e, t, f := GenOr(fs, a);
    }
  }

  lemma FitsCond(m: Arithmetic, a: Cond, n: nat)
    requires CondFits(m, a, n)
    ensures a.Leaf? ==> ExpFits(m, a.e, n)
    ensures a.Cmp? ==> ExpFits(m, a.a, n) && ExpFits(m, a.b, n)
    ensures a.NotC? ==> CondFits(m, a.c, n)
    ensures a.AndC? || a.OrC? ==> CondFits(m, a.x, n) && CondFits(m, a.y, n)
  {
  }

  lemma LeafDone(m: Arithmetic, s0: Gen, s1: Gen, a: Cond, e: ExpDesc, base: nat)
    requires a.Leaf? && s0.tr != [] && Evaluated(m, s0, s1, e, Eval(m, a.e, Last(s0.tr).g), base)
    ensures Judged(m, s0, s1, e, [], [], Holds(m, a, Last(s0.tr).g), base)
  {
  }

  lemma NotDone(m: Arithmetic, s0: Gen, s1: Gen, s2: Gen, a: Cond, e1: ExpDesc, e: ExpDesc, t: seq<int>, f: seq<int>, c: Scope, base: nat, n: nat)
    requires a.NotC? && GenInv(m, s0, n) && s0.tr != [] && s1.tr != [] && ExpOk(s1, e1, t, f, c) && c == Here(s0)
    requires Judged(m, s0, s1, e1, t, f, Holds(m, a.c, Last(s0.tr).g), base) && Negated(m, s1, s2, e1, e, base)
    requires Keeps(c, s0, s1) && Keeps(c, s1, s2) && !e.k.VK?
    ensures Keeps(c, s0, s2) && Judged(m, s0, s2, e, f, t, Holds(m, a, Last(s0.tr).g), base) && TrueConst(s2, e)
  {
    KeepsTrans(c, s0, s1, s2);
    hide Keeps;
    if !Live(s0) {
      SkippedOver(m, s0, s1, e1, t, f, n);
    } else {
      ReadyOffLists(m, s1, e1, t, f, c);
    }
    hide GenInv;
    hide Lists;
  }

  /** A comparison: luaK_infix loads the first operand, luaK_posfix emits the test. */
  method GenCmp(fs: FuncState, a: Cond) returns (e: ExpDesc)
    requires fs.Valid() && a.Cmp? && CondFits(fs.m, a, fs.nactvar)
    modifies fs`code, fs`k, fs`h, fs`jpc, fs`failed, fs`js, fs`tr, fs`longest, fs`freereg, fs`maxstacksize
    ensures fs.Valid() && ExpOk(fs.S(), e, [], [], Here(old(fs.S()))) && RegsOk(e, old(fs.freereg), fs.freereg, fs.nactvar)
    ensures TrueConst(fs.S(), e) && Keeps(Here(old(fs.S())), old(fs.S()), fs.S()) && (old(fs.failed) ==> fs.failed)
    ensures Judged(fs.m, old(fs.S()), fs.S(), e, [], [], Holds(fs.m, a, Last(old(fs.tr)).g), old(fs.freereg))
  {
    hide *;
    fs.SIs();
    fs.ValidIs();
    FitsCond(fs.m, a, fs.nactvar);
    ghost var s0, base, c := fs.S(), fs.freereg, Here(fs.S());
    var e1 := GenExp(fs, a.a);
    fs.SIs();
    fs.ValidIs();
    ghost var s1 := fs.S();
    var f1 := FirstOperand(fs, e1, c, base);
    fs.SIs();
    fs.ValidIs();
    ghost var s2, base2 := fs.S(), fs.freereg;
    FirstDone(fs.m, s0, s1, s2, e1, f1, a.a, base, fs.nactvar);
    var e2 := GenExp(fs, a.b);
    fs.SIs();
    fs.ValidIs();
    ghost var s3 := fs.S();
    SecondDone(fs.m, s0, s2, s3, f1, e2, a.a, a.b, c, base, base2, fs.nactvar);
    BaseOrder(f1, base, base2, fs.nactvar);
    var op, cond := Opcode(a.rel), Direction(a.rel);
    e := fs.CodeComp(op, cond, f1, e2, c, base, base2);
    fs.SIs();
    fs.ValidIs();
    CmpDone(fs.m, s0, s3, fs.S(), a, f1, e2, e, op, cond, c, base);
  }

  /** The opcode and the condition that luaK_posfix passes to codecomp. */
  function Opcode(r: Rel): CmpOp {
    match r
    case EQ => Eq
    case NE => Eq
    case LT => Lt
    case GT => Lt
    case LE => Le
    case GE => Le
  }

  predicate Direction(r: Rel) {
    r == EQ || r == LT || r == LE
  }

  lemma CmpDone(m: Arithmetic, s0: Gen, s3: Gen, s4: Gen, a: Cond, f1: ExpDesc, e2: ExpDesc, e: ExpDesc, op: CmpOp, cond: bool, c: Scope, base: nat)
    requires a.Cmp? && s0.tr != [] && s3.tr != [] && op == Opcode(a.rel) && cond == Direction(a.rel)
    requires BothEvaluated(m, s0, s3, f1, e2, Eval(m, a.a, Last(s0.tr).g), Eval(m, a.b, Last(s0.tr).g), base)
    requires Computed(m, s3, s4, e2, e, Boolean(Related(m, op, cond, ValueNow(m, s3, f1), ValueNow(m, s3, e2))), base)
    requires Keeps(c, s0, s3) && Keeps(c, s3, s4) && e.k.VJmp?
    ensures Keeps(c, s0, s4) && Judged(m, s0, s4, e, [], [], Holds(m, a, Last(s0.tr).g), base) && TrueConst(s4, e)
  {
    KeepsTrans(c, s0, s3, s4);
    hide Keeps;
    hide ValueNow;
    if Live(s0) {
      var v := Boolean(Related(m, op, cond, ValueNow(m, s3, f1), ValueNow(m, s3, e2)));
      assert ValueNow(m, s4, e) == v;
      assert Truthy(v) <==> Holds(m, a, Last(s0.tr).g);
    }
  }

  /** luaK_infix and luaK_posfix for `and`: what makes the first operand false skips the second one. */
  method GenAnd(fs: FuncState, a: Cond) returns (e: ExpDesc, ghost t: seq<int>, ghost f: seq<int>)
    requires fs.Valid() && a.AndC? && CondFits(fs.m, a, fs.nactvar)
    modifies fs`code, fs`k, fs`h, fs`jpc, fs`failed, fs`js, fs`tr, fs`longest, fs`freereg, fs`maxstacksize, fs`lasttarget
    ensures fs.Valid() && ExpOk(fs.S(), e, t, f, Here(old(fs.S()))) && RegsOk(e, old(fs.freereg), fs.freereg, fs.nactvar)
    ensures TrueConst(fs.S(), e) && Keeps(Here(old(fs.S())), old(fs.S()), fs.S()) && (old(fs.failed) ==> fs.failed)
    ensures Judged(fs.m, old(fs.S()), fs.S(), e, t, f, Holds(fs.m, a, Last(old(fs.tr)).g), old(fs.freereg))
    decreases a, 0
  {
    hide *;
    fs.SIs();
    fs.ValidIs();
    FitsCond(fs.m, a, fs.nactvar);
    ghost var s0, base, c := fs.S(), fs.freereg, Here(fs.S());
    var e1, t1, f1 := GenCond(fs, a.x);
    fs.SIs();
    fs.ValidIs();
    ghost var s1 := fs.S();
    var list, l := fs.GoIfTrue(e1, t1, f1, c, base);
    fs.SIs();
    fs.ValidIs();
    ghost var s2 := fs.S();
    var e2, t2, f2 := GenCond(fs, a.y);
    fs.SIs();
    fs.ValidIs();
    ghost var s3 := fs.S();
    SecondLists(fs.m, s2, s3, list, l, e2, t2, f2, c, fs.nactvar);
    var e3 := DischargeVars(e2);
    VarsOnly(fs.m, s3, e2, e3, t2, f2, c, base, fs.freereg, fs.nactvar);
    var h := fs.Concat(e3.f, list, f2, l);
    fs.SIs();
    JoinedLists(fs.m, s3, fs.S(), e3.t, t2, h, f2, l, list, c, fs.nactvar);
    fs.ValidNow();
    e := e3.(f := h);
    t, f := t2, f2 + l;
    JoinedF(fs.S(), e, t2, f2, l, c);
    JoinedExp(fs.m, s2, s3, fs.S(), e2, e3, e, t2, f2, t, f, l, c, base, fs.freereg, fs.nactvar);
    BothJudged(fs.m, s0, s1, s2, s3, fs.S(), a, e1, e2, e, t1, f1, t2, f2, t, f, l, list, true, c, base, fs.nactvar);
  }

  /** luaK_infix and luaK_posfix for `or`. */
  method GenOr(fs: FuncState, a: Cond) returns (e: ExpDesc, ghost t: seq<int>, ghost f: seq<int>)
    requires fs.Valid() && a.OrC? && CondFits(fs.m, a, fs.nactvar)
    modifies fs`code, fs`k, fs`h, fs`jpc, fs`failed, fs`js, fs`tr, fs`longest, fs`freereg, fs`maxstacksize, fs`lasttarget
    ensures fs.Valid() && ExpOk(fs.S(), e, t, f, Here(old(fs.S()))) && RegsOk(e, old(fs.freereg), fs.freereg, fs.nactvar)
    ensures TrueConst(fs.S(), e) && Keeps(Here(old(fs.S())), old(fs.S()), fs.S()) && (old(fs.failed) ==> fs.failed)
    ensures Judged(fs.m, old(fs.S()), fs.S(), e, t, f, Holds(fs.m, a, Last(old(fs.tr)).g), old(fs.freereg))
    decreases a, 0
  {
    hide *;
    fs.SIs();
    fs.ValidIs();
    FitsCond(fs.m, a, fs.nactvar);
    ghost var s0, base, c := fs.S(), fs.freereg, Here(fs.S());
    var e1, t1, f1 := GenCond(fs, a.x);
    fs.SIs();
    fs.ValidIs();
    ghost var s1 := fs.S();
    var list, l := fs.GoIfFalse(e1, t1, f1, c, base);
    fs.SIs();
    fs.ValidIs();
    ghost var s2 := fs.S();
    var e2, t2, f2 := GenCond(fs, a.y);
    fs.SIs();
    fs.ValidIs();
    ghost var s3 := fs.S();
    SecondLists(fs.m, s2, s3, list, l, e2, t2, f2, c, fs.nactvar);
    var e3 := DischargeVars(e2);
    VarsOnly(fs.m, s3, e2, e3, t2, f2, c, base, fs.freereg, fs.nactvar);
    var h := fs.Concat(e3.t, list, t2, l);
    fs.SIs();
    JoinedLists(fs.m, s3, fs.S(), e3.f, f2, h, t2, l, list, c, fs.nactvar);
    fs.ValidNow();
    e := e3.(t := h);
    t, f := t2 + l, f2;
    JoinedT(fs.S(), e, t2, f2, l, c);
    JoinedExp(fs.m, s2, s3, fs.S(), e2, e3, e, t2, f2, t, f, l, c, base, fs.freereg, fs.nactvar);
    BothJudged(fs.m, s0, s1, s2, s3, fs.S(), a, e1, e2, e, t1, f1, t2, f2, t, f, l, list, false, c, base, fs.nactvar);
  }

  /** The jumps that skip the second operand are not touched while it is compiled. */
  lemma SecondLists(m: Arithmetic, s2: Gen, s3: Gen, list: int, l: seq<int>, e2: ExpDesc, t2: seq<int>, f2: seq<int>, c: Scope, n: nat)
    requires ExpOk(s3, e2, t2, f2, Here(s2)) && Keeps(Here(s2), s2, s3) && ThirdList(s2, list, l, [], [], c)
    requires AllInside(s2.js, c) && c.n <= |s2.code|
    ensures Keeps(c, s2, s3) && c.n <= |s3.code| && AllInside(s3.js, c) && AllInside(t2, c) && AllInside(f2, c)
    ensures ThirdList(s3, list, l, t2, f2, c) && ThirdList(s3, list, l, f2, t2, c) && Disjoint(t2, l) && Disjoint(f2, l)
    ensures IsList(s3.code, list, l) && IsList(s3.code, e2.t, t2) && IsList(s3.code, e2.f, f2) && Disjoint(t2, f2) && Disjoint(f2, t2)
    ensures Disjoint(t2, s3.js) && Disjoint(f2, s3.js) && Unvisited(s3, t2) && Unvisited(s3, f2)
    ensures forall p :: p in l ==> p < |s2.code|
  {
    ListInCode(s2.code, list, l);
    hide Visited;
    KeptList(Here(s2), s2, s3, list, l);
    KeepsHere(c, s2, s3);
    HereInside(s2, c);
    hide IsList;
    hide KindOk;
    hide RunAt;
  }

  lemma VarsOnly(m: Arithmetic, s: Gen, e0: ExpDesc, e: ExpDesc, t: seq<int>, f: seq<int>, c: Scope, base: nat, freereg: nat, n: nat)
    requires e == DischargeVars(e0) && RegsOk(e0, base, freereg, n) && TrueConst(s, e0) && s.tr != []
    ensures e.t == e0.t && e.f == e0.f && RegsOk(e, base, freereg, n) && TrueConst(s, e)
    ensures (Ready(s, e) <==> Ready(s, e0)) && ValueNow(m, s, e) == ValueNow(m, s, e0)
    ensures KindOk(s, e0, c) ==> KindOk(s, e, c)
    ensures OffLists(e0, t, f) ==> OffLists(e, t, f)
  {
  }

  lemma JoinedF(s: Gen, e: ExpDesc, t2: seq<int>, f2: seq<int>, l: seq<int>, c: Scope)
    requires IsList(s.code, e.t, t2) && Unvisited(s, t2) && Disjoint(s.js, t2) && ThirdList(s, e.f, f2 + l, t2, [], c)
    requires AllInside(s.js, c) && AllInside(t2, c) && c.n <= |s.code|
    ensures Lists(s, e, t2, f2 + l, c)
  {
    hide IsList;
    hide Visited;
  }

  lemma JoinedT(s: Gen, e: ExpDesc, t2: seq<int>, f2: seq<int>, l: seq<int>, c: Scope)
    requires IsList(s.code, e.f, f2) && Unvisited(s, f2) && Disjoint(s.js, f2) && ThirdList(s, e.t, t2 + l, f2, [], c)
    requires AllInside(s.js, c) && AllInside(f2, c) && c.n <= |s.code|
    ensures Lists(s, e, t2 + l, f2, c)
  {
    hide IsList;
    hide Visited;
  }

  /** The descriptor of the whole is that of the second operand, with a longer list. */
  lemma JoinedExp(m: Arithmetic, s2: Gen, s3: Gen, s4: Gen, e2: ExpDesc, e3: ExpDesc, e: ExpDesc, t2: seq<int>, f2: seq<int>, t: seq<int>, f: seq<int>,
                  l: seq<int>, c: Scope, base: nat, freereg: nat, n: nat)
    requires ExpOk(s3, e2, t2, f2, Here(s2)) && e3 == DischargeVars(e2) && e.k == e3.k && c.n <= |s2.code|
    requires RegsOk(e3, base, freereg, n) && TrueConst(s3, e3) && s3.tr != []
    requires (Ready(s3, e3) <==> Ready(s3, e2)) && ValueNow(m, s3, e3) == ValueNow(m, s3, e2)
    requires s4 == s3.(code := s4.code) && |s4.code| == |s3.code| && (forall p :: p in l ==> p < |s2.code|)
    requires (t == t2 && f == f2 + l) || (t == t2 + l && f == f2)
    requires forall q :: 0 <= q < |s3.code| ==> s4.code[q] == s3.code[q] || ((q in t2 || q in f2) && s4.code[q].Jmp?)
    ensures KindOk(s4, e, c) && OffLists(e, t, f) && RegsOk(e, base, freereg, n) && TrueConst(s4, e)
    ensures s4.tr != [] && (Ready(s4, e) <==> Ready(s3, e2)) && ValueNow(m, s4, e) == ValueNow(m, s3, e2)
  {
    hide IsList;
    hide Visited;
    hide RunAt;
    hide Keeps;
    hide Unvisited;
    ListInCode(s3.code, e2.t, t2);
    ListInCode(s3.code, e2.f, f2);
    hide Lists;
  }

  /** `and` and `or` evaluate their second operand only when the first one has the truth `on`. */
  lemma BothJudged(m: Arithmetic, s0: Gen, s1: Gen, s2: Gen, s3: Gen, s4: Gen, a: Cond, e1: ExpDesc, e2: ExpDesc, e: ExpDesc,
                   t1: seq<int>, f1: seq<int>, t2: seq<int>, f2: seq<int>, t: seq<int>, f: seq<int>, l: seq<int>, list: int, on: bool, c: Scope, base: nat, n: nat)
    requires if on then a.AndC? && t == t2 && f == f2 + l else a.OrC? && t == t2 + l && f == f2
    requires GenInv(m, s0, n) && s0.tr != [] && s2.tr != [] && s4.tr != [] && c == Here(s0) && n <= base && CondFits(m, a, n)
    requires ExpOk(s1, e1, t1, f1, c) && Judged(m, s0, s1, e1, t1, f1, Holds(m, a.x, Last(s0.tr).g), base)
    requires if on then WentOn(m, s1, s2, e1, t1, f1, l, on, base) else WentOn(m, s1, s2, e1, f1, t1, l, on, base)
    requires Judged(m, s2, s3, e2, t2, f2, Holds(m, a.y, Last(s2.tr).g), base) && s4.tr == s3.tr
    requires ThirdList(s2, list, l, [], [], c)
    requires (Ready(s4, e) <==> Ready(s3, e2)) && ValueNow(m, s4, e) == ValueNow(m, s3, e2)
    requires Keeps(c, s0, s1) && Keeps(c, s1, s2) && Keeps(c, s2, s3) && Keeps(c, s3, s4)
    requires AllInside(s2.js, c) && c.n <= |s2.code| && Lists(s4, e, t, f, c) && KindOk(s4, e, c) && OffLists(e, t, f)
    ensures Keeps(c, s0, s4) && ExpOk(s4, e, t, f, c) && Judged(m, s0, s4, e, t, f, Holds(m, a, Last(s0.tr).g), base)
  {
    KeepsTrans(c, s0, s1, s2);
    KeepsTrans(c, s0, s2, s3);
    KeepsTrans(c, s0, s3, s4);
    ListInCode(s2.code, list, l);
    hide Keeps;
    hide IsList;
    hide Visited;
    FirstJudged(m, s0, s1, s2, a, e1, t1, f1, l, on, c, base, n);
    hide WentOn;
    hide ValueNow;
    hide KindOk;
    if Live(s0) && Live(s2) {
      HoldsAgree(m, a.y, s0.Regs(), s2.Regs(), n);
    }
  }

  /** After the first operand: a run goes on to the second one, is at a jump that skips it, or never came here. */
  lemma FirstJudged(m: Arithmetic, s0: Gen, s1: Gen, s2: Gen, a: Cond, e1: ExpDesc, t1: seq<int>, f1: seq<int>, l: seq<int>, on: bool, c: Scope, base: nat, n: nat)
    requires (on && a.AndC?) || (!on && a.OrC?)
    requires GenInv(m, s0, n) && s0.tr != [] && s2.tr != [] && c == Here(s0)
    requires ExpOk(s1, e1, t1, f1, c) && Judged(m, s0, s1, e1, t1, f1, Holds(m, a.x, Last(s0.tr).g), base)
    requires if on then WentOn(m, s1, s2, e1, t1, f1, l, on, base) else WentOn(m, s1, s2, e1, f1, t1, l, on, base)
    requires AllInside(s2.js, c) && c.n <= |s2.code|
    ensures Live(s0) ==> Agree(s0.Regs(), s2.Regs(), base) && if Holds(m, a.x, Last(s0.tr).g) == on then Live(s2) else s2.Pc() in l
    ensures !Live(s0) ==> s2.tr == s0.tr && !Live(s2) && !Inside(s2.Pc(), c)
  {
    if !Live(s0) {
      SkippedOver(m, s0, s1, e1, t1, f1, n);
    } else {
      ReadyOffLists(m, s1, e1, t1, f1, c);
    }
    hide GenInv;
    hide Lists;
    hide KindOk;
    hide ValueNow;
  }

  // ---- statements ----

  /** cond: the list of the jumps that are taken when the condition is false. */
  method Condition(fs: FuncState, a: Cond) returns (list: int, ghost l: seq<int>)
    requires fs.Valid() && CondFits(fs.m, a, fs.nactvar)
    modifies fs`code, fs`k, fs`h, fs`jpc, fs`failed, fs`js, fs`tr, fs`longest, fs`freereg, fs`maxstacksize, fs`lasttarget
    ensures fs.Valid() && IsList(fs.code, list, l) && Disjoint(l, fs.js) && Unvisited(fs.S(), l) && fs.freereg == old(fs.freereg)
    ensures WithinLimits(fs.code, fs.freereg, fs.maxstacksize, fs.failed)
    ensures fs.failed ==> fs.maxstacksize >= MAXSTACK || |fs.k| > MAXARG_BX || fs.longest > MAXARG_SBX
    ensures (old(fs.failed) ==> fs.failed) && |old(fs.code)| <= |fs.code|
    ensures old(Live(fs.S())) ==> (Agree(Last(old(fs.tr)).g, Last(fs.tr).g, fs.freereg)
      && if Holds(fs.m, a, Last(old(fs.tr)).g) then Live(fs.S()) else Last(fs.tr).pc in l)
  {
    hide *;
    fs.SIs();
    fs.ValidIs();
    ghost var s0, base, c := fs.S(), fs.freereg, Here(fs.S());
    var e, t, f := GenCond(fs, a);
    fs.SIs();
    fs.ValidIs();
    ghost var s1 := fs.S();
    var e1 := if e.k == VNil then e.(k := VFalse) else e;
    NilIsFalse(fs.m, s1, e, e1, t, f, c, base, fs.freereg, fs.nactvar);
    list, l := fs.GoIfTrue(e1, t, f, c, base);
    fs.SIs();
    fs.ValidIs();
    ConditionDone(fs.m, s0, s1, fs.S(), a, e, e1, t, f, list, l, c, base, fs.nactvar);
    fs.Limits();
  }

  lemma NilIsFalse(m: Arithmetic, s: Gen, e: ExpDesc, e1: ExpDesc, t: seq<int>, f: seq<int>, c: Scope, base: nat, freereg: nat, n: nat)
    requires ExpOk(s, e, t, f, c) && e1 == (if e.k == VNil then e.(k := VFalse) else e) && RegsOk(e, base, freereg, n) && TrueConst(s, e)
    ensures ExpOk(s, e1, t, f, c) && RegsOk(e1, base, freereg, n) && TrueConst(s, e1) && s.tr != []
    ensures (Ready(s, e1) <==> Ready(s, e)) && (Truthy(ValueNow(m, s, e1)) <==> Truthy(ValueNow(m, s, e)))
  {
    assert Lists(s, e1, t, f, c) by { hide KindOk; hide RunAt; }
    hide Lists;
  }

  lemma ConditionDone(m: Arithmetic, s0: Gen, s1: Gen, s2: Gen, a: Cond, e: ExpDesc, e1: ExpDesc, t: seq<int>, f: seq<int>, list: int, l: seq<int>, c: Scope, base: nat, n: nat)
    requires GenInv(m, s0, n) && s0.tr != [] && s2.tr != [] && s1.tr != [] && c == Here(s0) && ExpOk(s1, e1, t, f, c)
    requires (Ready(s1, e1) <==> Ready(s1, e)) && (Truthy(ValueNow(m, s1, e1)) <==> Truthy(ValueNow(m, s1, e)))
    requires Judged(m, s0, s1, e, t, f, Holds(m, a, Last(s0.tr).g), base) && WentOn(m, s1, s2, e1, t, f, l, true, base)
    requires ThirdList(s2, list, l, [], [], c) && Keeps(c, s1, s2)
    ensures IsList(s2.code, list, l) && Disjoint(l, s2.js) && Unvisited(s2, l) && |s0.code| <= |s2.code|
    ensures Live(s0) ==> Agree(s0.Regs(), s2.Regs(), base) && if Holds(m, a, Last(s0.tr).g) then Live(s2) else s2.Pc() in l
    ensures s0.Regs() == Last(s0.tr).g && s2.Regs() == Last(s2.tr).g && s2.Pc() == Last(s2.tr).pc
  {
    ReadyOffLists(m, s1, e1, t, f, c);
    hide GenInv;
    hide Lists;
    hide KindOk;
    hide ValueNow;
    hide IsList;
  }

  /** The statement `if a then body end`, with one instruction of what follows: a run that comes to the
      statement goes to the body if the condition holds, and behind it otherwise. */
  method IfThen(fs: FuncState, a: Cond, body: seq<int>) returns (thenpc: nat, elsepc: nat)
    requires fs.Valid() && CondFits(fs.m, a, fs.nactvar)
    modifies fs`code, fs`k, fs`h, fs`jpc, fs`failed, fs`js, fs`tr, fs`longest, fs`freereg, fs`maxstacksize, fs`lasttarget
    ensures fs.Valid() && fs.freereg == old(fs.freereg) && (old(fs.failed) ==> fs.failed)
    ensures WithinLimits(fs.code, fs.freereg, fs.maxstacksize, fs.failed)
    ensures fs.failed ==> fs.maxstacksize >= MAXSTACK || |fs.k| > MAXARG_BX || fs.longest > MAXARG_SBX
    ensures |old(fs.code)| <= thenpc && elsepc == thenpc + |body| == |fs.code| - 1
    ensures forall i :: 0 <= i < |body| ==> fs.code[thenpc + i] == Opaque(body[i])
    ensures IsRun(fs.m, fs.k, fs.code, fs.tr) && fs.tr[0] == Config(0, fs.init)
    ensures old(Live(fs.S())) ==> (Agree(Last(old(fs.tr)).g, Last(fs.tr).g, fs.freereg)
      && Last(fs.tr).pc == if Holds(fs.m, a, Last(old(fs.tr)).g) then thenpc else elsepc)
  {
    hide *;
    fs.SIs();
    fs.ValidIs();
    ghost var s0 := fs.S();
    ghost var holds := Holds(fs.m, a, Last(fs.tr).g);
    ghost var entered := Live(s0);
    var list, l := Condition(fs, a);
    fs.SIs();
    fs.ValidIs();
    ghost var s1 := fs.S();
    thenpc := |fs.code|;
    BodyStart(fs.m, s1, list, l, entered, holds, fs.nactvar);
    Body(fs, body, s1, list, l, entered, holds);
    fs.SIs();
    fs.ValidIs();
    ghost var s2 := fs.S();
    BodyLists(s2, s1, list, l, entered, holds);
    fs.PatchToHere(list, l);
    fs.SIs();
    fs.ValidIs();
    ghost var s3 := fs.S();
    JoinedHere(fs.m, s2, s3, s1, list, l, entered, holds, fs.nactvar);
    OpaqueIs(0, |fs.k|);
    elsepc := fs.Code(Opaque(0));
    fs.SIs();
    fs.ValidIs();
    IfDone(fs.m, s1, s2, s3, fs.S(), list, l, entered, holds, fs.nactvar);
    RunIs(fs.m, fs.S(), fs.init, fs.nactvar);
    fs.Limits();
  }

  /** The instructions of the body. */
  method Body(fs: FuncState, body: seq<int>, ghost s1: Gen, ghost list: int, ghost l: seq<int>, ghost entered: bool, ghost holds: bool)
    requires fs.Valid() && BodyAt(fs.S(), s1, list, l, entered, holds) && |fs.code| == |s1.code|
    modifies fs`code, fs`jpc, fs`failed, fs`js, fs`tr, fs`longest
    ensures fs.Valid() && |fs.code| == |s1.code| + |body| && (old(fs.failed) ==> fs.failed) && BodyAt(fs.S(), s1, list, l, entered, holds)
    ensures forall j :: 0 <= j < |body| ==> fs.code[|s1.code| + j] == Opaque(body[j])
  {
    hide *;
    for i := 0 to |body|
      invariant fs.Valid() && |fs.code| == |s1.code| + i && (old(fs.failed) ==> fs.failed)
      invariant BodyAt(fs.S(), s1, list, l, entered, holds)
      invariant forall j :: 0 <= j < i ==> fs.code[|s1.code| + j] == Opaque(body[j])
    {
      fs.SIs();
      fs.ValidIs();
      ghost var s := fs.S();
      OpaqueIs(body[i], |fs.k|);
      var pc := fs.Code(Opaque(body[i]));
      fs.SIs();
      fs.ValidIs();
      BodyStep(fs.m, s, fs.S(), s1, body[i], list, l, entered, holds, fs.nactvar);
    }
  }

  lemma OpaqueIs(x: int, n: nat)
    ensures ConstsIn(Opaque(x), n) && !Opaque(x).TestSet?
    ensures forall maxstack: nat, failed :: InstrOk(Opaque(x), maxstack, failed)
  {
  }

  /** While the body is emitted, a run stays where it enters the body, or at the jump around it. */
  ghost predicate BodyAt(s: Gen, s1: Gen, list: int, l: seq<int>, entered: bool, holds: bool) {
    && s.tr != [] && s1.tr != [] && IsList(s.code, list, l) && Disjoint(l, s.js) && Unvisited(s, l) && |s1.code| <= |s.code|
    && (forall p :: p in l || p in s.js ==> p < |s1.code|) && (|s.code| > |s1.code| ==> s.js == [])
    && (entered ==> s.Regs() == s1.Regs())
    && (entered && holds ==> if |s.code| == |s1.code| then Live(s) else s.Pc() == |s1.code|)
    && (entered && !holds ==> s.Pc() in l)
  }

  lemma BodyStart(m: Arithmetic, s: Gen, list: int, l: seq<int>, entered: bool, holds: bool, n: nat)
    requires GenInv(m, s, n) && s.tr != [] && IsList(s.code, list, l) && Disjoint(l, s.js) && Unvisited(s, l)
    requires entered ==> if holds then Live(s) else Last(s.tr).pc in l
    ensures BodyAt(s, s, list, l, entered, holds)
  {
    ListInCode(s.code, list, l);
    ListInCode(s.code, s.jpc, s.js);
  }

  lemma BodyStep(m: Arithmetic, s: Gen, s2: Gen, s1: Gen, x: int, list: int, l: seq<int>, entered: bool, holds: bool, n: nat)
    requires GenInv(m, s, n) && BodyAt(s, s1, list, l, entered, holds) && Coded(s, s2, Opaque(x)) && s2.tr != []
    ensures BodyAt(s2, s1, list, l, entered, holds)
    ensures s2.code[|s.code|] == Opaque(x) && forall q :: |s1.code| <= q < |s.code| ==> s2.code[q] == s.code[q]
  {
    hide Unvisited;
    hide IsList;
    hide GenInv;
    ListInCode(s.code, list, l);
    BodyList(m, s, s2, x, list, l, n);
    BodyKept(s, s2, s1, x);
    BodyRun(s, s2, s1, x, l, entered, holds);
    hide Coded;
    hide Live;
  }

  lemma BodyRun(s: Gen, s2: Gen, s1: Gen, x: int, l: seq<int>, entered: bool, holds: bool)
    requires s.tr != [] && s2.tr != [] && s1.tr != [] && Coded(s, s2, Opaque(x)) && |s1.code| <= |s.code|
    requires Disjoint(l, s.js) && (forall p :: p in l ==> p < |s1.code|)
    requires |s.code| > |s1.code| ==> s.js == []
    requires entered ==> s.Regs() == s1.Regs()
    requires entered && holds ==> if |s.code| == |s1.code| then Live(s) else s.Pc() == |s1.code|
    requires entered && !holds ==> s.Pc() in l
    ensures s2.js == [] && |s2.code| == |s.code| + 1 && s2.code[|s.code|] == Opaque(x)
    ensures entered ==> s2.Regs() == s1.Regs()
    ensures entered && holds ==> s2.Pc() == |s1.code|
    ensures entered && !holds ==> s2.Pc() in l
  {
    hide Visited;
    assert |s.code| > |s1.code| && s.Pc() == |s1.code| ==> !Live(s);
    assert s.Pc() in l ==> !Live(s);
  }

  lemma BodyList(m: Arithmetic, s: Gen, s2: Gen, x: int, list: int, l: seq<int>, n: nat)
    requires GenInv(m, s, n) && s.tr != [] && IsList(s.code, list, l) && Disjoint(l, s.js) && Unvisited(s, l) && Coded(s, s2, Opaque(x))
    ensures IsList(s2.code, list, l) && Unvisited(s2, l)
  {
    CodedKeeps(m, s, s2, Opaque(x), n);
    ListInCode(s.code, list, l);
    hide Visited;
    hide GenInv;
    hide IsList;
    hide Keeps;
    KeptList(Here(s), s, s2, list, l);
  }

  lemma BodyKept(s: Gen, s2: Gen, s1: Gen, x: int)
    requires s.tr != [] && Coded(s, s2, Opaque(x)) && (forall p :: p in s.js ==> p < |s1.code|) && (|s.code| > |s1.code| ==> s.js == [])
    ensures forall q :: |s1.code| <= q < |s.code| ==> s2.code[q] == s.code[q]
  {
    hide Visited;
    forall q | |s1.code| <= q < |s.code|
      ensures s2.code[q] == s.code[q]
    {
      assert s2.code[q] == PatchedInstr(s.code, s.js, |s.code|, q);
    }
  }

  lemma BodyLists(s: Gen, s1: Gen, list: int, l: seq<int>, entered: bool, holds: bool)
    requires BodyAt(s, s1, list, l, entered, holds)
    ensures IsList(s.code, list, l) && Disjoint(s.js, l) && Unvisited(s, l)
  {
  }

  lemma JoinedHere(m: Arithmetic, s: Gen, s3: Gen, s1: Gen, list: int, l: seq<int>, entered: bool, holds: bool, n: nat)
    requires GenInv(m, s, n) && BodyAt(s, s1, list, l, entered, holds) && |s3.code| == |s.code|
    requires forall q :: 0 <= q < |s.code| ==> s3.code[q] == s.code[q] || (q in s.js && s3.code[q].Jmp?)
    ensures forall q :: |s1.code| <= q < |s.code| ==> s3.code[q] == s.code[q]
  {
  }

  lemma IfDone(m: Arithmetic, s1: Gen, s2: Gen, s3: Gen, s4: Gen, list: int, l: seq<int>, entered: bool, holds: bool, n: nat)
    requires GenInv(m, s3, n) && BodyAt(s2, s1, list, l, entered, holds) && s3.tr == s2.tr && s3.js == s2.js + l && |s3.code| == |s2.code|
    requires s3.tr != [] && s4.tr != [] && Coded(s3, s4, Opaque(0))
    ensures entered ==> Last(s4.tr).g == Last(s1.tr).g && Last(s4.tr).pc == if holds then |s1.code| else |s2.code|
    ensures |s4.code| == |s3.code| + 1 && forall q :: |s1.code| <= q < |s3.code| ==> s4.code[q] == s3.code[q]
  {
    hide Visited;
    hide IsList;
    forall q | |s1.code| <= q < |s3.code|
      ensures s4.code[q] == s3.code[q]
    {
      assert s4.code[q] == PatchedInstr(s3.code, s3.js, |s3.code|, q);
      assert q + 1 in s3.js ==> q + 1 < |s1.code|;
    }
    hide GenInv;
  }

  lemma RunIs(m: Arithmetic, s: Gen, g: Regs, n: nat)
    requires GenInv(m, s, n) && StartsAt(s.tr, g)
    ensures IsRun(m, s.k, s.code, s.tr) && s.tr[0] == Config(0, g)
  {
  }
}
