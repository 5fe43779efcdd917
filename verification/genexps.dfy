/** Expression descriptors, and what they say about the code that has been emitted for an expression. */
module GenExps {
  import opened Machine
  import opened JumpLists

  /** Kinds of expression descriptors. */
  datatype Kind =
    | VNil | VTrue | VFalse
    | VK(info: nat) | VKNum(nval: int)
    | VLocal(info: nat) | VJmp(info: nat) | VRelocable(info: nat) | VNonReloc(info: nat)

  /** An expression whose code may be delayed; `t` and `f` are the lists of jumps that leave it when it is
      true and when it is false. */
  datatype ExpDesc = ExpDesc(k: Kind, t: int, f: int)

  /** The code of an expression: what was emitted from `n` on, and the jumps that were pending when it began. */
  datatype Scope = Scope(n: nat, own: set<int>)

  predicate Inside(p: int, c: Scope) {
    p >= c.n || p in c.own
  }

  /** Code outside the scope keeps its jumps, and its tests do not begin to set registers. */
  ghost predicate Keeps(c: Scope, s: Gen, s1: Gen) {
    && c.n <= |s.code| && c.n <= |s1.code| && s.k <= s1.k
    && (forall q :: 0 <= q < c.n && s.code[q].Jmp? && q !in c.own ==> s1.code[q] == s.code[q])
    && (forall q :: 0 <= q < c.n && s1.code[q].TestSet? ==> s1.code[q] == s.code[q])
    && (forall p :: Visited(s1.tr, p) ==> Visited(s.tr, p) || Inside(p, c))
  }

  lemma KeepsRefl(c: Scope, s: Gen)
    requires c.n <= |s.code|
    ensures Keeps(c, s, s)
  {
  }

  lemma KeepsTrans(c: Scope, s: Gen, s1: Gen, s2: Gen)
    requires Keeps(c, s, s1) && Keeps(c, s1, s2)
    ensures Keeps(c, s, s2)
  {
  }

  /** Lists of jumps outside the scope are not touched. */
  lemma KeptList(c: Scope, s: Gen, s1: Gen, h: int, l: seq<int>)
    requires Keeps(c, s, s1) && IsList(s.code, h, l) && forall p :: p in l ==> !Inside(p, c)
    ensures IsList(s1.code, h, l) && (Unvisited(s, l) ==> Unvisited(s1, l))
  {
    hide Visited;
    forall p | p in l
      ensures p < |s1.code| && s1.code[p] == s.code[p] && (p >= 1 && s1.code[p - 1].TestSet? ==> s1.code[p - 1] == s.code[p - 1])
    {
      assert NoTarget(s.code, p);
      var i :| 0 <= i < |l| && l[i] == p;
      assert IsJump(s.code, l[i]);
    }
    ListKept(s.code, s1.code, h, l);
  }

  ghost predicate AllInside(l: seq<int>, c: Scope) {
    forall p :: p in l ==> Inside(p, c)
  }

  /** The two lists of an expression and the pending list are disjoint, and no run has executed their jumps. */
  ghost predicate Lists(s: Gen, e: ExpDesc, t: seq<int>, f: seq<int>, c: Scope) {
    && IsList(s.code, e.t, t) && IsList(s.code, e.f, f)
    && Disjoint(t, f) && Disjoint(t, s.js) && Disjoint(f, s.js)
    && Unvisited(s, t) && Unvisited(s, f)
    && AllInside(t, c) && AllInside(f, c) && AllInside(s.js, c) && c.n <= |s.code|
  }

  ghost predicate KindOk(s: Gen, e: ExpDesc, c: Scope) {
    match e.k
    case VK(i) => i < |s.k|
    case VJmp(p) =>
      && c.n < p == |s.code| - 1 && s.js == [] && s.code[p] == Jmp(NO_JUMP) && s.code[p - 1].CompareI?
      && !Visited(s.tr, p) && !Visited(s.tr, p - 1)
    case VRelocable(p) =>
      && c.n <= p == |s.code| - 1 && s.js == [] && s.lasttarget <= p && NoTarget(s.code, p) && (s.code[p].ArithI? || s.code[p].Unm? || s.code[p].Not?)
      && !Visited(s.tr, p)
    case _ => true
  }

  /** The jump of a VJMP is on neither list. */
  predicate OffLists(e: ExpDesc, t: seq<int>, f: seq<int>) {
    e.k.VJmp? ==> e.k.info !in t && e.k.info !in f
  }

  /** A run has come to the point where the value of the expression is available. */
  predicate Ready(s: Gen, e: ExpDesc)
    requires s.tr != []
  {
    match e.k
    case VJmp(p) => s.Pc() == p - 1
    case VRelocable(p) => s.Pc() == p
    case _ => Live(s)
  }

  /** That value. */
  function ValueNow(m: Arithmetic, s: Gen, e: ExpDesc): Value
    requires s.tr != []
  {
    match e.k
    case VNil => Nil
    case VTrue => Boolean(true)
    case VFalse => Boolean(false)
    case VK(i) => if i < |s.k| then s.k[i] else Nil
    case VKNum(n) => Number(n)
    case VLocal(r) => At(s.Regs(), r)
    case VNonReloc(r) => At(s.Regs(), r)
    case VRelocable(p) => if p < |s.code| then Result(m, s.k, s.code[p], s.Regs()) else Nil
    case VJmp(p) => Boolean(0 < p <= |s.code| && Taken(m, s.k, s.code[p - 1], s.Regs()))
  }

  /** Where a run can be: ready, at a jump that leaves the expression, or at a jump outside that skips it. */
  ghost predicate RunAt(s: Gen, e: ExpDesc, t: seq<int>, f: seq<int>, c: Scope)
    requires s.tr != []
  {
    Ready(s, e) || s.Pc() in t || s.Pc() in f || !Inside(s.Pc(), c)
  }

  ghost predicate ExpOk(s: Gen, e: ExpDesc, t: seq<int>, f: seq<int>, c: Scope) {
    s.tr != [] && Lists(s, e, t, f, c) && KindOk(s, e, c) && OffLists(e, t, f) && RunAt(s, e, t, f, c)
  }

  /** A run that entered the expression has found out that the condition is `b`, or can read it off now. */
  ghost predicate Outcome(m: Arithmetic, s: Gen, e: ExpDesc, t: seq<int>, f: seq<int>, b: bool)
    requires s.tr != []
  {
    (s.Pc() in t && b) || (s.Pc() in f && !b) || (Ready(s, e) && Truthy(ValueNow(m, s, e)) == b)
  }

  /** Which registers an expression uses, if `base` was the first free one before. */
  predicate RegsOk(e: ExpDesc, base: nat, freereg: nat, nactvar: nat) {
    match e.k
    case VNonReloc(r) => if r < nactvar then freereg == base else r == base && freereg == base + 1
    case VLocal(r) => r < nactvar && freereg == base
    case _ => freereg == base
  }

  /** Just what is pending may change. */
  ghost function Here(s: Gen): Scope {
    Scope(|s.code|, set p | p in s.js)
  }

  lemma HereInside(s: Gen, c: Scope)
    requires c.n <= |s.code| && AllInside(s.js, c)
    ensures forall p :: Inside(p, Here(s)) ==> Inside(p, c)
  {
  }

  lemma KeepsHere(c: Scope, s: Gen, s1: Gen)
    requires Keeps(Here(s), s, s1) && c.n <= |s.code| && AllInside(s.js, c)
    ensures Keeps(c, s, s1)
  {
  }

  /** The lists of an expression are not affected by code that is emitted after it. */
  lemma ListsKept(s: Gen, s1: Gen, e: ExpDesc, e1: ExpDesc, t: seq<int>, f: seq<int>, c: Scope)
    requires Lists(s, e, t, f, c) && Keeps(Here(s), s, s1) && e1.t == e.t && e1.f == e.f && (s1.js == [] || s1.js == s.js)
    ensures Lists(s1, e1, t, f, c)
  {
    ListInCode(s.code, e.t, t);
    ListInCode(s.code, e.f, f);
    hide Visited;
    KeptList(Here(s), s, s1, e.t, t);
    KeptList(Here(s), s, s1, e.f, f);
  }

  /** A list of jumps of the expression that is on neither of its two lists. */
  ghost predicate ThirdList(s: Gen, h: int, l: seq<int>, t: seq<int>, f: seq<int>, c: Scope) {
    IsList(s.code, h, l) && Disjoint(l, t) && Disjoint(l, f) && Disjoint(l, s.js) && Unvisited(s, l) && AllInside(l, c)
  }

  /** Nor by changes to other instructions than jumps. */
  lemma ListsStay(s: Gen, s1: Gen, e: ExpDesc, e1: ExpDesc, t: seq<int>, f: seq<int>, c: Scope)
    requires Lists(s, e, t, f, c) && e1.t == e.t && e1.f == e.f && s1.js == s.js && s1.tr == s.tr && c.n <= |s1.code|
    requires forall q :: 0 <= q < |s.code| && s.code[q].Jmp? ==> q < |s1.code| && s1.code[q] == s.code[q]
    requires forall q :: 0 <= q < |s1.code| && s1.code[q].TestSet? ==> q < |s.code| && s1.code[q] == s.code[q]
    ensures Lists(s1, e1, t, f, c)
  {
    hide Visited;
    ListStays(s.code, s1.code, e.t, t);
    ListStays(s.code, s1.code, e.f, f);
    hide IsList;
  }

  lemma ListStays(code: seq<Instr>, code1: seq<Instr>, h: int, l: seq<int>)
    requires IsList(code, h, l)
    requires forall q :: 0 <= q < |code| && code[q].Jmp? ==> q < |code1| && code1[q] == code[q]
    requires forall q :: 0 <= q < |code1| && code1[q].TestSet? ==> q < |code| && code1[q] == code[q]
    ensures IsList(code1, h, l)
  {
    ListInCode(code, h, l);
    hide IsList;
    ListKept(code, code1, h, l);
  }
}
