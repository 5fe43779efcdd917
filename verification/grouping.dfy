/** How the manual groups operators, and that subexpr groups them so. */
module OperatorGroups {
  import opened Limits
  import opened Expressions

  /** The list of section 2.5.6 of the Lua 5.1 reference manual, from lower to higher priority. */
  function Rank(op: BinOp): nat {
    match op
    case Or => 1
    case And => 2
    case Lt | Gt | Le | Ge | Ne | Eq => 3
    case Concat => 4
    case Add | Sub => 5
    case Mul | Div | Mod => 6
    case Pow => 8
  }

  const UNARY_RANK := 7

  /** Concatenation and exponentiation group from the right, all others from the left. */
  predicate FromRight(op: BinOp) {
    op == Concat || op == Pow
  }

  /** An operand: unary operators in front of a literal, a name, a field, an index or a call. */
  datatype Factor = Factor(us: seq<UnOp>, x: Expr)

  predicate IsFactor(f: Factor) {
    f.x.Literal? || IsPrefix(f.x)
  }

  /** Operands with operators between them, and no parentheses. */
  predicate IsChain(fs: seq<Factor>, ops: seq<BinOp>) {
    |fs| == |ops| + 1 && forall i :: 0 <= i < |fs| ==> IsFactor(fs[i])
  }

  /** How the unary operators are written. */
  function Sign(op: UnOp): Token {
    match op
    case Minus => TkBinary(Sub)
    case Not => TkNot
    case Len => TkHash
  }

  function UnTokens(us: seq<UnOp>): Tokens {
    seq(|us|, i requires 0 <= i < |us| => Sign(us[i]))
  }

  function FactorTokens(f: Factor): Tokens {
    UnTokens(f.us) + Print(f.x)
  }

  function ChainTokens(fs: seq<Factor>, ops: seq<BinOp>): Tokens
    requires |fs| == |ops| + 1
  {
    if ops == [] then FactorTokens(fs[0])
    else FactorTokens(fs[0]) + ([TkBinary(ops[0])] + ChainTokens(fs[1..], ops[1..]))
  }

  /** The operator that is applied last: one of the lowest rank, the last of these if they group from the left, and
      the first if they group from the right. */
  function LastApplied(ops: seq<BinOp>): (i: nat)
    requires ops != []
    ensures i < |ops|
    ensures forall j :: 0 <= j < i ==> Rank(ops[i]) < Rank(ops[j]) || (Rank(ops[i]) == Rank(ops[j]) && !FromRight(ops[i]))
    ensures forall j :: i < j < |ops| ==> Rank(ops[i]) < Rank(ops[j]) || (Rank(ops[i]) == Rank(ops[j]) && FromRight(ops[i]))
  {
    var n := |ops| - 1;
    if n == 0 then 0
    else
      var i := LastApplied(ops[..n]);
      if Rank(ops[n]) < Rank(ops[i]) || (Rank(ops[n]) == Rank(ops[i]) && !FromRight(ops[n])) then n else i
  }

  /** The tree that the manual gives a chain. A unary operator is applied after the exponentiations behind it, and
      before everything else. */
  function Group(fs: seq<Factor>, ops: seq<BinOp>): Expr
    requires |fs| == |ops| + 1
    decreases |ops|, |fs[0].us|
  {
    if ops == [] then
      if fs[0].us == [] then fs[0].x else Unary(fs[0].us[0], Group([Factor(fs[0].us[1..], fs[0].x)], []))
    else
      var i := LastApplied(ops);
      if fs[0].us != [] && Rank(ops[i]) > UNARY_RANK
      then Unary(fs[0].us[0], Group([Factor(fs[0].us[1..], fs[0].x)] + fs[1..], ops))
      else Binary(ops[i], Group(fs[..i + 1], ops[..i]), Group(fs[i + 1..], ops[i + 1..]))
  }

  /** The priorities say the same as the ranks. */
  lemma PrioritiesAgree(a: BinOp, b: BinOp)
    ensures Right(a) < Left(b) <==> Rank(a) < Rank(b) || (Rank(a) == Rank(b) && FromRight(a))
    ensures UNARY_PRIORITY < Left(b) <==> UNARY_RANK < Rank(b)
    ensures Left(a) <= UNARY_PRIORITY <==> Rank(a) < UNARY_RANK
  {
  }

  lemma {:induction false} TokensJoin(fs: seq<Factor>, ops: seq<BinOp>, i: nat)
    requires |fs| == |ops| + 1 && i < |ops|
    ensures ChainTokens(fs, ops) == ChainTokens(fs[..i + 1], ops[..i]) + ([TkBinary(ops[i])] + ChainTokens(fs[i + 1..], ops[i + 1..]))
  {
    if i > 0 {
      TokensJoin(fs[1..], ops[1..], i - 1);
      assert fs[1..][..i] == fs[..i + 1][1..] && ops[1..][..i - 1] == ops[..i][1..];
      assert fs[1..][i..] == fs[i + 1..] && ops[1..][i..] == ops[i + 1..];
    } else {
      assert fs[..1][0] == fs[0] && ops[..0] == [];
    }
  }

  lemma UnaryTokens(f: Factor)
    requires f.us != []
    ensures FactorTokens(f) == [Sign(f.us[0])] + FactorTokens(Factor(f.us[1..], f.x))
  {
  }

  lemma ChainUnary(fs: seq<Factor>, ops: seq<BinOp>)
    requires |fs| == |ops| + 1 && fs[0].us != []
    ensures ChainTokens(fs, ops) == [Sign(fs[0].us[0])] + ChainTokens([Factor(fs[0].us[1..], fs[0].x)] + fs[1..], ops)
  {
    UnaryTokens(fs[0]);
    var g := Factor(fs[0].us[1..], fs[0].x);
    var gs := [g] + fs[1..];
    assert gs[0] == g && gs[1..] == fs[1..];
    hide FactorTokens;
    hide UnToken;
    if ops != [] {
      var more := [TkBinary(ops[0])] + ChainTokens(fs[1..], ops[1..]);
      Associates([Sign(fs[0].us[0])], FactorTokens(g), more);
    }
  }

  lemma Associates(a: Tokens, b: Tokens, c: Tokens)
    ensures a + b + c == a + (b + c)
  {
  }

  /** The printed tree has no parentheses. Its last operator is the one that was chosen. */
  lemma {:induction false} GroupPrinted(fs: seq<Factor>, ops: seq<BinOp>)
    requires IsChain(fs, ops)
    ensures Print(Group(fs, ops)) == ChainTokens(fs, ops)
    ensures var e := Group(fs, ops);
      if ops == [] then e.Unary? || e.Literal? || IsPrefix(e)
      else if fs[0].us != [] && Rank(ops[LastApplied(ops)]) > UNARY_RANK then e.Unary?
      else e.Binary? && e.op == ops[LastApplied(ops)]
    ensures fs[0].us == [] && ops == [] ==> !Group(fs, ops).Unary?
    decreases |ops|, |fs[0].us|
  {
    if ops == [] {
      if fs[0].us != [] {
        var g := Factor(fs[0].us[1..], fs[0].x);
        UnaryTokens(fs[0]);
        GroupPrinted([g], []);
      } else {
        assert UnTokens([]) + Print(fs[0].x) == Print(fs[0].x);
      }
    } else {
      var i := LastApplied(ops);
      if fs[0].us != [] && Rank(ops[i]) > UNARY_RANK {
        GroupUnary(fs, ops);
      } else {
        GroupBinary(fs, ops);
      }
    }
  }

  lemma {:induction false} GroupUnary(fs: seq<Factor>, ops: seq<BinOp>)
    requires IsChain(fs, ops) && ops != [] && fs[0].us != [] && Rank(ops[LastApplied(ops)]) > UNARY_RANK
    ensures Print(Group(fs, ops)) == ChainTokens(fs, ops) && Group(fs, ops).Unary?
    decreases |ops|, |fs[0].us|, 0
  {
    hide Print;
    var gs := [Factor(fs[0].us[1..], fs[0].x)] + fs[1..];
    var e := Group(gs, ops);
    ChainUnary(fs, ops);
    GroupPrinted(gs, ops);
    PrioritiesAgree(ops[LastApplied(ops)], ops[LastApplied(ops)]);
    assert !UnaryNeeds(e);
    PrintUnary(fs[0].us[0], e);
  }

  lemma PrintUnary(op: UnOp, x: Expr)
    requires !UnaryNeeds(x)
    ensures Print(Unary(op, x)) == [Sign(op)] + Print(x)
  {
  }

  lemma PrintBinary(op: BinOp, l: Expr, r: Expr)
    requires !LeftNeeds(op, l) && !RightNeeds(op, r)
    ensures Print(Binary(op, l, r)) == Print(l) + ([TkBinary(op)] + Print(r))
  {
  }

  lemma {:induction false} GroupBinary(fs: seq<Factor>, ops: seq<BinOp>)
    requires IsChain(fs, ops) && ops != [] && (fs[0].us == [] || Rank(ops[LastApplied(ops)]) <= UNARY_RANK)
    ensures Print(Group(fs, ops)) == ChainTokens(fs, ops)
    ensures Group(fs, ops).Binary? && Group(fs, ops).op == ops[LastApplied(ops)]
    decreases |ops|, |fs[0].us|, 0
  {
    hide *;
    var i := LastApplied(ops);
    SubChains(fs, ops, i);
    var l, r := Group(fs[..i + 1], ops[..i]), Group(fs[i + 1..], ops[i + 1..]);
    GroupPrinted(fs[..i + 1], ops[..i]);
    GroupPrinted(fs[i + 1..], ops[i + 1..]);
    GroupBinaryIs(fs, ops);
    TokensJoin(fs, ops, i);
    assert l.Unary? ==> fs[0].us != [];
    PrefixIs(l);
    PrefixIs(r);
    NoneNeeded(ops, l, r);
    PrintBinary(ops[i], l, r);
  }

  lemma PrefixIs(e: Expr)
    ensures IsPrefix(e) ==> !e.Unary? && !e.Binary?
  {
  }

  lemma SubChains(fs: seq<Factor>, ops: seq<BinOp>, i: nat)
    requires IsChain(fs, ops) && i < |ops|
    ensures |fs| == |ops| + 1 && IsChain(fs[..i + 1], ops[..i]) && IsChain(fs[i + 1..], ops[i + 1..])
  {
    hide IsFactor;
  }

  lemma GroupBinaryIs(fs: seq<Factor>, ops: seq<BinOp>)
    requires |fs| == |ops| + 1 && ops != [] && (fs[0].us == [] || Rank(ops[LastApplied(ops)]) <= UNARY_RANK)
    ensures var i := LastApplied(ops);
      Group(fs, ops) == Binary(ops[i], Group(fs[..i + 1], ops[..i]), Group(fs[i + 1..], ops[i + 1..]))
  {
  }

  /** The operands of the operator that is applied last need no parentheses. */
  lemma NoneNeeded(ops: seq<BinOp>, l: Expr, r: Expr)
    requires ops != []
    requires var i := LastApplied(ops);
      && (l.Unary? ==> Rank(ops[i]) <= UNARY_RANK) && (l.Binary? ==> i > 0 && l.op == ops[..i][LastApplied(ops[..i])])
      && (r.Binary? ==> i + 1 < |ops| && r.op == ops[i + 1..][LastApplied(ops[i + 1..])])
    ensures !LeftNeeds(ops[LastApplied(ops)], l) && !RightNeeds(ops[LastApplied(ops)], r)
  {
    var op := ops[LastApplied(ops)];
    PrioritiesAgree(op, op);
    if l.Binary? {
      PrioritiesAgree(l.op, op);
    }
    if r.Binary? {
      PrioritiesAgree(op, r.op);
    }
    hide Left;
    hide Right;
    hide Rank;
  }

  /** The tokens that cannot continue an expression. */
  predicate Follows(tail: Tokens) {
    !Peek(tail).TkBinary? && Peek(tail) != TkDot && Peek(tail) != TkLeftBracket && Peek(tail) != TkLeftParen
  }

  /** subexpr groups every chain as the manual does, unless the syntax levels do not suffice. */
  lemma Grouped(fs: seq<Factor>, ops: seq<BinOp>, tail: Tokens, level: nat)
    requires IsChain(fs, ops) && Follows(tail)
    ensures SubExpr(ChainTokens(fs, ops) + tail, 0, level) ==
            if level + Depth(Group(fs, ops)) <= LUAI_MAXCCALLS then Parsed(Group(fs, ops), tail) else Failed(TooManyLevels)
  {
    GroupPrinted(fs, ops);
    ExprBack(Group(fs, ops), tail, level);
  }

  predicate IsAtom(e: Expr) {
    e.Literal? || e.Name?
  }

  /** Two operators: the one of the higher rank is applied first; within a rank the left one, or the right one if
      they group from the right. */
  lemma TwoOperators(x: Expr, a: BinOp, y: Expr, b: BinOp, z: Expr, tail: Tokens, level: nat)
    requires IsAtom(x) && IsAtom(y) && IsAtom(z) && Follows(tail) && level + 3 <= LUAI_MAXCCALLS
    ensures SubExpr(Print(x) + [TkBinary(a)] + Print(y) + [TkBinary(b)] + Print(z) + tail, 0, level) ==
            Parsed(if Rank(a) > Rank(b) || (Rank(a) == Rank(b) && !FromRight(a)) then Binary(b, Binary(a, x, y), z)
                   else Binary(a, x, Binary(b, y, z)), tail)
  {
    var fs, ops := [Factor([], x), Factor([], y), Factor([], z)], [a, b];
    GroupTwo(x, a, y, b, z);
    TwoTokens(x, a, y, b, z, tail);
    hide Group;
    Grouped(fs, ops, tail, level);
    assert Depth(x) == Depth(y) == Depth(z) == 1;
  }

  lemma GroupTwo(x: Expr, a: BinOp, y: Expr, b: BinOp, z: Expr)
    ensures Group([Factor([], x), Factor([], y), Factor([], z)], [a, b]) ==
            if Rank(a) > Rank(b) || (Rank(a) == Rank(b) && !FromRight(a)) then Binary(b, Binary(a, x, y), z) else Binary(a, x, Binary(b, y, z))
  {
    var fs, ops := [Factor([], x), Factor([], y), Factor([], z)], [a, b];
    GroupOne(x, a, y);
    GroupOne(y, b, z);
    LastOfTwo(a, b);
    assert fs[..1] == [fs[0]] && fs[1..] == [fs[1], fs[2]] && fs[..2] == [fs[0], fs[1]] && fs[2..] == [fs[2]];
    assert ops[..0] == [] && ops[1..] == [b] && ops[..1] == [a] && ops[2..] == [];
  }

  lemma TwoTokens(x: Expr, a: BinOp, y: Expr, b: BinOp, z: Expr, tail: Tokens)
    ensures ChainTokens([Factor([], x), Factor([], y), Factor([], z)], [a, b]) + tail ==
            Print(x) + [TkBinary(a)] + Print(y) + [TkBinary(b)] + Print(z) + tail
  {
    ChainOfTwo(Factor([], y), b, Factor([], z));
    ChainOfThree(Factor([], x), a, Factor([], y), b, Factor([], z));
    AtomTokens(x);
    AtomTokens(y);
    AtomTokens(z);
    hide *;
    Flat(Print(x), [TkBinary(a)], Print(y), [TkBinary(b)], Print(z), tail);
  }

  lemma Flat(p: Tokens, q: Tokens, r: Tokens, s: Tokens, t: Tokens, u: Tokens)
    ensures p + (q + (r + (s + t))) + u == p + q + r + s + t + u
  {
  }

  lemma ChainOfThree(f: Factor, a: BinOp, g: Factor, b: BinOp, h: Factor)
    ensures ChainTokens([f, g, h], [a, b]) == FactorTokens(f) + ([TkBinary(a)] + ChainTokens([g, h], [b]))
  {
    assert [f, g, h][1..] == [g, h] && [a, b][1..] == [b];
  }

  lemma ChainOfTwo(f: Factor, a: BinOp, g: Factor)
    ensures ChainTokens([f, g], [a]) == FactorTokens(f) + ([TkBinary(a)] + FactorTokens(g))
  {
    assert [f, g][1..] == [g] && [a][1..] == [];
    ChainOfOne(g);
  }

  lemma AtomTokens(x: Expr)
    ensures FactorTokens(Factor([], x)) == Print(x)
  {
  }

  lemma ChainOfOne(f: Factor)
    ensures ChainTokens([f], []) == FactorTokens(f)
  {
  }

  lemma GroupOne(x: Expr, a: BinOp, y: Expr)
    ensures Group([Factor([], x), Factor([], y)], [a]) == Binary(a, x, y)
  {
    var fs := [Factor([], x), Factor([], y)];
    assert fs[..1] == [fs[0]] && fs[1..] == [fs[1]] && [a][..0] == [] && [a][1..] == [];
  }

  lemma LastOfTwo(a: BinOp, b: BinOp)
    ensures LastApplied([a, b]) == if Rank(a) > Rank(b) || (Rank(a) == Rank(b) && !FromRight(a)) then 1 else 0
  {
    assert [a, b][..1] == [a];
  }

  /** A unary operator in front of a binary one: it is applied after an exponentiation, and before all others. */
  lemma UnaryAndBinary(op: UnOp, x: Expr, a: BinOp, y: Expr, tail: Tokens, level: nat)
    requires IsAtom(x) && IsAtom(y) && Follows(tail) && level + 3 <= LUAI_MAXCCALLS
    ensures SubExpr([Sign(op)] + Print(x) + [TkBinary(a)] + Print(y) + tail, 0, level) ==
            Parsed(if a == Pow then Unary(op, Binary(a, x, y)) else Binary(a, Unary(op, x), y), tail)
  {
    var fs, ops := [Factor([op], x), Factor([], y)], [a];
    GroupSigned(op, x, a, y);
    SignedTokens(op, x, a, y, tail);
    hide Group;
    Grouped(fs, ops, tail, level);
    assert Depth(x) == Depth(y) == 1;
  }

  lemma GroupSigned(op: UnOp, x: Expr, a: BinOp, y: Expr)
    ensures Group([Factor([op], x), Factor([], y)], [a]) == if a == Pow then Unary(op, Binary(a, x, y)) else Binary(a, Unary(op, x), y)
  {
    var fs, ops := [Factor([op], x), Factor([], y)], [a];
    assert fs[..1] == [fs[0]] && fs[1..] == [fs[1]] && ops[..0] == [] && ops[1..] == [] && [op][1..] == [];
    assert [Factor([op][1..], x)] + fs[1..] == [Factor([], x), Factor([], y)];
    GroupOne(x, a, y);
    assert Group([Factor([op], x)], []) == Unary(op, x);
  }

  lemma SignedTokens(op: UnOp, x: Expr, a: BinOp, y: Expr, tail: Tokens)
    ensures ChainTokens([Factor([op], x), Factor([], y)], [a]) + tail == [Sign(op)] + Print(x) + [TkBinary(a)] + Print(y) + tail
  {
    ChainOfTwo(Factor([op], x), a, Factor([], y));
    AtomTokens(y);
    SignedFactor(op, x);
    hide *;
    Flat4([Sign(op)], Print(x), [TkBinary(a)], Print(y), tail);
  }

  lemma SignedFactor(op: UnOp, x: Expr)
    ensures FactorTokens(Factor([op], x)) == [Sign(op)] + Print(x)
  {
    assert UnTokens([op]) == [Sign(op)];
  }

  lemma Flat4(p: Tokens, q: Tokens, r: Tokens, s: Tokens, u: Tokens)
    ensures p + q + (r + s) + u == p + q + r + s + u
  {
  }
}
