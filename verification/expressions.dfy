/** The expression syntax of lparser.c: tokens, trees, operator priorities, reading and printing. */
module Expressions {
  import opened Limits

  datatype UnOp = Not | Minus | Len

  datatype BinOp =
    | Add | Sub | Mul | Div | Mod | Pow | Concat
    | Ne | Eq | Lt | Le | Gt | Ge | And | Or

  /** The minus sign is the token of subtraction wherever it stands. */
  datatype Token =
    | TkLiteral(v: int)
    | TkName(name: string)
    | TkBinary(op: BinOp)
    | TkNot | TkHash
    | TkLeftParen | TkRightParen | TkLeftBracket | TkRightBracket
    | TkDot | TkComma | TkOther(k: int) | TkEos

  datatype Expr =
    | Literal(v: int)
    | Name(name: string)
    | Field(table: Expr, key: string)
    | Index(table: Expr, index: Expr)
    | Call(f: Expr, args: seq<Expr>)
    | Unary(uop: UnOp, arg: Expr)
    | Binary(op: BinOp, l: Expr, r: Expr)

  type Tokens = seq<Token>

  const UNARY_PRIORITY := 8

  /** The priority table. */
  function Left(op: BinOp): nat {
    match op
    case Add | Sub => 6
    case Mul | Div | Mod => 7
    case Pow => 10
    case Concat => 5
    case Ne | Eq | Lt | Le | Gt | Ge => 3
    case And => 2
    case Or => 1
  }

  function Right(op: BinOp): nat {
    match op
    case Pow => 9
    case Concat => 4
    case _ => Left(op)
  }

  /** The current token. */
  function Peek(ts: Tokens): Token {
    if ts == [] then TkEos else ts[0]
  }

  predicate IsUnary(t: Token) {
    t == TkNot || t == TkHash || t == TkBinary(Sub)
  }

  function UnOf(t: Token): UnOp
    requires IsUnary(t)
  {
    if t == TkNot then Not else if t == TkHash then Len else Minus
  }

  function UnToken(op: UnOp): Token {
    match op
    case Not => TkNot
    case Len => TkHash
    case Minus => TkBinary(Sub)
  }

  // ---- reading ----

  datatype Error = UnexpectedSymbol | TooManyLevels | Expected(t: Token)

  datatype Parse<T> = Parsed(v: T, rest: Tokens) | Failed(err: Error)

  /** Reads an expression whose operators all bind more tightly than the limit. */
  function SubExpr(ts: Tokens, limit: nat, level: nat): (p: Parse<Expr>)
    ensures p.Parsed? ==> |p.rest| < |ts|
    decreases |ts|, 3
  {
    if level + 1 > LUAI_MAXCCALLS then Failed(TooManyLevels)
    else
      var first := Operand(ts, level + 1);
      if first.Failed? then first else Operators(first.v, first.rest, limit, level + 1)
  }

  function Operand(ts: Tokens, level: nat): (p: Parse<Expr>)
    ensures p.Parsed? ==> |p.rest| < |ts|
    decreases |ts|, 2
  {
    if IsUnary(Peek(ts)) then
      var x := SubExpr(ts[1..], UNARY_PRIORITY, level);
      if x.Failed? then x else Parsed(Unary(UnOf(Peek(ts)), x.v), x.rest)
    else if Peek(ts).TkLiteral? then Parsed(Literal(ts[0].v), ts[1..])
    else PrimaryExp(ts, level)
  }

  /** The loop of subexpr: what follows the expression read so far. */
  function Operators(e: Expr, ts: Tokens, limit: nat, level: nat): (p: Parse<Expr>)
    ensures p.Parsed? ==> |p.rest| <= |ts|
    decreases |ts|, 1
  {
    if Peek(ts).TkBinary? && Left(ts[0].op) > limit then
      var x := SubExpr(ts[1..], Right(ts[0].op), level);
      if x.Failed? then x else Operators(Binary(ts[0].op, e, x.v), x.rest, limit, level)
    else Parsed(e, ts)
  }

  function PrimaryExp(ts: Tokens, level: nat): (p: Parse<Expr>)
    ensures p.Parsed? ==> |p.rest| < |ts|
    decreases |ts|, 1
  {
    var e := PrefixExp(ts, level);
    if e.Failed? then e else Suffixes(e.v, e.rest, level)
  }

  function PrefixExp(ts: Tokens, level: nat): (p: Parse<Expr>)
    ensures p.Parsed? ==> |p.rest| < |ts|
    decreases |ts|, 0
  {
    if Peek(ts) == TkLeftParen then
      var e := SubExpr(ts[1..], 0, level);
      if e.Failed? then e
      else if Peek(e.rest) != TkRightParen then Failed(Expected(TkRightParen))
      else Parsed(e.v, e.rest[1..])
    else if Peek(ts).TkName? then Parsed(Name(ts[0].name), ts[1..])
    else Failed(UnexpectedSymbol)
  }

  /** The loop of primaryexp: fields, indices and calls. */
  function Suffixes(e: Expr, ts: Tokens, level: nat): (p: Parse<Expr>)
    ensures p.Parsed? ==> |p.rest| <= |ts|
    decreases |ts|, 0
  {
    if Peek(ts) == TkDot then
      if Peek(ts[1..]).TkName? then Suffixes(Field(e, ts[1].name), ts[2..], level)
      else Failed(Expected(TkName("")))
    else if Peek(ts) == TkLeftBracket then
      var x := SubExpr(ts[1..], 0, level);
      if x.Failed? then Failed(x.err)
      else if Peek(x.rest) != TkRightBracket then Failed(Expected(TkRightBracket))
      else Suffixes(Index(e, x.v), x.rest[1..], level)
    else if Peek(ts) == TkLeftParen then
      var x := Args(ts[1..], level);
      if x.Failed? then Failed(x.err)
      else if Peek(x.rest) != TkRightParen then Failed(Expected(TkRightParen))
      else Suffixes(Call(e, x.v), x.rest[1..], level)
    else Parsed(e, ts)
  }

  function Args(ts: Tokens, level: nat): (p: Parse<seq<Expr>>)
    ensures p.Parsed? ==> |p.rest| <= |ts|
    decreases |ts|, 5
  {
    if Peek(ts) == TkRightParen then Parsed([], ts) else ExpList(ts, level)
  }

  function ExpList(ts: Tokens, level: nat): (p: Parse<seq<Expr>>)
    ensures p.Parsed? ==> |p.rest| < |ts|
    decreases |ts|, 4
  {
    var e := SubExpr(ts, 0, level);
    if e.Failed? then Failed(e.err)
    else if Peek(e.rest) != TkComma then Parsed([e.v], e.rest)
    else
      var more := ExpList(e.rest[1..], level);
      if more.Failed? then Failed(more.err) else Parsed([e.v] + more.v, more.rest)
  }

  // ---- printing ----

  predicate IsPrefix(e: Expr) {
    e.Name? || e.Field? || e.Index? || e.Call?
  }

  /** Whether a left operand needs parentheses: something in it would take the operator as its own. */
  predicate LeftNeeds(op: BinOp, e: Expr) {
    (e.Binary? && Right(e.op) < Left(op)) || (e.Unary? && UNARY_PRIORITY < Left(op))
  }

  predicate RightNeeds(op: BinOp, e: Expr) {
    e.Binary? && Left(e.op) <= Right(op)
  }

  predicate UnaryNeeds(e: Expr) {
    e.Binary? && Left(e.op) <= UNARY_PRIORITY
  }

  function Paren(ts: Tokens): Tokens {
    [TkLeftParen] + ts + [TkRightParen]
  }

  function ParenIf(b: bool, ts: Tokens): Tokens {
    if b then Paren(ts) else ts
  }

  /** An expression with only the parentheses that priorities require. */
  function Print(e: Expr): (ts: Tokens)
    decreases e, 0
  {
    match e
    case Literal(v) => [TkLiteral(v)]
    case Name(n) => [TkName(n)]
    case Field(t, k) => ParenIf(!IsPrefix(t), Print(t)) + [TkDot, TkName(k)]
    case Index(t, i) => ParenIf(!IsPrefix(t), Print(t)) + ([TkLeftBracket] + Print(i) + [TkRightBracket])
    case Call(f, args) => ParenIf(!IsPrefix(f), Print(f)) + ([TkLeftParen] + PrintArgs(args) + [TkRightParen])
    case Unary(op, x) => [UnToken(op)] + ParenIf(UnaryNeeds(x), Print(x))
    case Binary(op, l, r) => ParenIf(LeftNeeds(op, l), Print(l)) + ([TkBinary(op)] + ParenIf(RightNeeds(op, r), Print(r)))
  }

  function PrintArgs(args: seq<Expr>): Tokens
    decreases args, 1
  {
    if args == [] then []
    else if |args| == 1 then Print(args[0])
    else Print(args[0]) + ([TkComma] + PrintArgs(args[1..]))
  }

  function DepthIf(b: bool, d: nat): nat {
    if b then d + 1 else d
  }

  /** How many syntax levels the printed expression takes. */
  function Depth(e: Expr): (d: nat)
    ensures d > 0
    decreases e, 0
  {
    match e
    case Literal(_) => 1
    case Name(_) => 1
    case Field(t, _) => DepthIf(!IsPrefix(t), Depth(t))
    case Index(t, i) => Max(DepthIf(!IsPrefix(t), Depth(t)), 1 + Depth(i))
    case Call(f, args) => Max(DepthIf(!IsPrefix(f), Depth(f)), 1 + ArgsDepth(args))
    case Unary(_, x) => 1 + DepthIf(UnaryNeeds(x), Depth(x))
    case Binary(op, l, r) => Max(DepthIf(LeftNeeds(op, l), Depth(l)), 1 + DepthIf(RightNeeds(op, r), Depth(r)))
  }

  function ArgsDepth(args: seq<Expr>): nat
    decreases args, 1
  {
    if args == [] then 0 else Max(Depth(args[0]), ArgsDepth(args[1..]))
  }

  // ---- reading what was printed ----

  /** The left priority of the operator that comes next, 0 if none does. */
  function NextLeft(ts: Tokens): nat {
    if Peek(ts).TkBinary? then Left(ts[0].op) else 0
  }

  /** The next token does not continue a prefix expression. */
  predicate NoSuffix(ts: Tokens) {
    Peek(ts) != TkDot && Peek(ts) != TkLeftBracket && Peek(ts) != TkLeftParen
  }

  /** The expression may stand without parentheses right of `limit` and left of an operator of priority `next`. */
  predicate Fits(e: Expr, limit: nat, next: nat) {
    match e
    case Binary(op, _, _) => Left(op) > limit && next <= Right(op)
    case Unary(_, _) => next <= UNARY_PRIORITY
    case _ => true
  }

  /** What subexpr makes of a printed operand: it gets as far as its end, unless that is nested too deeply. */
  ghost predicate Reads(b: bool, e: Expr, tail: Tokens, limit: nat, level: nat) {
    SubExpr(ParenIf(b, Print(e)) + tail, limit, level) ==
    if level + DepthIf(b, Depth(e)) <= LUAI_MAXCCALLS then Operators(e, tail, limit, level + 1) else Failed(TooManyLevels)
  }

  ghost predicate ReadsPrefix(b: bool, e: Expr, tail: Tokens, level: nat) {
    PrimaryExp(ParenIf(b, Print(e)) + tail, level) ==
    if level + DepthIf(b, Depth(e)) <= LUAI_MAXCCALLS + 1 then Suffixes(e, tail, level) else Failed(TooManyLevels)
  }

  ghost predicate ReadsArgs(args: seq<Expr>, tail: Tokens, level: nat) {
    Args(PrintArgs(args) + tail, level) ==
    if level + ArgsDepth(args) <= LUAI_MAXCCALLS then Parsed(args, tail) else Failed(TooManyLevels)
  }

  lemma {:induction false} PrintStart(e: Expr)
    ensures Print(e) != [] && Peek(Print(e)) != TkRightParen
    ensures IsPrefix(e) ==> Peek(Print(e)).TkName? || Peek(Print(e)) == TkLeftParen
    decreases e
  {
    match e
    case Field(t, _) => PrintStart(t);
    case Index(t, _) => PrintStart(t);
    case Call(f, _) => PrintStart(f);
    case Binary(_, l, _) => PrintStart(l);
    case _ =>
  }

  /** What stops the loops. */
  lemma Stops(e: Expr, ts: Tokens, limit: nat, level: nat)
    ensures NextLeft(ts) <= limit ==> Operators(e, ts, limit, level) == Parsed(e, ts)
    ensures NoSuffix(ts) ==> Suffixes(e, ts, level) == Parsed(e, ts)
  {
  }

  /** An expression in parentheses, read by prefixexp. */
  lemma {:induction false} ReadParen(e: Expr, tail: Tokens, level: nat)
    requires Reads(false, e, [TkRightParen] + tail, 0, level)
    ensures ReadsPrefix(true, e, tail, level)
  {
    hide SubExpr;
    hide Suffixes;
    hide Print;
    var ts := Paren(Print(e)) + tail;
    assert ts[1..] == ParenIf(false, Print(e)) + ([TkRightParen] + tail);
    Stops(e, [TkRightParen] + tail, 0, level + 1);
    assert ([TkRightParen] + tail)[1..] == tail;
    var p := PrefixExp(ts, level);
    assert p == if level + Depth(e) <= LUAI_MAXCCALLS then Parsed(e, tail) else Failed(TooManyLevels);
    assert PrimaryExp(ts, level) == if p.Failed? then p else Suffixes(e, tail, level);
  }

  /** A prefix expression, or one in parentheses, as an operand. */
  lemma {:induction false} PrefixAsOperand(b: bool, e: Expr, tail: Tokens, limit: nat, level: nat)
    requires NoSuffix(tail) && (b || IsPrefix(e))
    requires level < LUAI_MAXCCALLS ==> ReadsPrefix(b, e, tail, level + 1)
    ensures Reads(b, e, tail, limit, level)
  {
    hide PrimaryExp;
    hide Operators;
    hide Print;
    var ts := ParenIf(b, Print(e)) + tail;
    PrintStart(e);
    assert Peek(ts).TkName? || Peek(ts) == TkLeftParen;
    Stops(e, tail, limit, level + 1);
    assert level < LUAI_MAXCCALLS ==> Operand(ts, level + 1) == PrimaryExp(ts, level + 1);
  }

  lemma {:induction false} ReadPrefixOperand(e: Expr, tail: Tokens, level: nat)
    requires level <= LUAI_MAXCCALLS
    ensures ReadsPrefix(!IsPrefix(e), e, tail, level)
    decreases e, 2
  {
    if IsPrefix(e) {
      ReadPrefix(e, tail, level);
    } else {
      ReadSub(e, [TkRightParen] + tail, 0, level);
      ReadParen(e, tail, level);
    }
  }

  lemma {:induction false} ReadPrefix(e: Expr, tail: Tokens, level: nat)
    requires IsPrefix(e) && level <= LUAI_MAXCCALLS
    ensures ReadsPrefix(false, e, tail, level)
    decreases e, 0
  {
    hide ReadsPrefix;
    hide ReadsArgs;
    hide Reads;
    hide Print;
    hide PrintArgs;
    match e
    case Name(n) =>
      ReadName(n, tail, level);
    case Field(t, k) =>
      ReadPrefixOperand(t, [TkDot, TkName(k)] + tail, level);
      ReadField(t, k, tail, level);
    case Index(t, i) =>
      ReadPrefixOperand(t, [TkLeftBracket] + Print(i) + [TkRightBracket] + tail, level);
      ReadSub(i, [TkRightBracket] + tail, 0, level);
      ReadIndex(t, i, tail, level);
    case Call(f, args) =>
      ReadPrefixOperand(f, [TkLeftParen] + PrintArgs(args) + [TkRightParen] + tail, level);
      ReadArgs(args, [TkRightParen] + tail, level);
      ReadCall(f, args, tail, level);
  }

  lemma ReadName(n: string, tail: Tokens, level: nat)
    requires level <= LUAI_MAXCCALLS
    ensures ReadsPrefix(false, Name(n), tail, level)
  {
    hide Suffixes;
    var ts := Print(Name(n)) + tail;
    assert ts[1..] == tail;
    assert PrefixExp(ts, level) == Parsed(Name(n), tail);
  }

  lemma ReadField(t: Expr, k: string, tail: Tokens, level: nat)
    requires ReadsPrefix(!IsPrefix(t), t, [TkDot, TkName(k)] + tail, level)
    ensures ReadsPrefix(false, Field(t, k), tail, level)
  {
    hide PrimaryExp;
    hide Suffixes;
    var more := [TkDot, TkName(k)] + tail;
    assert Print(Field(t, k)) + tail == ParenIf(!IsPrefix(t), Print(t)) + more;
    SuffixField(t, k, tail, level);
  }

  lemma ReadIndex(t: Expr, i: Expr, tail: Tokens, level: nat)
    requires ReadsPrefix(!IsPrefix(t), t, [TkLeftBracket] + Print(i) + [TkRightBracket] + tail, level)
    requires Reads(false, i, [TkRightBracket] + tail, 0, level)
    ensures ReadsPrefix(false, Index(t, i), tail, level)
  {
    hide PrimaryExp;
    hide Suffixes;
    hide Reads;
    var more := [TkLeftBracket] + Print(i) + [TkRightBracket] + tail;
    assert Print(Index(t, i)) + tail == ParenIf(!IsPrefix(t), Print(t)) + more;
    SuffixIndex(t, i, tail, level);
  }

  lemma ReadCall(f: Expr, args: seq<Expr>, tail: Tokens, level: nat)
    requires ReadsPrefix(!IsPrefix(f), f, [TkLeftParen] + PrintArgs(args) + [TkRightParen] + tail, level)
    requires ReadsArgs(args, [TkRightParen] + tail, level)
    ensures ReadsPrefix(false, Call(f, args), tail, level)
  {
    hide PrimaryExp;
    hide Suffixes;
    hide ReadsArgs;
    var more := [TkLeftParen] + PrintArgs(args) + [TkRightParen] + tail;
    assert Print(Call(f, args)) + tail == ParenIf(!IsPrefix(f), Print(f)) + more;
    SuffixCall(f, args, tail, level);
  }

  lemma SuffixField(t: Expr, k: string, tail: Tokens, level: nat)
    ensures Suffixes(t, [TkDot, TkName(k)] + tail, level) == Suffixes(Field(t, k), tail, level)
  {
    var more := [TkDot, TkName(k)] + tail;
    assert more[1..][0] == TkName(k) && more[2..] == tail;
  }

  lemma SuffixIndex(t: Expr, i: Expr, tail: Tokens, level: nat)
    requires Reads(false, i, [TkRightBracket] + tail, 0, level)
    ensures Suffixes(t, [TkLeftBracket] + Print(i) + [TkRightBracket] + tail, level) ==
            if level + Depth(i) <= LUAI_MAXCCALLS then Suffixes(Index(t, i), tail, level) else Failed(TooManyLevels)
  {
    hide SubExpr;
    hide Print;
    var more := [TkLeftBracket] + Print(i) + [TkRightBracket] + tail;
    assert more[1..] == Print(i) + ([TkRightBracket] + tail);
    Stops(i, [TkRightBracket] + tail, 0, level + 1);
    assert ([TkRightBracket] + tail)[1..] == tail;
  }

  lemma SuffixCall(f: Expr, args: seq<Expr>, tail: Tokens, level: nat)
    requires ReadsArgs(args, [TkRightParen] + tail, level)
    ensures Suffixes(f, [TkLeftParen] + PrintArgs(args) + [TkRightParen] + tail, level) ==
            if level + ArgsDepth(args) <= LUAI_MAXCCALLS then Suffixes(Call(f, args), tail, level) else Failed(TooManyLevels)
  {
    hide Args;
    hide PrintArgs;
    var more := [TkLeftParen] + PrintArgs(args) + [TkRightParen] + tail;
    assert more[1..] == PrintArgs(args) + ([TkRightParen] + tail);
    assert ([TkRightParen] + tail)[1..] == tail;
  }

  lemma {:induction false} ReadArgs(args: seq<Expr>, tail: Tokens, level: nat)
    requires Peek(tail) == TkRightParen && level <= LUAI_MAXCCALLS
    ensures ReadsArgs(args, tail, level)
    decreases args, 1
  {
    if args == [] {
      assert PrintArgs(args) + tail == tail;
    } else {
      ReadExpList(args, tail, level);
      PrintStart(args[0]);
    }
  }

  lemma {:induction false} ReadExpList(args: seq<Expr>, tail: Tokens, level: nat)
    requires args != [] && Peek(tail) == TkRightParen && level <= LUAI_MAXCCALLS
    ensures ExpList(PrintArgs(args) + tail, level) ==
            if level + ArgsDepth(args) <= LUAI_MAXCCALLS then Parsed(args, tail) else Failed(TooManyLevels)
    decreases args, 0
  {
    hide SubExpr;
    hide Print;
    var e := args[0];
    if |args| == 1 {
      ReadSub(e, tail, 0, level);
      Stops(e, tail, 0, level + 1);
      assert args == [e];
    } else {
      var more := [TkComma] + PrintArgs(args[1..]) + tail;
      assert PrintArgs(args) + tail == Print(e) + more;
      ReadSub(e, more, 0, level);
      Stops(e, more, 0, level + 1);
      assert more[1..] == PrintArgs(args[1..]) + tail;
      ReadExpList(args[1..], tail, level);
      assert args == [e] + args[1..];
    }
  }

  lemma {:induction false} ReadOperand(b: bool, e: Expr, tail: Tokens, limit: nat, level: nat)
    requires NoSuffix(tail) && (!b ==> Fits(e, limit, NextLeft(tail)))
    ensures Reads(b, e, tail, limit, level)
    decreases e, 4
  {
    if b {
      if level < LUAI_MAXCCALLS {
        ReadSub(e, [TkRightParen] + tail, 0, level + 1);
        ReadParen(e, tail, level + 1);
      }
      PrefixAsOperand(true, e, tail, limit, level);
    } else {
      ReadSub(e, tail, limit, level);
    }
  }

  /** Reading back an expression that fits where it stands. */
  lemma {:induction false} ReadSub(e: Expr, tail: Tokens, limit: nat, level: nat)
    requires NoSuffix(tail) && Fits(e, limit, NextLeft(tail))
    ensures Reads(false, e, tail, limit, level)
    decreases e, 1
  {
    hide Reads;
    hide ReadsPrefix;
    hide Print;
    match e
    case Literal(v) =>
      ReadLiteral(v, tail, limit, level);
    case Unary(op, x) =>
      ReadOperand(UnaryNeeds(x), x, tail, UNARY_PRIORITY, level + 1);
      SubUnary(UnaryNeeds(x), op, x, tail, limit, level);
    case Binary(op, l, r) =>
      var more := [TkBinary(op)] + ParenIf(RightNeeds(op, r), Print(r)) + tail;
      assert NextLeft(more) == Left(op);
      OperandsFit(op, l, r, limit, tail);
      ReadOperand(LeftNeeds(op, l), l, more, limit, level);
      ReadOperand(RightNeeds(op, r), r, tail, Right(op), level + 1);
      SubBinary(op, l, r, tail, limit, level);
    case _ =>
      if level < LUAI_MAXCCALLS {
        ReadPrefix(e, tail, level + 1);
      }
      PrefixAsOperand(false, e, tail, limit, level);
  }

  lemma ReadLiteral(v: int, tail: Tokens, limit: nat, level: nat)
    ensures Reads(false, Literal(v), tail, limit, level)
  {
    hide Operators;
    var ts := Print(Literal(v)) + tail;
    assert ts[1..] == tail;
    assert Operand(ts, level + 1) == Parsed(Literal(v), tail);
  }

  /** Where an operation fits, so do its operands, when they carry the parentheses they need. */
  lemma OperandsFit(op: BinOp, l: Expr, r: Expr, limit: nat, tail: Tokens)
    requires Left(op) > limit && NextLeft(tail) <= Right(op)
    ensures !LeftNeeds(op, l) ==> Fits(l, limit, Left(op))
    ensures !RightNeeds(op, r) ==> Fits(r, Right(op), NextLeft(tail))
  {
  }

  lemma SubBinary(op: BinOp, l: Expr, r: Expr, tail: Tokens, limit: nat, level: nat)
    requires Left(op) > limit && NextLeft(tail) <= Right(op)
    requires Reads(LeftNeeds(op, l), l, [TkBinary(op)] + ParenIf(RightNeeds(op, r), Print(r)) + tail, limit, level)
    requires Reads(RightNeeds(op, r), r, tail, Right(op), level + 1)
    ensures Reads(false, Binary(op, l, r), tail, limit, level)
  {
    hide SubExpr;
    hide Operators;
    hide Print;
    hide Depth;
    OperatorStep(op, l, r, tail, limit, level + 1);
    BinaryIs(op, l, r, tail);
  }

  lemma BinaryIs(op: BinOp, l: Expr, r: Expr, tail: Tokens)
    ensures ParenIf(false, Print(Binary(op, l, r))) + tail ==
            ParenIf(LeftNeeds(op, l), Print(l)) + ([TkBinary(op)] + ParenIf(RightNeeds(op, r), Print(r)) + tail)
    ensures Depth(Binary(op, l, r)) ==
            Max(DepthIf(LeftNeeds(op, l), Depth(l)), 1 + DepthIf(RightNeeds(op, r), Depth(r)))
  {
    hide LeftNeeds;
    hide RightNeeds;
    hide Paren;
  }

  lemma SubUnary(b: bool, op: UnOp, x: Expr, tail: Tokens, limit: nat, level: nat)
    requires b == UnaryNeeds(x) && NextLeft(tail) <= UNARY_PRIORITY
    requires Reads(b, x, tail, UNARY_PRIORITY, level + 1)
    ensures Reads(false, Unary(op, x), tail, limit, level)
  {
    hide Operators;
    var inner := ParenIf(b, Print(x)) + tail;
    var ts := Print(Unary(op, x)) + tail;
    assert ts[1..] == inner && UnOf(ts[0]) == op;
    Stops(x, tail, UNARY_PRIORITY, level + 2);
    var d := DepthIf(b, Depth(x));
    assert IsUnary(Peek(ts));
    assert level < LUAI_MAXCCALLS ==>
        Operand(ts, level + 1) ==
        if level + 1 + d <= LUAI_MAXCCALLS then Parsed(Unary(op, x), tail) else Failed(TooManyLevels);
    assert Depth(Unary(op, x)) == 1 + d;
  }

  lemma OperatorStep(op: BinOp, l: Expr, r: Expr, tail: Tokens, limit: nat, level: nat)
    requires Left(op) > limit && NextLeft(tail) <= Right(op)
    requires Reads(RightNeeds(op, r), r, tail, Right(op), level)
    ensures Operators(l, [TkBinary(op)] + ParenIf(RightNeeds(op, r), Print(r)) + tail, limit, level) ==
            if level + DepthIf(RightNeeds(op, r), Depth(r)) <= LUAI_MAXCCALLS
            then Operators(Binary(op, l, r), tail, limit, level) else Failed(TooManyLevels)
  {
    hide SubExpr;
    hide Print;
    var b := RightNeeds(op, r);
    var more := [TkBinary(op)] + ParenIf(b, Print(r)) + tail;
    assert more[1..] == ParenIf(b, Print(r)) + tail;
    Stops(r, tail, Right(op), level + 1);
  }

  /**
   * Reading undoes printing. Where the expression fits, and nothing after it continues it, subexpr reads the
   * same tree and stops there, unless the tree needs more syntax levels than there are.
   */
  lemma ReadBack(e: Expr, tail: Tokens, limit: nat, level: nat)
    requires Fits(e, limit, NextLeft(tail)) && NoSuffix(tail) && NextLeft(tail) <= limit
    ensures SubExpr(Print(e) + tail, limit, level) ==
            if level + Depth(e) <= LUAI_MAXCCALLS then Parsed(e, tail) else Failed(TooManyLevels)
  {
    ReadSub(e, tail, limit, level);
    Stops(e, tail, limit, level + 1);
  }

  /** expr reads back every expression. */
  lemma ExprBack(e: Expr, tail: Tokens, level: nat)
    requires NextLeft(tail) == 0 && NoSuffix(tail)
    ensures SubExpr(Print(e) + tail, 0, level) ==
            if level + Depth(e) <= LUAI_MAXCCALLS then Parsed(e, tail) else Failed(TooManyLevels)
  {
    ReadBack(e, tail, 0, level);
  }

  /** What subexpr leaves never begins with an operator that binds more tightly than the limit. */
  lemma {:induction false} OperatorsStop(e: Expr, ts: Tokens, limit: nat, level: nat)
    ensures var p := Operators(e, ts, limit, level); p.Parsed? ==> NextLeft(p.rest) <= limit
    decreases |ts|
  {
    if Peek(ts).TkBinary? && Left(ts[0].op) > limit {
      var x := SubExpr(ts[1..], Right(ts[0].op), level);
      if x.Parsed? {
        OperatorsStop(Binary(ts[0].op, e, x.v), x.rest, limit, level);
      }
    }
  }

  lemma SubExprStops(ts: Tokens, limit: nat, level: nat)
    ensures var p := SubExpr(ts, limit, level); p.Parsed? ==> NextLeft(p.rest) <= limit
  {
    if level + 1 <= LUAI_MAXCCALLS {
      var first := Operand(ts, level + 1);
      if first.Parsed? {
        OperatorsStop(first.v, first.rest, limit, level + 1);
      }
    }
  }

  // ---- no shorter text reads as the same expression ----

  /** The length of an operand, with the parentheses it needs right of `limit` and left of `next`. */
  function Width(e: Expr, limit: nat, next: nat): nat {
    |Print(e)| + if Fits(e, limit, next) then 0 else 2
  }

  function PrefixWidth(e: Expr): nat {
    |Print(e)| + if IsPrefix(e) then 0 else 2
  }

  /** However a text is written, it is no shorter than the printed form of what it is read as. */
  lemma {:induction false} Shortest(ts: Tokens, limit: nat, level: nat)
    ensures var p := SubExpr(ts, limit, level);
            p.Parsed? ==> |ts| - |p.rest| >= Width(p.v, limit, NextLeft(p.rest))
    decreases |ts|, 3
  {
    if level + 1 <= LUAI_MAXCCALLS {
      var first := Operand(ts, level + 1);
      if first.Parsed? {
        ShortestOperand(ts, limit, level + 1);
        ShortestOperators(first.v, first.rest, limit, level + 1, |ts| - |first.rest|);
      }
    }
  }

  lemma {:induction false} ShortestOperand(ts: Tokens, limit: nat, level: nat)
    ensures var p := Operand(ts, level);
            p.Parsed? ==> |ts| - |p.rest| >= Width(p.v, limit, NextLeft(p.rest))
    decreases |ts|, 2
  {
    if IsUnary(Peek(ts)) {
      Shortest(ts[1..], UNARY_PRIORITY, level);
      SubExprStops(ts[1..], UNARY_PRIORITY, level);
    } else if !Peek(ts).TkLiteral? {
      ShortestPrefix(ts, level);
      var e := PrefixExp(ts, level);
      if e.Parsed? {
        ShortestSuffixes(e.v, e.rest, level, |ts| - |e.rest|);
      }
    }
  }

  lemma {:induction false} ShortestOperators(e: Expr, ts: Tokens, limit: nat, level: nat, n: nat)
    requires n >= Width(e, limit, NextLeft(ts))
    ensures var p := Operators(e, ts, limit, level);
            p.Parsed? ==> n + |ts| - |p.rest| >= Width(p.v, limit, NextLeft(p.rest))
    decreases |ts|, 1
  {
    if Peek(ts).TkBinary? && Left(ts[0].op) > limit {
      var op := ts[0].op;
      Shortest(ts[1..], Right(op), level);
      SubExprStops(ts[1..], Right(op), level);
      var x := SubExpr(ts[1..], Right(op), level);
      if x.Parsed? {
        ShortestOperators(Binary(op, e, x.v), x.rest, limit, level, n + |ts| - |x.rest|);
      }
    }
  }

  lemma {:induction false} ShortestPrefix(ts: Tokens, level: nat)
    ensures var p := PrefixExp(ts, level); p.Parsed? ==> |ts| - |p.rest| >= PrefixWidth(p.v)
    decreases |ts|, 0
  {
    if Peek(ts) == TkLeftParen {
      Shortest(ts[1..], 0, level);
    }
  }

  lemma {:induction false} ShortestSuffixes(e: Expr, ts: Tokens, level: nat, n: nat)
    requires n >= PrefixWidth(e)
    ensures var p := Suffixes(e, ts, level); p.Parsed? ==> n + |ts| - |p.rest| >= PrefixWidth(p.v)
    decreases |ts|, 0
  {
    if Peek(ts) == TkDot {
      if Peek(ts[1..]).TkName? {
        ShortestSuffixes(Field(e, ts[1].name), ts[2..], level, n + 2);
      }
    } else if Peek(ts) == TkLeftBracket {
      var x := SubExpr(ts[1..], 0, level);
      Shortest(ts[1..], 0, level);
      if x.Parsed? && Peek(x.rest) == TkRightBracket {
        ShortestSuffixes(Index(e, x.v), x.rest[1..], level, n + |ts| - |x.rest| + 1);
      }
    } else if Peek(ts) == TkLeftParen {
      var x := Args(ts[1..], level);
      ShortestArgs(ts[1..], level);
      if x.Parsed? && Peek(x.rest) == TkRightParen {
        ShortestSuffixes(Call(e, x.v), x.rest[1..], level, n + |ts| - |x.rest| + 1);
      }
    }
  }

  lemma {:induction false} ShortestArgs(ts: Tokens, level: nat)
    ensures var p := Args(ts, level); p.Parsed? ==> |ts| - |p.rest| >= |PrintArgs(p.v)|
    decreases |ts|, 5
  {
    if Peek(ts) != TkRightParen {
      ShortestExpList(ts, level);
    }
  }

  lemma {:induction false} ShortestExpList(ts: Tokens, level: nat)
    ensures var p := ExpList(ts, level); p.Parsed? ==> p.v != [] && |ts| - |p.rest| >= |PrintArgs(p.v)|
    decreases |ts|, 4
  {
    Shortest(ts, 0, level);
    var e := SubExpr(ts, 0, level);
    if e.Parsed? && Peek(e.rest) == TkComma {
      ShortestExpList(e.rest[1..], level);
      var more := ExpList(e.rest[1..], level);
      if more.Parsed? {
        assert ([e.v] + more.v)[1..] == more.v;
      }
    }
  }

  /** The parentheses that priorities require: a printed expression is read back exactly where it fits. */
  lemma ReadBackExactly(e: Expr, tail: Tokens, limit: nat, level: nat)
    requires NoSuffix(tail)
    ensures SubExpr(Print(e) + tail, limit, level) == Parsed(e, tail) <==>
            Fits(e, limit, NextLeft(tail)) && NextLeft(tail) <= limit && level + Depth(e) <= LUAI_MAXCCALLS
  {
    hide SubExpr;
    hide Print;
    hide Depth;
    Shortest(Print(e) + tail, limit, level);
    SubExprStops(Print(e) + tail, limit, level);
    if Fits(e, limit, NextLeft(tail)) && NextLeft(tail) <= limit {
      ReadBack(e, tail, limit, level);
    }
  }
}
