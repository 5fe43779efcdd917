/** Prefix expressions token by token, and what expressions cannot look like. */
module Primaries {
  import opened Limits
  import opened Expressions
  import opened OperatorGroups

  /** A name behind a dot, an index in brackets and arguments in parentheses belong to the prefix expression in front. */
  lemma Suffixed(p: Expr, k: string, i: Expr, args: seq<Expr>, tail: Tokens, level: nat)
    requires IsPrefix(p) && Follows(tail)
    requires level + Depth(p) <= LUAI_MAXCCALLS && level + 1 + Depth(i) <= LUAI_MAXCCALLS && level + 1 + ArgsDepth(args) <= LUAI_MAXCCALLS
    ensures SubExpr(Print(p) + [TkDot, TkName(k)] + tail, 0, level) == Parsed(Field(p, k), tail)
    ensures SubExpr(Print(p) + [TkLeftBracket] + Print(i) + [TkRightBracket] + tail, 0, level) == Parsed(Index(p, i), tail)
    ensures SubExpr(Print(p) + [TkLeftParen] + PrintArgs(args) + [TkRightParen] + tail, 0, level) == Parsed(Call(p, args), tail)
  {
    DepthSuffixed(p, k, i, args);
    PrintSuffixed(p, k, i, args);
    FollowsIs(tail);
    hide *;
    ExprBack(Field(p, k), tail, level);
    ExprBack(Index(p, i), tail, level);
    ExprBack(Call(p, args), tail, level);
    Joined(Print(p), [TkLeftBracket], Print(i), [TkRightBracket]);
    Joined(Print(p), [TkLeftParen], PrintArgs(args), [TkRightParen]);
  }

  lemma FollowsIs(tail: Tokens)
    requires Follows(tail)
    ensures NextLeft(tail) == 0 && NoSuffix(tail)
  {
  }

  lemma Joined(p: Tokens, q: Tokens, r: Tokens, t: Tokens)
    ensures p + (q + r + t) == p + q + r + t
  {
  }

  lemma DepthSuffixed(p: Expr, k: string, i: Expr, args: seq<Expr>)
    requires IsPrefix(p)
    ensures Depth(Field(p, k)) == Depth(p)
    ensures Depth(Index(p, i)) == Max(Depth(p), 1 + Depth(i)) && Depth(Call(p, args)) == Max(Depth(p), 1 + ArgsDepth(args))
    ensures forall a: nat, b: nat :: Max(a, b) == a || Max(a, b) == b
  {
  }

  lemma PrintSuffixed(p: Expr, k: string, i: Expr, args: seq<Expr>)
    requires IsPrefix(p)
    ensures Print(Field(p, k)) == Print(p) + [TkDot, TkName(k)]
    ensures Print(Index(p, i)) == Print(p) + ([TkLeftBracket] + Print(i) + [TkRightBracket])
    ensures Print(Call(p, args)) == Print(p) + ([TkLeftParen] + PrintArgs(args) + [TkRightParen])
  {
  }

  /** Arguments are separated by commas. */
  lemma ArgumentTokens(a: Expr, b: Expr, c: Expr)
    ensures PrintArgs([]) == [] && PrintArgs([a]) == Print(a)
    ensures PrintArgs([a, b, c]) == Print(a) + [TkComma] + Print(b) + [TkComma] + Print(c)
  {
    hide Print;
    assert [a, b, c][1..] == [b, c] && [b, c][1..] == [c];
    assert PrintArgs([b, c]) == Print(b) + ([TkComma] + Print(c));
  }

  /** Parentheses around an expression do not change it, and what follows them is applied to it. */
  lemma Enclosed(e: Expr, tail: Tokens, level: nat)
    requires Follows(tail) && level + 1 + Depth(e) <= LUAI_MAXCCALLS
    ensures SubExpr([TkLeftParen] + Print(e) + [TkRightParen] + tail, 0, level) == Parsed(e, tail)
  {
    ReadOperand(true, e, tail, 0, level);
    Stops(e, tail, 0, level + 1);
    hide SubExpr;
    hide Print;
    assert Paren(Print(e)) == [TkLeftParen] + Print(e) + [TkRightParen];
  }

  lemma EnclosedPrefix(e: Expr, k: string, i: Expr, tail: Tokens, level: nat)
    requires !IsPrefix(e) && Follows(tail) && level + 1 + Depth(e) <= LUAI_MAXCCALLS && level + 1 + Depth(i) <= LUAI_MAXCCALLS
    ensures SubExpr([TkLeftParen] + Print(e) + [TkRightParen, TkDot, TkName(k)] + tail, 0, level) == Parsed(Field(e, k), tail)
    ensures SubExpr([TkLeftParen] + Print(e) + [TkRightParen, TkLeftBracket] + Print(i) + [TkRightBracket] + tail, 0, level)
              == Parsed(Index(e, i), tail)
  {
    DepthEnclosed(e, k, i);
    PrintEnclosed(e, k, i);
    FollowsIs(tail);
    hide *;
    ExprBack(Field(e, k), tail, level);
    ExprBack(Index(e, i), tail, level);
    NameBehind(Print(e), k);
    IndexBehind(Print(e), Print(i));
  }

  lemma NameBehind(p: Tokens, k: string)
    ensures [TkLeftParen] + p + [TkRightParen] + [TkDot, TkName(k)] == [TkLeftParen] + p + [TkRightParen, TkDot, TkName(k)]
  {
  }

  lemma IndexBehind(p: Tokens, q: Tokens)
    ensures [TkLeftParen] + p + [TkRightParen] + ([TkLeftBracket] + q + [TkRightBracket])
         == [TkLeftParen] + p + [TkRightParen, TkLeftBracket] + q + [TkRightBracket]
  {
  }

  lemma DepthEnclosed(e: Expr, k: string, i: Expr)
    requires !IsPrefix(e)
    ensures Depth(Field(e, k)) == Depth(e) + 1 && Depth(Index(e, i)) == Max(Depth(e) + 1, 1 + Depth(i))
    ensures forall a: nat, b: nat :: Max(a, b) == a || Max(a, b) == b
  {
  }

  lemma PrintEnclosed(e: Expr, k: string, i: Expr)
    requires !IsPrefix(e)
    ensures Print(Field(e, k)) == [TkLeftParen] + Print(e) + [TkRightParen] + [TkDot, TkName(k)]
    ensures Print(Index(e, i)) == [TkLeftParen] + Print(e) + [TkRightParen] + ([TkLeftBracket] + Print(i) + [TkRightBracket])
  {
  }

  // ---- errors ----

  /** An expression begins with a unary operator, a literal, a name or a parenthesis. */
  lemma NoExpression(ts: Tokens, limit: nat, level: nat)
    requires level + 1 <= LUAI_MAXCCALLS
    requires match Peek(ts)
      case TkNot => false
      case TkHash => false
      case TkLiteral(_) => false
      case TkName(_) => false
      case TkLeftParen => false
      case TkBinary(op) => op != Sub
      case _ => true
    ensures SubExpr(ts, limit, level) == Failed(UnexpectedSymbol)
  {
    assert PrefixExp(ts, level + 1) == Failed(UnexpectedSymbol);
    assert PrimaryExp(ts, level + 1) == Failed(UnexpectedSymbol);
    assert Operand(ts, level + 1) == Failed(UnexpectedSymbol);
  }

  lemma PrimaryFails(ts: Tokens, level: nat, err: Error)
    requires (Peek(ts).TkName? || Peek(ts) == TkLeftParen) && level + 1 <= LUAI_MAXCCALLS && PrimaryExp(ts, level + 1) == Failed(err)
    ensures SubExpr(ts, 0, level) == Failed(err)
  {
    hide PrimaryExp;
    assert Operand(ts, level + 1) == Failed(err);
  }

  lemma Behind(x: Token, p: Tokens, q: Tokens)
    ensures ([x] + p + q)[1..] == p + q && Peek([x] + p + q) == x
  {
  }

  lemma BehindTwo(x: Token, y: Token, p: Tokens, q: Tokens)
    ensures ([x, y] + p + q)[1..] == [y] + p + q && Peek([x, y] + p + q) == x
  {
  }

  /** An expression in parentheses that are not closed. */
  lemma ParenFails(ts: Tokens, e: Expr, rest: Tokens, level: nat)
    requires Peek(ts) == TkLeftParen && SubExpr(ts[1..], 0, level) == Parsed(e, rest) && Peek(rest) != TkRightParen
    ensures PrimaryExp(ts, level) == Failed(Expected(TkRightParen))
  {
    hide SubExpr;
  }

  lemma IndexFails(ts: Tokens, n: string, i: Expr, rest: Tokens, level: nat)
    requires Peek(ts) == TkName(n) && Peek(ts[1..]) == TkLeftBracket
    requires SubExpr(ts[1..][1..], 0, level) == Parsed(i, rest) && Peek(rest) != TkRightBracket
    ensures PrimaryExp(ts, level) == Failed(Expected(TkRightBracket))
  {
    hide SubExpr;
  }

  /** What is opened has to be closed. */
  lemma Unclosed(e: Expr, tail: Tokens, level: nat)
    requires Follows(tail) && Peek(tail) != TkRightParen && level + 1 + Depth(e) <= LUAI_MAXCCALLS
    ensures SubExpr([TkLeftParen] + Print(e) + tail, 0, level) == Failed(Expected(TkRightParen))
  {
    var ts := [TkLeftParen] + Print(e) + tail;
    FollowsIs(tail);
    Behind(TkLeftParen, Print(e), tail);
    hide *;
    ExprBack(e, tail, level + 1);
    ParenFails(ts, e, tail, level + 1);
    PrimaryFails(ts, level, Expected(TkRightParen));
  }

  lemma UnclosedIndex(n: string, i: Expr, tail: Tokens, level: nat)
    requires Follows(tail) && Peek(tail) != TkRightBracket && level + 1 + Depth(i) <= LUAI_MAXCCALLS
    ensures SubExpr([TkName(n), TkLeftBracket] + Print(i) + tail, 0, level) == Failed(Expected(TkRightBracket))
  {
    var ts := [TkName(n), TkLeftBracket] + Print(i) + tail;
    FollowsIs(tail);
    BehindTwo(TkName(n), TkLeftBracket, Print(i), tail);
    Behind(TkLeftBracket, Print(i), tail);
    hide *;
    ExprBack(i, tail, level + 1);
    IndexFails(ts, n, i, tail, level + 1);
    PrimaryFails(ts, level, Expected(TkRightBracket));
  }

  /** A dot asks for a name. */
  lemma NoName(n: string, tail: Tokens, level: nat)
    requires !Peek(tail).TkName? && level + 1 <= LUAI_MAXCCALLS
    ensures SubExpr([TkName(n), TkDot] + tail, 0, level) == Failed(Expected(TkName("")))
  {
    var ts := [TkName(n), TkDot] + tail;
    assert ts[1..] == [TkDot] + tail && ts[1..][1..] == tail;
    assert Suffixes(Name(n), ts[1..], level + 1) == Failed(Expected(TkName("")));
    PrimaryFails(ts, level, Expected(TkName("")));
  }
}
