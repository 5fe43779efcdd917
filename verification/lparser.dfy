/** The expression parser of lparser.c, which consumes the tokens of a LexState. */
module ExpressionParser {
  import opened Limits
  import opened Expressions
  import opened OperatorGroups
  import opened Wrappers

  function GetUnOpr(t: Token): Option<UnOp> {
    match t
    case TkNot => Some(Not)
    case TkBinary(Sub) => Some(Minus)
    case TkHash => Some(Len)
    case _ => None
  }

  function GetBinOpr(t: Token): Option<BinOp> {
    match t
    case TkBinary(op) => Some(op)
    case _ => None
  }

  class LexState {
    /** The current token. */
    var t: Token
    /** The tokens still to be parsed, the current one included. */
    var input: Tokens
    /** Number of nested calls, syntax levels among them. */
    var nCcalls: nat

    ghost predicate Valid()
      reads this
    {
      t == Peek(input)
    }

    /** What the parse says of the tokens `ts`, met at level `calls`, is what happened. */
    ghost predicate Did<T>(r: Result<T, Error>, p: Parse<T>, calls: nat)
      reads this
    {
      match p
      case Parsed(v, rest) => Valid() && r == Ok(v) && input == rest && nCcalls == calls
      case Failed(e) => r == Err(e)
    }

    constructor (tokens: Tokens, calls: nat)
      ensures Valid() && input == tokens && nCcalls == calls
    {
      t, input, nCcalls := Peek(tokens), tokens, calls;
    }

    /** luaX_next. */
    method Next()
      requires input != []
      modifies this`t, this`input
      ensures Valid() && input == old(input)[1..]
    {
      input := input[1..];
      t := Peek(input);
    }

    /** Reads a subexpression, and returns the first operator it leaves. */
    method SubExpr(limit: nat) returns (r: Result<Expr, Error>, op: Option<BinOp>)
      requires Valid()
      modifies this
      ensures Did(r, Expressions.SubExpr(old(input), limit, old(nCcalls)), old(nCcalls))
      ensures r.Ok? ==> op == GetBinOpr(t)
      ensures match op case Some(o) => r.Ok? ==> Left(o) <= limit case None => true
      decreases |input|, 3
    {
      hide Operand;
      hide Operators;
      ghost var ts, calls := input, nCcalls;
      op := None;
      nCcalls := nCcalls + 1;
      if nCcalls > LUAI_MAXCCALLS {
        return Err(TooManyLevels), None;
      }
      r := ReadOperand();
      if r.Err? {
        return;
      }
      var v := r.v;
      op := GetBinOpr(t);
      while op.Some? && Left(op.v) > limit
        invariant Valid() && nCcalls == calls + 1 && op == GetBinOpr(t) && |input| < |ts|
        invariant Expressions.SubExpr(ts, limit, calls) == Operators(v, input, limit, calls + 1)
        decreases |input|
      {
        OperatorsIs(v, input, limit, calls + 1);
        Next();
        var v2, nextop := SubExpr(Right(op.v));
        if v2.Err? {
          return v2, None;
        }
        v := Binary(op.v, v, v2.v);
        op := nextop;
      }
      OperatorsIs(v, input, limit, calls + 1);
      nCcalls := nCcalls - 1;
      r := Ok(v);
    }

    /** expr. */
    method ReadExpr() returns (r: Result<Expr, Error>)
      requires Valid()
      modifies this
      ensures Did(r, Expressions.SubExpr(old(input), 0, old(nCcalls)), old(nCcalls))
      decreases |input|, 4
    {
      var v, _ := SubExpr(0);
      r := v;
    }

    /** What subexpr reads before its loop: an operator with its operand, or simpleexp. */
    method ReadOperand() returns (r: Result<Expr, Error>)
      requires Valid()
      modifies this
      ensures Did(r, Operand(old(input), old(nCcalls)), old(nCcalls))
      decreases |input|, 2
    {
      hide PrimaryExp;
      hide Expressions.SubExpr;
      var uop := GetUnOpr(t);
      if uop.Some? {
        Next();
        var v, _ := SubExpr(UNARY_PRIORITY);
        if v.Err? {
          return v;
        }
        r := Ok(Unary(uop.v, v.v));
      } else if t.TkLiteral? {
        r := Ok(Literal(t.v));
        Next();
      } else {
        r := ReadPrimary();
      }
    }

    method ReadPrimary() returns (r: Result<Expr, Error>)
      requires Valid()
      modifies this
      ensures Did(r, PrimaryExp(old(input), old(nCcalls)), old(nCcalls))
      decreases |input|, 1
    {
      hide PrefixExp;
      hide Suffixes;
      ghost var ts, calls := input, nCcalls;
      r := ReadPrefix();
      if r.Err? {
        return;
      }
      var v := r.v;
      while true
        invariant Valid() && nCcalls == calls && |input| < |ts|
        invariant PrimaryExp(ts, calls) == Suffixes(v, input, calls)
        decreases |input|
      {
        SuffixesIs(v, input, calls);
        if t == TkDot {
          Next();
          if !t.TkName? {
            return Err(Expected(TkName("")));
          }
          v := Field(v, t.name);
          Next();
        } else if t == TkLeftBracket {
          Next();
          var key := ReadExpr();
          if key.Err? {
            return key;
          }
          if t != TkRightBracket {
            return Err(Expected(TkRightBracket));
          }
          v := Index(v, key.v);
          Next();
        } else if t == TkLeftParen {
          Next();
          var args := FuncArgs();
          if args.Err? {
            return Err(args.e);
          }
          if t != TkRightParen {
            return Err(Expected(TkRightParen));
          }
          v := Call(v, args.v);
          Next();
        } else {
          return Ok(v);
        }
      }
    }

    method ReadPrefix() returns (r: Result<Expr, Error>)
      requires Valid()
      modifies this
      ensures Did(r, PrefixExp(old(input), old(nCcalls)), old(nCcalls))
      decreases |input|, 0
    {
      hide Expressions.SubExpr;
      if t == TkLeftParen {
        Next();
        var v := ReadExpr();
        if v.Err? {
          return v;
        }
        if t != TkRightParen {
          return Err(Expected(TkRightParen));
        }
        Next();
        r := v;
      } else if t.TkName? {
        r := Ok(Name(t.name));
        Next();
      } else {
        r := Err(UnexpectedSymbol);
      }
    }

    /** The arguments of a call, after the opening parenthesis. */
    method FuncArgs() returns (r: Result<seq<Expr>, Error>)
      requires Valid()
      modifies this
      ensures Did(r, Args(old(input), old(nCcalls)), old(nCcalls))
      decreases |input|, 6
    {
      hide ExpList;
      if t == TkRightParen {
        r := Ok([]);
      } else {
        r := ExpList1();
      }
    }

    method ExpList1() returns (r: Result<seq<Expr>, Error>)
      requires Valid()
      modifies this
      ensures Did(r, ExpList(old(input), old(nCcalls)), old(nCcalls))
      decreases |input|, 5
    {
      hide Expressions.SubExpr;
      hide ExpList;
      ghost var ts, calls := input, nCcalls;
      ExpListIs(input, calls);
      var v := ReadExpr();
      if v.Err? {
        return Err(v.e);
      }
      var es := [v.v];
      while t == TkComma
        invariant Valid() && nCcalls == calls && |input| < |ts| && es != []
        invariant ExpList(ts, calls) == Listed(es, input, calls)
        decreases |input|
      {
        Next();
        ghost var at := input;
        ExpListIs(at, calls);
        v := ReadExpr();
        if v.Err? {
          return Err(v.e);
        }
        ListedMore(es, v.v, at, input, calls);
        es := es + [v.v];
      }
      r := Ok(es);
    }
  }

  lemma OperatorsIs(e: Expr, ts: Tokens, limit: nat, level: nat)
    ensures Operators(e, ts, limit, level) ==
            if Peek(ts).TkBinary? && Left(ts[0].op) > limit then
              var x := Expressions.SubExpr(ts[1..], Right(ts[0].op), level);
              if x.Failed? then x else Operators(Binary(ts[0].op, e, x.v), x.rest, limit, level)
            else Parsed(e, ts)
  {
  }

  lemma SuffixesIs(e: Expr, ts: Tokens, level: nat)
    ensures Peek(ts) == TkDot ==>
              Suffixes(e, ts, level) ==
              if Peek(ts[1..]).TkName? then Suffixes(Field(e, ts[1].name), ts[1..][1..], level)
              else Failed(Expected(TkName("")))
    ensures Peek(ts) == TkLeftBracket ==>
              Suffixes(e, ts, level) ==
              var x := Expressions.SubExpr(ts[1..], 0, level);
              if x.Failed? then Failed(x.err)
              else if Peek(x.rest) != TkRightBracket then Failed(Expected(TkRightBracket))
              else Suffixes(Index(e, x.v), x.rest[1..], level)
    ensures Peek(ts) == TkLeftParen ==>
              Suffixes(e, ts, level) ==
              var x := Args(ts[1..], level);
              if x.Failed? then Failed(x.err)
              else if Peek(x.rest) != TkRightParen then Failed(Expected(TkRightParen))
              else Suffixes(Call(e, x.v), x.rest[1..], level)
    ensures NoSuffix(ts) ==> Suffixes(e, ts, level) == Parsed(e, ts)
  {
    if |ts| >= 2 {
      assert ts[1..][1..] == ts[2..];
    }
  }

  /** A list of which the first expressions have been read. */
  function Listed(es: seq<Expr>, ts: Tokens, level: nat): Parse<seq<Expr>> {
    if Peek(ts) != TkComma then Parsed(es, ts)
    else
      var more := ExpList(ts[1..], level);
      if more.Failed? then Failed(more.err) else Parsed(es + more.v, more.rest)
  }

  lemma ExpListIs(ts: Tokens, level: nat)
    ensures ExpList(ts, level) ==
            var e := Expressions.SubExpr(ts, 0, level);
            if e.Failed? then Failed(e.err) else Listed([e.v], e.rest, level)
  {
  }

  lemma ListedMore(es: seq<Expr>, e: Expr, at: Tokens, ts: Tokens, level: nat)
    requires ExpList(at, level) == Listed([e], ts, level)
    ensures ExpList(at, level).Parsed? ==>
              Parsed(es + ExpList(at, level).v, ExpList(at, level).rest) == Listed(es + [e], ts, level)
    ensures ExpList(at, level).Failed? ==> Listed(es + [e], ts, level) == Failed(ExpList(at, level).err)
  {
    hide ExpList;
    if Peek(ts) == TkComma {
      var more := ExpList(ts[1..], level);
      if more.Parsed? {
        assert es + ([e] + more.v) == es + [e] + more.v;
      }
    }
  }

  /** Parsing a printed expression, whatever ends it. */
  method PrintAndParse(e: Expr, tail: Tokens, calls: nat) returns (r: Result<Expr, Error>, left: Tokens)
    requires NextLeft(tail) == 0 && NoSuffix(tail)
    ensures calls + Depth(e) <= LUAI_MAXCCALLS ==> r == Ok(e) && left == tail
    ensures calls + Depth(e) > LUAI_MAXCCALLS ==> r == Err(TooManyLevels)
  {
    hide Expressions.SubExpr;
    hide Print;
    ExprBack(e, tail, calls);
    var ls := new LexState(Print(e) + tail, calls);
    r := ls.ReadExpr();
    left := ls.input;
  }

  /** Parsing a chain of operators and operands without parentheses gives the tree that the manual says. */
  method ParseChain(fs: seq<Factor>, ops: seq<BinOp>, tail: Tokens, calls: nat) returns (r: Result<Expr, Error>, left: Tokens)
    requires IsChain(fs, ops) && Follows(tail)
    ensures calls + Depth(Group(fs, ops)) <= LUAI_MAXCCALLS ==> r == Ok(Group(fs, ops)) && left == tail
    ensures calls + Depth(Group(fs, ops)) > LUAI_MAXCCALLS ==> r == Err(TooManyLevels)
  {
    hide Expressions.SubExpr;
    hide ChainTokens;
    hide Group;
    hide IsFactor;
    Grouped(fs, ops, tail, calls);
    var ls := new LexState(ChainTokens(fs, ops) + tail, calls);
    r := ls.ReadExpr();
    left := ls.input;
  }
}
