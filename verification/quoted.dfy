/** The format `%q` of lstrlib.c, and the lexer that reads such strings back. */
module QuotedStrings {
  import opened Limits
  import opened Wrappers

  const UCHAR_MAX := 255

  const QUOTE: Byte := '\"' as int
  const BACKSLASH: Byte := '\\' as int
  const NEWLINE: Byte := '\n' as int
  const RETURN: Byte := '\r' as int

  function Digit(n: nat): Byte
    requires n < 10
  {
    '0' as int + n
  }

  // ---- writing ----

  function EscapedByte(c: Byte): Bytes {
    if c == QUOTE || c == BACKSLASH || c == NEWLINE then [BACKSLASH, c]
    else if c == RETURN then [BACKSLASH, 'r' as int]
    else if c == 0 then [BACKSLASH, Digit(0), Digit(0), Digit(0)]
    else [c]
  }

  function Escaped(s: Bytes): Bytes {
    if s == [] then [] else EscapedByte(s[0]) + Escaped(s[1..])
  }

  lemma EmptyEscaped()
    ensures Escaped([]) == []
  {
  }

  lemma {:induction false} EscapedJoins(s: Bytes, t: Bytes)
    ensures Escaped(s + t) == Escaped(s) + Escaped(t)
  {
    if s == [] {
      assert s + t == t;
    } else {
      assert (s + t)[1..] == s[1..] + t;
      EscapedJoins(s[1..], t);
    }
  }

  lemma EscapedGrows(s: Bytes, i: nat)
    requires i < |s|
    ensures Escaped(s[..i + 1]) == Escaped(s[..i]) + EscapedByte(s[i])
  {
    assert s[..i + 1] == s[..i] + [s[i]];
    EscapedJoins(s[..i], [s[i]]);
    assert [s[i]][1..] == [];
  }

  /** addquoted: appends the string, in quotes, to the buffer. */
  method AddQuoted(b: Bytes, s: Bytes) returns (out: Bytes)
    ensures out == b + [QUOTE] + Escaped(s) + [QUOTE]
  {
    hide Escaped;
    out := b + [QUOTE];
    var i := 0;
    assert s[..0] == [] && Escaped([]) == [] by { EmptyEscaped(); }
    while i < |s|
      invariant 0 <= i <= |s| && out == b + [QUOTE] + Escaped(s[..i])
    {
      var c := s[i];
      ghost var was := out;
      if c == QUOTE || c == BACKSLASH || c == NEWLINE {
        out := out + [BACKSLASH];
        out := out + [c];
      } else if c == RETURN {
        out := out + [BACKSLASH, 'r' as int];
      } else if c == 0 {
        out := out + [BACKSLASH, Digit(0), Digit(0), Digit(0)];
      } else {
        out := out + [c];
      }
      assert out == was + EscapedByte(c);
      EscapedGrows(s, i);
      assert out == b + [QUOTE] + Escaped(s[..i + 1]);
      i := i + 1;
    }
    assert s[..|s|] == s;
    out := out + [QUOTE];
  }

  // ---- reading ----

  datatype Error = UnfinishedString | EscapeTooLarge | TooManyLines

  /** What the lexer makes of the bytes after the opening quote: the string, what is left, and the line number. */
  datatype Scan = Done(value: Bytes, rest: Bytes, line: nat) | Bad(e: Error)

  function Prepend(v: Bytes, r: Scan): Scan {
    match r
    case Done(value, rest, line) => Done(v + value, rest, line)
    case Bad(e) => Bad(e)
  }

  /** The character that a single-letter escape stands for, or -1. */
  function SimpleEscape(c: int): (r: int)
    ensures -1 <= r < 256
  {
    if c == 'a' as int then 7
    else if c == 'b' as int then 8
    else if c == 'f' as int then 12
    else if c == 'n' as int then 10
    else if c == 'r' as int then 13
    else if c == 't' as int then 9
    else if c == 'v' as int then 11
    else -1
  }

  /** How many digits a decimal escape takes: one to three, as many as there are. */
  function DigitCount(s: Bytes): (n: nat)
    requires s != [] && IsDigit(s[0])
    ensures 1 <= n <= 3 && n <= |s| && (forall i :: 0 <= i < n ==> IsDigit(s[i]))
    ensures n < 3 && n < |s| ==> !IsDigit(s[n])
  {
    if |s| > 1 && IsDigit(s[1]) then (if |s| > 2 && IsDigit(s[2]) then 3 else 2) else 1
  }

  /** The number that a run of decimal digits denotes. */
  function Decimal(s: Bytes): (v: nat)
    requires forall i :: 0 <= i < |s| ==> IsDigit(s[i])
  {
    if s == [] then 0
    else
      var d := s[|s| - 1];
      assert IsDigit(d);
      10 * Decimal(s[..|s| - 1]) + (d - '0' as int)
  }

  predicate IsNewline(c: int) {
    c == NEWLINE || c == RETURN
  }

  /** What follows a line break, which may be two different characters. */
  function AfterNewline(s: Bytes): (r: Bytes)
    requires s != [] && IsNewline(s[0])
    ensures |r| < |s|
  {
    if |s| > 1 && IsNewline(s[1]) && s[1] != s[0] then s[2..] else s[1..]
  }

  function ScanString(s: Bytes, del: Byte, line: nat): Scan
    decreases |s|, 1
  {
    if s == [] then Bad(UnfinishedString)
    else if s[0] == del then Done([], s[1..], line)
    else if IsNewline(s[0]) then Bad(UnfinishedString)
    else if s[0] == BACKSLASH then ScanEscape(s, del, line)
    else Prepend([s[0]], ScanString(s[1..], del, line))
  }

  /** The same, at a backslash. */
  function ScanEscape(s: Bytes, del: Byte, line: nat): Scan
    requires s != []
    decreases |s|, 0
  {
    if |s| == 1 then Bad(UnfinishedString)
    else if SimpleEscape(s[1]) >= 0 then Prepend([SimpleEscape(s[1])], ScanString(s[2..], del, line))
    else if IsNewline(s[1]) then
      if line + 1 >= MAX_INT then Bad(TooManyLines)
      else Prepend([NEWLINE], ScanString(AfterNewline(s[1..]), del, line + 1))
    else if !IsDigit(s[1]) then Prepend([s[1]], ScanString(s[2..], del, line))
    else
      var n := DigitCount(s[1..]);
      if Decimal(s[1..][..n]) > UCHAR_MAX then Bad(EscapeTooLarge)
      else Prepend([Decimal(s[1..][..n])], ScanString(s[1..][n..], del, line))
  }

  function Newlines(s: Bytes): nat {
    if s == [] then 0 else (if s[0] == NEWLINE then 1 else 0) + Newlines(s[1..])
  }

  lemma ThreeZeros(s: Bytes)
    requires |s| >= 3 && s[0] == Digit(0) && s[1] == Digit(0) && s[2] == Digit(0)
    ensures DigitCount(s) == 3 && Decimal(s[..3]) == 0
  {
    assert s[..3][..2] == s[..2] && s[..2][..1] == s[..1] && s[..1][..0] == [];
    assert Decimal(s[..1]) == 0;
    assert Decimal(s[..2]) == 0;
  }

  lemma ScanZero(rest: Bytes, del: Byte, line: nat)
    requires del != BACKSLASH
    ensures ScanString(EscapedByte(0) + rest, del, line) == Prepend([0], ScanString(rest, del, line))
  {
    var t := EscapedByte(0) + rest;
    ThreeZeros(t[1..]);
    assert t[1..][3..] == rest;
  }

  /** One byte, escaped in front of something that does not begin with a carriage return, is read back. */
  lemma ScanEscapedByte(c: Byte, rest: Bytes, line: nat)
    requires rest != [] && rest[0] != RETURN
    ensures ScanString(EscapedByte(c) + rest, QUOTE, line) ==
            if c == NEWLINE && line + 1 >= MAX_INT then Bad(TooManyLines)
            else Prepend([c], ScanString(rest, QUOTE, if c == NEWLINE then line + 1 else line))
  {
    var t := EscapedByte(c) + rest;
    if c == QUOTE || c == BACKSLASH || c == RETURN {
      assert t[2..] == rest;
    } else if c == NEWLINE {
      assert t[1..] == [NEWLINE] + rest;
      assert AfterNewline(t[1..]) == rest;
    } else if c == 0 {
      ScanZero(rest, QUOTE, line);
    } else {
      assert t[1..] == rest;
    }
  }

  lemma EscapedStart(s: Bytes, tail: Bytes)
    ensures var t := Escaped(s) + [QUOTE] + tail; t != [] && t[0] != RETURN
  {
  }

  lemma EscapedStep(s: Bytes, tail: Bytes)
    requires s != []
    ensures Escaped(s) + [QUOTE] + tail == EscapedByte(s[0]) + (Escaped(s[1..]) + [QUOTE] + tail)
  {
  }

  lemma ScanQuote(tail: Bytes, line: nat)
    ensures ScanString([QUOTE] + tail, QUOTE, line) == Done([], tail, line)
  {
  }

  /** The lexer reads back what was quoted, and counts the newlines of the string, unless there are too many. */
  lemma {:induction false} QuotedBack(s: Bytes, tail: Bytes, line: nat)
    ensures ScanString(Escaped(s) + [QUOTE] + tail, QUOTE, line) ==
            if Newlines(s) == 0 || line + Newlines(s) < MAX_INT then Done(s, tail, line + Newlines(s)) else Bad(TooManyLines)
  {
    hide ScanString;
    hide EscapedByte;
    if s == [] {
      assert Escaped(s) + [QUOTE] + tail == [QUOTE] + tail;
      ScanQuote(tail, line);
    } else {
      var c, rest := s[0], Escaped(s[1..]) + [QUOTE] + tail;
      EscapedStep(s, tail);
      EscapedStart(s[1..], tail);
      ScanEscapedByte(c, rest, line);
      QuotedBack(s[1..], tail, if c == NEWLINE then line + 1 else line);
      assert s == [c] + s[1..];
    }
  }

  lemma PrependTwice(u: Bytes, v: Bytes, r: Scan)
    ensures Prepend(u, Prepend(v, r)) == Prepend(u + v, r)
  {
    if r.Done? {
      assert u + (v + r.value) == u + v + r.value;
    }
  }

  // ---- the scanner itself ----

  /** The part of LexState that reads a string. */
  class LexState {
    /** Current character, EOZ at the end of the stream. */
    var current: int
    /** What the stream still holds. */
    var z: Bytes
    var linenumber: nat
    var buff: Bytes

    ghost predicate Valid()
      reads this
    {
      -1 <= current < 256 && (current == EOZ ==> z == [])
    }

    /** What is still to be read, the current character included. */
    ghost function Pending(): Bytes
      requires Valid()
      reads this
    {
      if current == EOZ then [] else [current] + z
    }

    /** luaX_setinput: a new lexer has read its first character. */
    constructor (input: Bytes, line: nat)
      ensures Valid() && Pending() == input && linenumber == line && buff == []
    {
      linenumber := line;
      buff := [];
      if input == [] {
        current, z := EOZ, [];
      } else {
        current, z := input[0], input[1..];
      }
    }

    method Next()
      requires Valid()
      modifies this`current, this`z
      ensures Valid()
      ensures old(current) != EOZ ==> Pending() == old(Pending())[1..]
      ensures old(current) != EOZ ==> Pending() == old(z)
    {
      if z == [] {
        current := EOZ;
      } else {
        current, z := z[0], z[1..];
      }
    }

    method Save(c: Byte)
      modifies this`buff
      ensures buff == old(buff) + [c]
    {
      buff := buff + [c];
    }

    method SaveAndNext()
      requires Valid() && current != EOZ
      modifies this
      ensures Valid() && buff == old(buff) + [old(current)] && linenumber == old(linenumber)
      ensures Pending() == old(z)
    {
      Save(current);
      Next();
    }

    /** Skips one line break and counts it; false when there are too many lines. */
    method IncLineNumber() returns (ok: bool)
      requires Valid() && IsNewline(current)
      modifies this`current, this`z, this`linenumber
      ensures Valid() && Pending() == AfterNewline(old(Pending())) && linenumber == old(linenumber) + 1
      ensures ok == (linenumber < MAX_INT)
    {
      var was := current;
      ghost var all := Pending();
      Next();
      if IsNewline(current) && current != was {
        Next();
        assert Pending() == all[2..];
      }
      linenumber := linenumber + 1;
      ok := linenumber < MAX_INT;
    }

    /** The digits of a decimal escape. */
    method ReadDecimal() returns (c: nat)
      requires Valid() && IsDigit(current)
      modifies this`current, this`z
      ensures Valid()
      ensures var n := DigitCount(old(Pending())); c == Decimal(old(Pending())[..n]) && Pending() == old(Pending())[n..]
    {
      ghost var all := Pending();
      var i := 0;
      c := 0;
      while true
        invariant Valid() && 0 <= i < 3 && i <= |all| && Pending() == all[i..] && IsDigit(current)
        invariant forall j :: 0 <= j < i ==> IsDigit(all[j])
        invariant c == Decimal(all[..i])
        decreases 3 - i
      {
        assert all[i] == current;
        assert all[..i + 1][..i] == all[..i];
        c := 10 * c + (current - '0' as int);
        Next();
        assert Pending() == all[i + 1..];
        i := i + 1;
        if i >= 3 || !IsDigit(current) {
          break;
        }
      }
      assert i < |all| ==> all[i] == Pending()[0];
      assert i == DigitCount(all);
    }

    /** One escape sequence, with the lexer at the backslash; at the end of the stream nothing is read. */
    method ReadEscape(del: Byte) returns (err: Option<Error>)
      requires Valid() && current == BACKSLASH
      modifies this
      ensures Valid() && old(buff) <= buff
      ensures err.None? ==> |Pending()| < |old(Pending())|
      ensures ScanEscape(old(Pending()), del, old(linenumber)) ==
              if err.Some? then Bad(err.v)
              else Prepend(buff[|old(buff)|..], ScanString(Pending(), del, linenumber))
    {
      ghost var all, line, was := Pending(), linenumber, buff;
      Next();
      assert Pending() == all[1..];
      var c := SimpleEscape(current);
      if c >= 0 {
        Save(c);
        Next();
        assert Pending() == all[2..] && buff[|was|..] == [c];
      } else if IsNewline(current) {
        Save(NEWLINE);
        var ok := IncLineNumber();
        assert buff[|was|..] == [NEWLINE];
        if !ok {
          return Some(TooManyLines);
        }
      } else if current == EOZ {
        assert buff[|was|..] == [];
      } else if !IsDigit(current) {
        assert all[1] == current;
        SaveAndNext();
        assert Pending() == all[2..] && buff[|was|..] == [all[1]];
      } else {
        assert all[1] == current;
        var d := ReadDecimal();
        if d > UCHAR_MAX {
          return Some(EscapeTooLarge);
        }
        Save(d);
        assert buff[|was|..] == [d];
      }
      return None;
    }

    /** read_string: the value of the literal that starts at the current delimiter. */
    method ReadString(del: Byte) returns (r: Result<Bytes, Error>)
      requires Valid() && current == del && buff == []
      modifies this
      ensures Valid()
      ensures match ScanString(old(z), del, old(linenumber))
              case Bad(e) => r == Err(e)
              case Done(value, rest, line) => r == Ok(value) && Pending() == rest && linenumber == line
    {
      hide ScanString;
      hide ScanEscape;
      ghost var start, line := z, linenumber;
      SaveAndNext();
      ghost var v: Bytes := [];
      while current != del
        invariant Valid() && buff == [del] + v
        invariant ScanString(start, del, line) == Prepend(v, ScanString(Pending(), del, linenumber))
        decreases |Pending()|
      {
        ghost var all, now := Pending(), linenumber;
        ScanStringIs(all, del, now);
        if current == EOZ || IsNewline(current) {
          return Err(UnfinishedString);
        } else if current == BACKSLASH {
          var err := ReadEscape(del);
          if err.Some? {
            return Err(err.v);
          }
          ghost var more := buff[1 + |v|..];
          PrependTwice(v, more, ScanString(Pending(), del, linenumber));
          v := v + more;
        } else {
          SaveAndNext();
          PrependTwice(v, [all[0]], ScanString(Pending(), del, linenumber));
          v := v + [all[0]];
          assert Pending() == all[1..];
        }
      }
      ScanStringIs(Pending(), del, linenumber);
      assert Pending()[1..] == z;
      assert ScanString(start, del, line) == Done(v, z, linenumber) by {
        assert v + [] == v;
      }
      SaveAndNext();
      assert buff[1..|buff| - 1] == v;
      r := Ok(buff[1..|buff| - 1]);
    }
  }

  lemma ScanStringIs(s: Bytes, del: Byte, line: nat)
    ensures ScanString(s, del, line) ==
            if s == [] then Bad(UnfinishedString)
            else if s[0] == del then Done([], s[1..], line)
            else if IsNewline(s[0]) then Bad(UnfinishedString)
            else if s[0] == BACKSLASH then ScanEscape(s, del, line)
            else Prepend([s[0]], ScanString(s[1..], del, line))
  {
  }

  /** Quoting a string and reading the literal back, whatever follows it. */
  method QuoteAndRead(s: Bytes, tail: Bytes, line: nat) returns (r: Result<Bytes, Error>, left: Bytes, last: nat)
    ensures Newlines(s) == 0 || line + Newlines(s) < MAX_INT ==> r == Ok(s) && left == tail && last == line + Newlines(s)
    ensures !(Newlines(s) == 0 || line + Newlines(s) < MAX_INT) ==> r == Err(TooManyLines)
  {
    hide ScanString;
    hide Escaped;
    var out := AddQuoted([], s);
    assert out + tail == [QUOTE] + (Escaped(s) + [QUOTE] + tail);
    QuotedBack(s, tail, line);
    var ls := new LexState(out + tail, line);
    assert ls.Pending()[0] == QUOTE && ls.Pending()[1..] == Escaped(s) + [QUOTE] + tail;
    r := ls.ReadString(QUOTE);
    left, last := if ls.current == EOZ then [] else [ls.current] + ls.z, ls.linenumber;
  }
}
