/** What the lexer makes of string literals, told by how they are written. */
module StringLiterals {
  import opened Limits
  import opened Wrappers
  import opened QuotedStrings

  const LETTERS := "abtnvfr"

  /** One character of a literal, in one of the ways in which it may be written. */
  datatype Piece =
    | Plain(c: Byte)
    | Letter(i: nat)
    | Other(c: Byte)
    | Digits(ds: seq<nat>)
    | LineBreak(brk: Bytes)

  predicate IsPiece(p: Piece, del: Byte) {
    match p
    case Plain(c) => c != del && c != 10 && c != 13 && c != '\\' as int
    case Letter(i) => i < 7
    case Other(c) => c != 10 && c != 13 && !('0' as int <= c <= '9' as int) && forall i :: 0 <= i < 7 ==> c != LETTERS[i] as int
    case Digits(ds) => 1 <= |ds| <= 3 && forall i :: 0 <= i < |ds| ==> ds[i] < 10
    case LineBreak(brk) => brk in {[10], [13], [10, 13], [13, 10]}
  }

  function Spelling(p: Piece, del: Byte): Bytes
    requires IsPiece(p, del)
  {
    match p
    case Plain(c) => [c]
    case Letter(i) => ['\\' as int, LETTERS[i] as int]
    case Other(c) => ['\\' as int, c]
    case Digits(ds) => ['\\' as int] + seq(|ds|, i requires 0 <= i < |ds| => '0' as int + ds[i])
    case LineBreak(brk) => ['\\' as int] + brk
  }

  /** The code of the character that is meant; the letters stand for the codes from 7 on. */
  function Meaning(p: Piece): nat {
    match p
    case Plain(c) => c
    case Letter(i) => 7 + i
    case Other(c) => c
    case Digits(ds) =>
      if |ds| == 1 then ds[0] else if |ds| == 2 then 10 * ds[0] + ds[1] else if |ds| == 3 then 100 * ds[0] + 10 * ds[1] + ds[2] else 0
    case LineBreak(_) => 10
  }

  function Lines(p: Piece): nat {
    if p.LineBreak? then 1 else 0
  }

  /** `rest` does not lengthen the piece: fewer than three digits end at the first character that is none, and one
      character of a line break is not followed by the other one. */
  predicate Ends(p: Piece, rest: Bytes) {
    match p
    case Digits(ds) => |ds| == 3 || rest == [] || !('0' as int <= rest[0] <= '9' as int)
    case LineBreak(brk) => |brk| == 2 || rest == [] || (rest[0] != 10 && rest[0] != 13) || (brk != [] && rest[0] == brk[0])
    case _ => true
  }

  lemma LetterRead(i: nat, rest: Bytes, del: Byte, line: nat)
    requires i < 7 && del != BACKSLASH
    ensures ScanString(Spelling(Letter(i), del) + rest, del, line) == Prepend([7 + i], ScanString(rest, del, line))
  {
    var t := Spelling(Letter(i), del) + rest;
    assert t[2..] == rest;
    assert SimpleEscape(LETTERS[i] as int) == 7 + i;
  }

  lemma OtherRead(c: Byte, rest: Bytes, del: Byte, line: nat)
    requires IsPiece(Other(c), del) && del != BACKSLASH
    ensures ScanString(Spelling(Other(c), del) + rest, del, line) == Prepend([c], ScanString(rest, del, line))
  {
    var t := Spelling(Other(c), del) + rest;
    assert t[2..] == rest;
    assert LETTERS[0] == 'a' && LETTERS[1] == 'b' && LETTERS[2] == 't' && LETTERS[3] == 'n' && LETTERS[4] == 'v' && LETTERS[5] == 'f' && LETTERS[6] == 'r';
    assert SimpleEscape(c) == -1;
  }

  lemma DigitsRead(ds: seq<nat>, rest: Bytes, del: Byte, line: nat)
    requires IsPiece(Digits(ds), del) && Ends(Digits(ds), rest) && del != BACKSLASH
    ensures var t, v := Spelling(Digits(ds), del) + rest, Meaning(Digits(ds));
            ScanString(t, del, line) == if v > 255 then Bad(EscapeTooLarge) else Prepend([v], ScanString(rest, del, line))
  {
    var t := Spelling(Digits(ds), del) + rest;
    var digits := Spelling(Digits(ds), del)[1..];
    assert t[1..] == digits + rest;
    assert forall i :: 0 <= i < |ds| ==> digits[i] == '0' as int + ds[i] && t[1..][i] == digits[i];
    assert DigitCount(t[1..]) == |ds|;
    assert t[1..][..|ds|] == digits && t[1..][|ds|..] == rest;
    assert digits[..|ds|] == digits;
    DecimalIs(digits);
  }

  lemma DecimalIs(s: Bytes)
    requires 1 <= |s| <= 3 && forall i :: 0 <= i < |s| ==> IsDigit(s[i])
    ensures Decimal(s) == Meaning(Digits(seq(|s|, i requires 0 <= i < |s| => s[i] - '0' as int)))
  {
    var a := s[..|s| - 1];
    assert Decimal(s) == 10 * Decimal(a) + (s[|s| - 1] - '0' as int);
    if |s| > 1 {
      DecimalIs(a);
    }
  }

  lemma LineBreakRead(brk: Bytes, rest: Bytes, del: Byte, line: nat)
    requires IsPiece(LineBreak(brk), del) && Ends(LineBreak(brk), rest) && del != BACKSLASH
    ensures ScanString(Spelling(LineBreak(brk), del) + rest, del, line) ==
            if line + 1 >= MAX_INT then Bad(TooManyLines) else Prepend([10], ScanString(rest, del, line + 1))
  {
    var t := Spelling(LineBreak(brk), del) + rest;
    assert t[1..] == brk + rest;
    assert AfterNewline(t[1..]) == rest;
  }

  /** Any piece, before any text that does not lengthen it. */
  lemma PieceRead(p: Piece, rest: Bytes, del: Byte, line: nat)
    requires IsPiece(p, del) && Ends(p, rest) && del != BACKSLASH
    ensures ScanString(Spelling(p, del) + rest, del, line) ==
            if Meaning(p) > 255 then Bad(EscapeTooLarge)
            else if p.LineBreak? && line + 1 >= MAX_INT then Bad(TooManyLines)
            else Prepend([Meaning(p)], ScanString(rest, del, line + Lines(p)))
  {
    match p
    case Plain(c) =>
      assert (Spelling(p, del) + rest)[1..] == rest;
    case Letter(i) => LetterRead(i, rest, del, line);
    case Other(c) => OtherRead(c, rest, del, line);
    case Digits(ds) => DigitsRead(ds, rest, del, line);
    case LineBreak(brk) => LineBreakRead(brk, rest, del, line);
  }

  // ---- whole literals ----

  predicate AllPieces(ps: seq<Piece>, del: Byte) {
    forall i :: 0 <= i < |ps| ==> IsPiece(ps[i], del)
  }

  /** The text of a literal after its opening delimiter, and what follows it. */
  function LiteralText(ps: seq<Piece>, del: Byte, tail: Bytes): Bytes
    requires AllPieces(ps, del)
  {
    if ps == [] then [del] + tail else Spelling(ps[0], del) + LiteralText(ps[1..], del, tail)
  }

  /** Each piece ends where the next one begins. */
  predicate Apart(ps: seq<Piece>, del: Byte, tail: Bytes)
    requires AllPieces(ps, del)
  {
    ps == [] || (Ends(ps[0], LiteralText(ps[1..], del, tail)) && Apart(ps[1..], del, tail))
  }

  /** What the literal means: the first piece that cannot be read is an error. */
  function LiteralMeaning(ps: seq<Piece>, tail: Bytes, line: nat): Scan {
    if ps == [] then Done([], tail, line)
    else if Meaning(ps[0]) > 255 then Bad(EscapeTooLarge)
    else if ps[0].LineBreak? && line + 1 >= MAX_INT then Bad(TooManyLines)
    else Prepend([Meaning(ps[0])], LiteralMeaning(ps[1..], tail, line + Lines(ps[0])))
  }

  /** Every literal is read as what its pieces mean. */
  lemma {:induction false} LiteralRead(ps: seq<Piece>, del: Byte, tail: Bytes, line: nat)
    requires AllPieces(ps, del) && Apart(ps, del, tail) && del != BACKSLASH
    ensures ScanString(LiteralText(ps, del, tail), del, line) == LiteralMeaning(ps, tail, line)
  {
    if ps == [] {
      assert ([del] + tail)[1..] == tail;
    } else {
      hide ScanString;
      hide Spelling;
      hide Meaning;
      hide Ends;
      hide IsPiece;
      PieceRead(ps[0], LiteralText(ps[1..], del, tail), del, line);
      LiteralRead(ps[1..], del, tail, line + Lines(ps[0]));
    }
  }

  /** What is no literal: the text or the line ends first. */
  lemma UnfinishedRead(rest: Bytes, del: Byte, line: nat)
    requires del != BACKSLASH && del != NEWLINE && del != RETURN
    ensures ScanString([], del, line) == ScanString([BACKSLASH], del, line) == Bad(UnfinishedString)
    ensures ScanString([NEWLINE] + rest, del, line) == ScanString([RETURN] + rest, del, line) == Bad(UnfinishedString)
  {
  }

  /** Reading a literal, whatever follows it. */
  method ReadWritten(ps: seq<Piece>, del: Byte, tail: Bytes, line: nat) returns (r: Result<Bytes, Error>, left: Bytes, last: nat)
    requires AllPieces(ps, del) && Apart(ps, del, tail) && del != BACKSLASH
    ensures match LiteralMeaning(ps, tail, line)
            case Bad(e) => r == Err(e)
            case Done(value, rest, lines) => r == Ok(value) && left == rest == tail && last == lines
  {
    hide ScanString;
    hide Spelling;
    LiteralRead(ps, del, tail, line);
    MeaningLeaves(ps, tail, line);
    var text := [del] + LiteralText(ps, del, tail);
    var ls := new LexState(text, line);
    assert ls.Pending()[0] == del && ls.Pending()[1..] == LiteralText(ps, del, tail);
    r := ls.ReadString(del);
    left, last := if ls.current == EOZ then [] else [ls.current] + ls.z, ls.linenumber;
  }

  lemma {:induction false} MeaningLeaves(ps: seq<Piece>, tail: Bytes, line: nat)
    ensures var m := LiteralMeaning(ps, tail, line); m.Done? ==> m.rest == tail
  {
    if ps != [] {
      MeaningLeaves(ps[1..], tail, line + Lines(ps[0]));
    }
  }

  // ---- how the format %q writes a string ----

  /** Double quotes, backslashes and line feeds stand behind a backslash, a carriage return is the letter r, a zero
      is three digits, and everything else stands for itself. */
  function QuotedPiece(c: Byte): Piece {
    if c == '\"' as int || c == '\\' as int then Other(c)
    else if c == 10 then LineBreak([10])
    else if c == 13 then Letter(6)
    else if c == 0 then Digits([0, 0, 0])
    else Plain(c)
  }

  function QuotedPieces(s: Bytes): seq<Piece> {
    seq(|s|, i requires 0 <= i < |s| => QuotedPiece(s[i]))
  }

  /** This is how addquoted writes a string. */
  lemma {:induction false} QuotedText(s: Bytes, tail: Bytes)
    ensures AllPieces(QuotedPieces(s), QUOTE)
    ensures Escaped(s) + [QUOTE] + tail == LiteralText(QuotedPieces(s), QUOTE, tail)
  {
    if s != [] {
      var ps := QuotedPieces(s);
      assert ps[0] == QuotedPiece(s[0]) && ps[1..] == QuotedPieces(s[1..]);
      QuotedText(s[1..], tail);
      QuotedSpelling(s[0]);
      hide EscapedByte;
      hide Spelling;
      hide QuotedPiece;
      hide IsPiece;
    }
  }

  lemma QuotedSpelling(c: Byte)
    ensures IsPiece(QuotedPiece(c), QUOTE) && Spelling(QuotedPiece(c), QUOTE) == EscapedByte(c)
  {
  }
}
