/** How patterns are written, and what they mean: section 5.4.1 of the Lua 5.1 reference manual. */
module PatternTexts {
  import opened Limits
  import opened Wrappers
  import opened Patterns
  import opened Ways

  const CLASSES := "acdlpsuwxz"
  const MAGIC := "^$()%.[]*+-?"

  // ---- characters ----

  datatype Element = Single(c: Byte) | Range(first: Byte, last: Byte) | Class(letter: Byte)

  datatype Chars = Literal(c: Byte) | Any | Named(letter: Byte) | SetOf(complement: bool, es: seq<Element>)

  predicate InLowerClass(ct: Ctype, c: Byte, letter: Byte) {
    if letter == 'd' as int then '0' as int <= c <= '9' as int else if letter == 'z' as int then c == 0 else ct(letter, c)
  }

  /** A lower-case class letter stands for its class, an upper-case one for all other characters, and every other
      character for itself. */
  predicate InClass(ct: Ctype, c: Byte, letter: Byte) {
    && (forall i :: 0 <= i < |CLASSES| && letter == CLASSES[i] as int ==> InLowerClass(ct, c, letter))
    && (forall i :: 0 <= i < |CLASSES| && letter == CLASSES[i] as int - 32 ==> !InLowerClass(ct, c, letter + 32))
    && ((forall i :: 0 <= i < |CLASSES| ==> letter != CLASSES[i] as int && letter != CLASSES[i] as int - 32) ==> c == letter)
  }

  /** A range has both its ends. */
  predicate Covers(ct: Ctype, e: Element, c: Byte) {
    match e
    case Single(x) => c == x
    case Range(first, last) => first <= c <= last
    case Class(letter) => InClass(ct, c, letter)
  }

  predicate Has(ct: Ctype, cs: Chars, c: Byte) {
    match cs
    case Literal(x) => c == x
    case Any => true
    case Named(letter) => InClass(ct, c, letter)
    case SetOf(complement, es) => complement != exists i :: 0 <= i < |es| && Covers(ct, es[i], c)
  }

  // ---- how they are written ----

  function ElementText(e: Element): (t: Text)
    ensures t != []
  {
    match e
    case Single(c) => [c]
    case Range(first, last) => [first, '-' as int, last]
    case Class(letter) => ['%' as int, letter]
  }

  function ElementsText(es: seq<Element>): Text {
    if es == [] then [] else ElementText(es[0]) + ElementsText(es[1..])
  }

  function CharsText(cs: Chars): (t: Text)
    ensures t != []
  {
    match cs
    case Literal(c) => [c]
    case Any => ['.' as int]
    case Named(letter) => ['%' as int, letter]
    case SetOf(complement, es) => ['[' as int] + (if complement then ['^' as int] else []) + ElementsText(es) + [']' as int]
  }

  /** The element can be written so; a closing bracket may only be the first character of a set. */
  predicate IsElement(e: Element, isFirst: bool) {
    match e
    case Single(c) => c != 0 && c != '%' as int && (c != ']' as int || isFirst)
    case Range(first, last) =>
      first != 0 && first != '%' as int && (first != ']' as int || isFirst) && last != 0 && last != '%' as int && last != ']' as int
    case Class(letter) => letter != 0
  }

  /** A hyphen behind a single character would make a range, unless it is the last character of the set. */
  predicate AreElements(es: seq<Element>, isFirst: bool) {
    es != [] ==>
      && IsElement(es[0], isFirst)
      && (es[0].Single? && |es| > 1 ==> ElementText(es[1])[0] != '-' as int || (es[1].Single? && |es| == 2))
      && AreElements(es[1..], false)
  }

  predicate IsMagic(c: Byte) {
    exists i :: 0 <= i < |MAGIC| && c == MAGIC[i] as int
  }

  predicate AreChars(cs: Chars) {
    match cs
    case Literal(c) => c != 0 && !IsMagic(c)
    case Any => true
    case Named(letter) => letter != 0 && letter != 'b' as int && letter != 'f' as int && !('0' as int <= letter <= '9' as int)
    case SetOf(complement, es) => es != [] && AreElements(es, true) && (complement || ElementText(es[0])[0] != '^' as int)
  }

  /** The text stands at the position of the pattern. */
  predicate StandsAt(pat: Text, p: nat, t: Text) {
    p + |t| <= |pat| && pat[p..p + |t|] == t
  }

  lemma StandsSplit(pat: Text, p: nat, t: Text, u: Text)
    requires StandsAt(pat, p, t + u)
    ensures StandsAt(pat, p, t) && StandsAt(pat, p + |t|, u)
  {
    var all := pat[p..p + |t + u|];
    assert all[..|t|] == pat[p..p + |t|] && all[|t|..] == pat[p + |t|..p + |t| + |u|];
    assert (t + u)[..|t|] == t && (t + u)[|t|..] == u;
  }

  lemma StandsChar(pat: Text, p: nat, t: Text, k: nat)
    requires StandsAt(pat, p, t) && k < |t|
    ensures At(pat, p + k) == t[k]
  {
    assert pat[p..p + |t|][k] == pat[p + k];
  }

  // ---- what match_class and matchbracketclass make of them ----

  lemma ClassMeaning(ct: Ctype, c: Byte, letter: Byte)
    ensures MatchClass(ct, c, letter) == InClass(ct, c, letter)
  {
    assert CLASSES[0] == 'a' && CLASSES[1] == 'c' && CLASSES[2] == 'd' && CLASSES[3] == 'l' && CLASSES[4] == 'p';
    assert CLASSES[5] == 's' && CLASSES[6] == 'u' && CLASSES[7] == 'w' && CLASSES[8] == 'x' && CLASSES[9] == 'z';
  }

  ghost predicate SomeCovers(ct: Ctype, es: seq<Element>, c: Byte) {
    exists i :: 0 <= i < |es| && Covers(ct, es[i], c)
  }

  lemma SomeCoversFirst(ct: Ctype, es: seq<Element>, c: Byte)
    requires es != []
    ensures SomeCovers(ct, es, c) <==> Covers(ct, es[0], c) || SomeCovers(ct, es[1..], c)
  {
    hide Covers;
    if SomeCovers(ct, es, c) && !Covers(ct, es[0], c) {
      var i :| 0 <= i < |es| && Covers(ct, es[i], c);
      assert es[1..][i - 1] == es[i];
    }
    if SomeCovers(ct, es[1..], c) {
      var i :| 0 <= i < |es[1..]| && Covers(ct, es[1..][i], c);
      assert es[i + 1] == es[1..][i];
    }
  }

  /** A set accepts a character exactly if one of its elements does. */
  lemma {:induction false} ElementsMeaning(ct: Ctype, pat: Text, c: Byte, p: nat, es: seq<Element>, isFirst: bool)
    requires AreElements(es, isFirst) && StandsAt(pat, p, ElementsText(es) + [']' as int])
    ensures SetAccepts(ct, pat, c, p, p + |ElementsText(es)|) <==> SomeCovers(ct, es, c)
    decreases |es|
  {
    if es != [] {
      var t, rest := ElementText(es[0]), ElementsText(es[1..]) + [']' as int];
      assert ElementsText(es) + [']' as int] == t + rest;
      StandsSplit(pat, p, t, rest);
      ElementsMeaning(ct, pat, c, p + |t|, es[1..], false);
      SomeCoversFirst(ct, es, c);
      hide SomeCovers;
      FirstElement(ct, pat, c, p, es, isFirst);
    }
  }

  /** The first element, in front of the others. */
  lemma FirstElement(ct: Ctype, pat: Text, c: Byte, p: nat, es: seq<Element>, isFirst: bool)
    requires es != [] && AreElements(es, isFirst)
    requires StandsAt(pat, p, ElementText(es[0])) && StandsAt(pat, p + |ElementText(es[0])|, ElementsText(es[1..]) + [']' as int])
    ensures var ec := p + |ElementsText(es)|;
      SetAccepts(ct, pat, c, p, ec) <==> Covers(ct, es[0], c) || SetAccepts(ct, pat, c, p + |ElementText(es[0])|, ec)
  {
    hide MatchClass;
    hide InClass;
    var t, more := ElementText(es[0]), ElementsText(es[1..]);
    assert |ElementsText(es)| == |t| + |more|;
    StandsChar(pat, p, t, 0);
    StandsChar(pat, p + |t|, more + [']' as int], 0);
    match es[0]
    case Single(x) =>
      AfterSingle(es, isFirst);
    case Range(first, last) =>
      StandsChar(pat, p, t, 1);
      StandsChar(pat, p, t, 2);
    case Class(letter) =>
      StandsChar(pat, p, t, 1);
      ClassMeaning(ct, c, letter);
  }

  lemma AfterSingle(es: seq<Element>, isFirst: bool)
    requires es != [] && AreElements(es, isFirst) && es[0].Single?
    ensures var more := ElementsText(es[1..]); more != [] ==> more[0] != '-' as int || |more| == 1
  {
    if |es| > 1 {
      assert es[1..][0] == es[1];
      if |es| == 2 {
        assert es[1..][1..] == [];
      }
    }
  }

  /** classend finds the bracket behind the last element. */
  lemma {:induction false} SetEndMeaning(pat: Text, p: nat, es: seq<Element>, isFirst: bool)
    requires es != [] && AreElements(es, isFirst) && StandsAt(pat, p, ElementsText(es) + [']' as int])
    ensures SetEnd(pat, p) == Some(p + |ElementsText(es)|)
    decreases |es|
  {
    var t, more := ElementText(es[0]), ElementsText(es[1..]);
    assert ElementsText(es) == t + more;
    hide ElementText;
    hide ElementsText;
    assert (t + more) + [']' as int] == t + (more + [']' as int]);
    StandsSplit(pat, p, t, more + [']' as int]);
    StandsChar(pat, p + |t|, more + [']' as int], 0);
    ElementSkipped(pat, p, es[0], isFirst);
    hide SetEnd;
    hide StandsAt;
    hide At;
    if |es| > 1 {
      assert es[1..][0] == es[1];
      SetEndMeaning(pat, p + |t|, es[1..], false);
    }
  }

  lemma ElementSkipped(pat: Text, p: nat, e: Element, isFirst: bool)
    requires IsElement(e, isFirst) && StandsAt(pat, p, ElementText(e))
    ensures var q := p + |ElementText(e)|; SetEnd(pat, p) == if At(pat, q) == ']' as int then Some(q) else SetEnd(pat, q)
  {
    var t := ElementText(e);
    StandsChar(pat, p, t, 0);
    if e.Range? {
      StandsChar(pat, p, t, 1);
      StandsChar(pat, p, t, 2);
      assert SetEnd(pat, p) == SetEnd(pat, p + 1) == SetEnd(pat, p + 2);
    } else if e.Class? {
      StandsChar(pat, p, t, 1);
    }
  }

  /** The item accepts just the characters that it stands for, and ends where its text ends. */
  lemma CharsMeaning(ct: Ctype, pat: Text, c: Byte, p: nat, cs: Chars)
    requires AreChars(cs) && StandsAt(pat, p, CharsText(cs))
    ensures At(pat, p) == CharsText(cs)[0] != 0
    ensures ClassEnd(pat, p) == Some(p + |CharsText(cs)|)
    ensures Accepts(ct, pat, c, p, p + |CharsText(cs)|) <==> Has(ct, cs, c)
  {
    StandsChar(pat, p, CharsText(cs), 0);
    match cs
    case Literal(x) =>
      MagicOnes(x);
    case Any =>
    case Named(letter) =>
      StandsChar(pat, p, CharsText(cs), 1);
      ClassMeaning(ct, c, letter);
    case SetOf(complement, es) =>
      SetMeaning(ct, pat, c, p, complement, es);
  }

  lemma MagicOnes(c: Byte)
    requires !IsMagic(c)
    ensures c != '%' as int && c != '[' as int && c != '.' as int && c != '(' as int && c != ')' as int && c != '$' as int
    ensures c != '^' as int && c != '*' as int && c != '+' as int && c != '-' as int && c != '?' as int
  {
    assert MAGIC[0] == '^' && MAGIC[1] == '$' && MAGIC[2] == '(' && MAGIC[3] == ')' && MAGIC[4] == '%' && MAGIC[5] == '.';
    assert MAGIC[6] == '[' && MAGIC[8] == '*' && MAGIC[9] == '+' && MAGIC[10] == '-' && MAGIC[11] == '?';
  }

  lemma SetMeaning(ct: Ctype, pat: Text, c: Byte, p: nat, complement: bool, es: seq<Element>)
    requires AreChars(SetOf(complement, es)) && StandsAt(pat, p, CharsText(SetOf(complement, es)))
    ensures var n := |CharsText(SetOf(complement, es))|;
      ClassEnd(pat, p) == Some(p + n) && (Accepts(ct, pat, c, p, p + n) <==> Has(ct, SetOf(complement, es), c))
      && (BracketAccepts(ct, pat, c, p, p + n - 1) <==> Has(ct, SetOf(complement, es), c))
  {
    var head := ['[' as int] + if complement then ['^' as int] else [];
    var body := ElementsText(es) + [']' as int];
    assert CharsText(SetOf(complement, es)) == head + body;
    StandsSplit(pat, p, head, body);
    SetHead(pat, p, complement, es);
    ElementsMeaning(ct, pat, c, p + |head|, es, true);
    SetEndMeaning(pat, p + |head|, es, true);
    hide SetAccepts;
    hide SetEnd;
    hide Covers;
    hide StandsAt;
    hide AreElements;
    hide ElementsText;
  }

  lemma SetHead(pat: Text, p: nat, complement: bool, es: seq<Element>)
    requires es != [] && (complement || ElementText(es[0])[0] != '^' as int)
    requires StandsAt(pat, p, ['[' as int] + if complement then ['^' as int] else [])
    requires StandsAt(pat, p + (if complement then 2 else 1), ElementsText(es) + [']' as int])
    ensures At(pat, p) == '[' as int && (At(pat, p + 1) == '^' as int <==> complement)
  {
    var head := ['[' as int] + if complement then ['^' as int] else [];
    StandsChar(pat, p, head, 0);
    if complement {
      StandsChar(pat, p, head, 1);
    } else {
      StandsChar(pat, p + 1, ElementsText(es) + [']' as int], 0);
    }
  }
}
