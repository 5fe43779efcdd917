/** What a pattern matches, told by the pieces that it is written with, and not by its text. */
module PatternMeanings {
  import opened Limits
  import opened Wrappers
  import opened Patterns
  import opened Ways
  import opened PatternTexts

  datatype Piece =
    | One(cs: Chars, repeat: Repeat)
    | Open
    | Position
    | Close
    | Between(x: Byte, y: Byte)
    | Border(complement: bool, es: seq<Element>)
    | Back(n: nat)

  predicate IsPiece(q: Piece) {
    match q
    case One(cs, _) => AreChars(cs)
    case Between(x, y) => x != 0 && y != 0
    case Border(complement, es) => AreChars(SetOf(complement, es))
    case Back(n) => 1 <= n <= 9
    case _ => true
  }

  /** Pieces that can be written one after the other; `()` would be a position. */
  predicate ArePieces(ps: seq<Piece>) {
    && (forall i :: 0 <= i < |ps| ==> IsPiece(ps[i]))
    && (forall i :: 0 <= i < |ps| - 1 ==> !(ps[i].Open? && ps[i + 1].Close?))
  }

  function RepeatText(r: Repeat): Text {
    match r
    case Once => []
    case Optional => ['?' as int]
    case Star => ['*' as int]
    case Plus => ['+' as int]
    case Minus => ['-' as int]
  }

  function PieceText(q: Piece): (t: Text)
    requires IsPiece(q)
    ensures t != []
  {
    match q
    case One(cs, repeat) => CharsText(cs) + RepeatText(repeat)
    case Open => ['(' as int]
    case Position => ['(' as int, ')' as int]
    case Close => [')' as int]
    case Between(x, y) => ['%' as int, 'b' as int, x, y]
    case Border(complement, es) => ['%' as int, 'f' as int] + CharsText(SetOf(complement, es))
    case Back(n) => ['%' as int, '0' as int + n]
  }

  /** The text of a pattern, with `$` if it has to match up to the end. */
  function PatternText(ps: seq<Piece>, toEnd: bool): Text
    requires ArePieces(ps)
  {
    if ps == [] then (if toEnd then ['$' as int] else []) else PieceText(ps[0]) + PatternText(ps[1..], toEnd)
  }

  // ---- what the pieces match ----

  /** All of the `n` characters from `s` on. */
  predicate AllHave(ct: Ctype, src: Text, s: nat, n: nat, cs: Chars) {
    s + n <= |src| && forall j :: s <= j < s + n ==> Has(ct, cs, src[j])
  }

  /** The character before `s`, and the one at `s`; a zero stands outside the subject. */
  predicate OnBorder(ct: Ctype, src: Text, s: nat, cs: Chars)
    requires s <= |src|
  {
    && !Has(ct, cs, if s == 0 then 0 else src[s - 1])
    && Has(ct, cs, if s == |src| then 0 else src[s])
  }

  /** What the pieces match from `s` on, if the repeated ones match as many characters as `w` says. It is an error to
      have too many captures, to close one that is not open, and to refer to one that is not finished. */
  function Reads(ct: Ctype, src: Text, ps: seq<Piece>, toEnd: bool, s: nat, caps: seq<Capture>, w: Way): Option<Ending>
    requires s <= |src| && CapsOk(src, s, caps)
    decreases |ps|
  {
    if ps == [] then (if w == [] && (toEnd ==> s == |src|) then Some(Matched(s, caps)) else None)
    else
      match ps[0]
      case One(cs, repeat) =>
        if repeat == Once then (if AllHave(ct, src, s, 1, cs) then Reads(ct, src, ps[1..], toEnd, s + 1, caps, w) else None)
        else if w != [] && (repeat == Optional ==> w[0] <= 1) && (repeat == Plus ==> w[0] >= 1) && AllHave(ct, src, s, w[0], cs)
        then Reads(ct, src, ps[1..], toEnd, s + w[0], caps, w[1..])
        else None
      case Open =>
        if |caps| >= LUA_MAXCAPTURES then (if w == [] then Some(Broken) else None)
        else Reads(ct, src, ps[1..], toEnd, s, caps + [Capture(s, CAP_UNFINISHED)], w)
      case Position =>
        if |caps| >= LUA_MAXCAPTURES then (if w == [] then Some(Broken) else None)
        else Reads(ct, src, ps[1..], toEnd, s, caps + [Capture(s, CAP_POSITION)], w)
      case Close =>
        var l := LastOpen(caps);
        if l.None? then (if w == [] then Some(Broken) else None)
        else Reads(ct, src, ps[1..], toEnd, s, caps[l.v := Capture(caps[l.v].init, s - caps[l.v].init)], w)
      case Between(x, y) =>
        var e := Balance(src, s, x, y);
        if e.None? then None else Reads(ct, src, ps[1..], toEnd, e.v, caps, w)
      case Border(complement, es) =>
        if OnBorder(ct, src, s, SetOf(complement, es)) then Reads(ct, src, ps[1..], toEnd, s, caps, w) else None
      case Back(n) =>
        if !(1 <= n <= |caps|) || caps[n - 1].len == CAP_UNFINISHED then (if w == [] then Some(Broken) else None)
        else if caps[n - 1].len >= 0 && s + caps[n - 1].len <= |src|
           && src[s..s + caps[n - 1].len] == src[caps[n - 1].init..caps[n - 1].init + caps[n - 1].len]
        then Reads(ct, src, ps[1..], toEnd, s + caps[n - 1].len, caps, w) else None
  }

  /** At the first repeated piece where they differ, `w` has more characters than `w1`, or fewer if it is written
      with a hyphen. */
  predicate Prefers(ps: seq<Piece>, w: Way, w1: Way)
    decreases |ps|
  {
    if ps == [] then false
    else if !ps[0].One? || ps[0].repeat == Once then Prefers(ps[1..], w, w1)
    else if w == [] || w1 == [] then false
    else if w[0] == w1[0] then Prefers(ps[1..], w[1..], w1[1..])
    else if ps[0].repeat == Minus then w[0] < w1[0] else w[0] > w1[0]
  }

  /** What `%bxy` matches: from an `x` up to the first place where as many `y` as `x` have been seen. */
  lemma BalanceMeaning(src: Text, s: nat, x: Byte, y: Byte)
    requires s <= |src| && x != y
    ensures var r := Balance(src, s, x, y);
      if r.Some?
      then s < r.v <= |src| && src[s] == x && Count(src[s..r.v], x) == Count(src[s..r.v], y)
        && forall q :: s < q < r.v ==> Count(src[s..q], x) > Count(src[s..q], y)
      else s == |src| || src[s] != x || forall q :: s < q <= |src| ==> Count(src[s..q], x) > Count(src[s..q], y)
  {
    if s < |src| && src[s] == x {
      BalanceEndMeaning(src, s + 1, x, y, 1);
      forall q | s < q <= |src|
        ensures src[s..q] == [x] + src[s + 1..q]
      {
      }
      assert forall q :: s < q <= |src| ==> src[s..q][1..] == src[s + 1..q];
    }
  }

  /** With the same delimiter twice, the next one ends the match. */
  lemma {:induction false} BalanceSame(src: Text, s: nat, x: Byte)
    requires s <= |src|
    ensures var r := BalanceEnd(src, s, x, x, 1);
      if r.Some? then src[r.v - 1] == x && x !in src[s..r.v - 1] else x !in src[s..]
    decreases |src| - s
  {
    if s < |src| && src[s] != x {
      BalanceSame(src, s + 1, x);
      var r := BalanceEnd(src, s, x, x, 1);
      if r.Some? {
        assert src[s..r.v - 1] == [src[s]] + src[s + 1..r.v - 1];
      } else {
        assert src[s..] == [src[s]] + src[s + 1..];
      }
    }
  }

  // ---- the text is read as its pieces ----

  predicate IsRepeat(c: Byte) {
    c == '?' as int || c == '*' as int || c == '+' as int || c == '-' as int
  }

  lemma TextStart(ps: seq<Piece>, toEnd: bool)
    requires ArePieces(ps)
    ensures var t := PatternText(ps, toEnd); t != [] ==> t[0] != 0 && t[0] != '^' as int && !IsRepeat(t[0])
    ensures ps != [] && PatternText(ps, toEnd)[0] == ')' as int ==> ps[0].Close?
  {
    if ps != [] && ps[0].One? && ps[0].cs.Literal? {
      MagicOnes(ps[0].cs.c);
    }
  }

  /** The rest of the pattern is the text of the pieces. */
  predicate Written(pat: Text, p: nat, ps: seq<Piece>, toEnd: bool) {
    ArePieces(ps) && p <= |pat| && pat[p..] == PatternText(ps, toEnd)
  }

  lemma WrittenNext(pat: Text, p: nat, ps: seq<Piece>, toEnd: bool)
    requires Written(pat, p, ps, toEnd) && ps != []
    ensures StandsAt(pat, p, PieceText(ps[0])) && Written(pat, p + |PieceText(ps[0])|, ps[1..], toEnd)
    ensures var c := At(pat, p + |PieceText(ps[0])|); !IsRepeat(c) && (ps[0].Open? ==> c != ')' as int && |PieceText(ps[0])| == 1)
  {
    hide *;
    WrittenIs(pat, p, ps, toEnd);
    LaterPieces(ps);
    if ps[0].Open? {
      NoEmptyCapture(ps);
    }
    var t, rest := PieceText(ps[0]), PatternText(ps[1..], toEnd);
    TextStart(ps[1..], toEnd);
    EndNotClosed(toEnd);
    TextSplit(ps, toEnd);
    Cut(pat, p, t, rest);
    ZeroIsNone();
    WrittenIs(pat, p + |t|, ps[1..], toEnd);
    if |ps| > 1 {
      assert ps[1..][0] == ps[1];
    } else {
      assert ps[1..] == [];
    }
  }

  lemma WrittenIs(pat: Text, p: nat, ps: seq<Piece>, toEnd: bool)
    ensures Written(pat, p, ps, toEnd) <==> ArePieces(ps) && p <= |pat| && pat[p..] == PatternText(ps, toEnd)
  {
    hide ArePieces;
    hide PatternText;
  }

  lemma NoEmptyCapture(ps: seq<Piece>)
    requires ArePieces(ps) && ps != [] && ps[0].Open? && IsPiece(ps[0])
    ensures |PieceText(ps[0])| == 1 && (|ps| > 1 ==> !ps[1].Close?)
  {
    hide IsPiece;
  }

  lemma ZeroIsNone()
    ensures !IsRepeat(0)
  {
  }

  lemma LaterPieces(ps: seq<Piece>)
    requires ArePieces(ps) && ps != []
    ensures IsPiece(ps[0]) && ArePieces(ps[1..])
  {
    hide IsPiece;
  }

  lemma TextSplit(ps: seq<Piece>, toEnd: bool)
    requires ArePieces(ps) && ps != [] && IsPiece(ps[0]) && ArePieces(ps[1..])
    ensures PatternText(ps, toEnd) == PieceText(ps[0]) + PatternText(ps[1..], toEnd)
  {
  }

  lemma EndNotClosed(toEnd: bool)
    ensures var t := PatternText([], toEnd); t != [] ==> t[0] != ')' as int
  {
  }

  lemma Cut(pat: Text, p: nat, t: Text, rest: Text)
    requires p <= |pat| && pat[p..] == t + rest
    ensures StandsAt(pat, p, t) && p + |t| <= |pat| && pat[p + |t|..] == rest
    ensures At(pat, p + |t|) == if rest == [] then 0 else rest[0]
  {
    assert pat[p..][..|t|] == t && pat[p..][|t|..] == rest;
    assert pat[p + |t|..] == rest && pat[p..p + |t|] == t;
    assert rest != [] ==> pat[p + |t|..][0] == pat[p + |t|];
  }

  lemma WrittenEnd(pat: Text, p: nat, toEnd: bool)
    requires Written(pat, p, [], toEnd)
    ensures ItemAt(pat, p) == if toEnd then EndAnchor else EndOfPattern
  {
    if toEnd {
      assert pat[p..][0] == pat[p];
    }
  }

  function ItemOf(q: Piece, p: nat): Item
    requires IsPiece(q)
  {
    var next := p + |PieceText(q)|;
    match q
    case One(cs, repeat) => Char(p + |CharsText(cs)|, repeat, next)
    case Open => StartCapture(false, next)
    case Position => StartCapture(true, next)
    case Close => EndCapture(next)
    case Between(x, y) => Balanced(x, y, next)
    case Border(_, _) => Frontier(p + 2, next)
    case Back(n) => BackReference(n - 1, next)
  }

  lemma ItemMeaning(pat: Text, p: nat, ps: seq<Piece>, toEnd: bool)
    requires Written(pat, p, ps, toEnd) && ps != []
    ensures ItemAt(pat, p) == ItemOf(ps[0], p)
  {
    hide *;
    WrittenNext(pat, p, ps, toEnd);
    WrittenPieces(pat, p, ps, toEnd);
    match ps[0]
    case One(cs, repeat) =>
      OneIs(cs, repeat);
      OneMeaning(pat, p, cs, repeat);
      ItemOfIs(ps[0], p);
    case Border(complement, es) =>
      BorderText(pat, p, complement, es);
      BorderMeaning(pat, p, complement, es);
      ItemOfIs(ps[0], p);
    case _ => OtherMeaning(pat, p, ps[0]);
  }

  lemma OneIs(cs: Chars, repeat: Repeat)
    requires IsPiece(One(cs, repeat))
    ensures AreChars(cs) && PieceText(One(cs, repeat)) == CharsText(cs) + RepeatText(repeat)
  {
    hide AreChars;
  }

  lemma ItemOfIs(q: Piece, p: nat)
    requires IsPiece(q)
    ensures q.One? ==> ItemOf(q, p) == Char(p + |CharsText(q.cs)|, q.repeat, p + |CharsText(q.cs)| + |RepeatText(q.repeat)|)
    ensures q.Border? ==> ItemOf(q, p) == Frontier(p + 2, p + 2 + |CharsText(SetOf(q.complement, q.es))|)
  {
    hide AreChars;
    hide CharsText;
  }

  lemma OtherMeaning(pat: Text, p: nat, q: Piece)
    requires IsPiece(q) && !q.One? && !q.Border? && StandsAt(pat, p, PieceText(q))
    requires q.Open? ==> At(pat, p + 1) != ')' as int
    ensures ItemAt(pat, p) == ItemOf(q, p)
  {
    var t := PieceText(q);
    StandsChars(pat, p, t);
    assert At(pat, p + 0) == t[0];
    assert |t| > 1 ==> At(pat, p + 1) == t[1];
    assert |t| > 2 ==> At(pat, p + 2) == t[2];
    assert |t| > 3 ==> At(pat, p + 3) == t[3];
    hide StandsAt;
    hide At;
  }

  lemma StandsChars(pat: Text, p: nat, t: Text)
    requires StandsAt(pat, p, t)
    ensures forall k :: 0 <= k < |t| ==> At(pat, p + k) == t[k]
  {
    forall k | 0 <= k < |t|
      ensures At(pat, p + k) == t[k]
    {
      StandsChar(pat, p, t, k);
    }
  }

  lemma OneMeaning(pat: Text, p: nat, cs: Chars, repeat: Repeat)
    requires AreChars(cs) && StandsAt(pat, p, CharsText(cs) + RepeatText(repeat))
    requires !IsRepeat(At(pat, p + |CharsText(cs)| + |RepeatText(repeat)|))
    ensures ItemAt(pat, p) == Char(p + |CharsText(cs)|, repeat, p + |CharsText(cs)| + |RepeatText(repeat)|)
  {
    hide *;
    StandsSplit(pat, p, CharsText(cs), RepeatText(repeat));
    CharsMeaning((l, c) => false, pat, 0, p, cs);
    NoOtherItem(pat, p, cs);
    if repeat != Once {
      StandsChars(pat, p + |CharsText(cs)|, RepeatText(repeat));
    }
    CharItemIs(pat, p, p + |CharsText(cs)|, repeat);
  }

  lemma CharItemIs(pat: Text, p: nat, ep: nat, repeat: Repeat)
    requires At(pat, p) != 0 && ClassEnd(pat, p) == Some(ep) && !IsRepeat(At(pat, ep + |RepeatText(repeat)|))
    requires repeat != Once ==> forall k :: 0 <= k < |RepeatText(repeat)| ==> At(pat, ep + k) == RepeatText(repeat)[k]
    ensures CharItem(pat, p) == Char(ep, repeat, ep + |RepeatText(repeat)|)
  {
    hide ClassEnd;
    hide At;
    assert repeat != Once ==> At(pat, ep + 0) == RepeatText(repeat)[0];
  }

  lemma NoOtherItem(pat: Text, p: nat, cs: Chars)
    requires AreChars(cs) && StandsAt(pat, p, CharsText(cs))
    ensures At(pat, p) != 0 && ItemAt(pat, p) == CharItem(pat, p)
  {
    StandsChars(pat, p, CharsText(cs));
    if cs.Literal? {
      MagicOnes(cs.c);
    }
    hide CharItem;
  }

  lemma BorderMeaning(pat: Text, p: nat, complement: bool, es: seq<Element>)
    requires AreChars(SetOf(complement, es)) && StandsAt(pat, p, ['%' as int, 'f' as int] + CharsText(SetOf(complement, es)))
    ensures StandsAt(pat, p + 2, CharsText(SetOf(complement, es)))
    ensures ItemAt(pat, p) == Frontier(p + 2, p + 2 + |CharsText(SetOf(complement, es))|)
  {
    var head := ['%' as int, 'f' as int];
    StandsSplit(pat, p, head, CharsText(SetOf(complement, es)));
    StandsChar(pat, p, head, 0);
    StandsChar(pat, p, head, 1);
    CharsMeaning((l, c) => false, pat, 0, p + 2, SetOf(complement, es));
    hide ClassEnd;
  }

  /** A run of characters that the item accepts is one of characters that the piece has. */
  lemma RunMeaning(ct: Ctype, src: Text, pat: Text, s: nat, n: nat, p: nat, cs: Chars)
    requires AreChars(cs) && StandsAt(pat, p, CharsText(cs))
    ensures RunOf(ct, src, pat, s, n, p, p + |CharsText(cs)|) <==> AllHave(ct, src, s, n, cs)
  {
    forall j | s <= j < s + n && s + n <= |src|
      ensures Accepts(ct, pat, src[j], p, p + |CharsText(cs)|) <==> Has(ct, cs, src[j])
    {
      CharsMeaning(ct, pat, src[j], p, cs);
    }
  }

  lemma FrontierMeaning(ct: Ctype, src: Text, pat: Text, s: nat, p: nat, complement: bool, es: seq<Element>)
    requires s <= |src| && AreChars(SetOf(complement, es)) && StandsAt(pat, p, CharsText(SetOf(complement, es)))
    ensures var n := |CharsText(SetOf(complement, es))|;
      AtFrontier(ct, src, pat, s, p, p + n) <==> OnBorder(ct, src, s, SetOf(complement, es))
  {
    SetMeaning(ct, pat, if s == 0 then 0 else src[s - 1], p, complement, es);
    SetMeaning(ct, pat, if s == |src| then 0 else src[s], p, complement, es);
    hide BracketAccepts;
    hide Has;
  }

  /** Matching the text of the pieces in a given way is matching the pieces in that way. */
  ghost predicate Same(ct: Ctype, src: Text, pat: Text, p: nat, ps: seq<Piece>, toEnd: bool) {
    forall s: nat, caps, w :: s <= |src| && CapsOk(src, s, caps) ==>
      Follow(ct, src, pat, p, s, caps, w) == Reads(ct, src, ps, toEnd, s, caps, w)
  }

  lemma {:induction false} FollowMeaning(ct: Ctype, src: Text, pat: Text, p: nat, ps: seq<Piece>, toEnd: bool)
    requires Written(pat, p, ps, toEnd)
    ensures Same(ct, src, pat, p, ps, toEnd)
    decreases |ps|
  {
    hide *;
    if ps == [] {
      WrittenEnd(pat, p, toEnd);
      SameAtEnd(ct, src, pat, p, toEnd);
    } else {
      ItemMeaning(pat, p, ps, toEnd);
      WrittenNext(pat, p, ps, toEnd);
      WrittenPieces(pat, p, ps, toEnd);
      FollowMeaning(ct, src, pat, p + |PieceText(ps[0])|, ps[1..], toEnd);
      forall s: nat, caps, w | s <= |src| && CapsOk(src, s, caps)
        ensures Follow(ct, src, pat, p, s, caps, w) == Reads(ct, src, ps, toEnd, s, caps, w)
      {
        match ps[0]
        case One(cs, repeat) => OneStep(ct, src, pat, p, ps, toEnd, s, caps, w);
        case Border(complement, es) => BorderStep(ct, src, pat, p, ps, toEnd, s, caps, w);
        case _ => OtherStep(ct, src, pat, p, ps, toEnd, s, caps, w);
      }
      SameIs(ct, src, pat, p, ps, toEnd);
    }
  }

  lemma SameAtEnd(ct: Ctype, src: Text, pat: Text, p: nat, toEnd: bool)
    requires ItemAt(pat, p) == if toEnd then EndAnchor else EndOfPattern
    ensures Same(ct, src, pat, p, [], toEnd)
  {
    hide ItemAt;
  }

  lemma SameIs(ct: Ctype, src: Text, pat: Text, p: nat, ps: seq<Piece>, toEnd: bool)
    requires forall s: nat, caps, w :: s <= |src| && CapsOk(src, s, caps) ==>
      Follow(ct, src, pat, p, s, caps, w) == Reads(ct, src, ps, toEnd, s, caps, w)
    ensures Same(ct, src, pat, p, ps, toEnd)
  {
  }

  lemma WrittenPieces(pat: Text, p: nat, ps: seq<Piece>, toEnd: bool)
    requires Written(pat, p, ps, toEnd) && ps != []
    ensures IsPiece(ps[0]) && p + |PieceText(ps[0])| <= |pat|
  {
    WrittenNext(pat, p, ps, toEnd);
    WrittenIs(pat, p + |PieceText(ps[0])|, ps[1..], toEnd);
    hide Written;
    WrittenIs(pat, p, ps, toEnd);
    hide PatternText;
    LaterPieces(ps);
  }

  lemma OneStep(ct: Ctype, src: Text, pat: Text, p: nat, ps: seq<Piece>, toEnd: bool, s: nat, caps: seq<Capture>, w: Way)
    requires ps != [] && ps[0].One? && IsPiece(ps[0]) && ItemAt(pat, p) == ItemOf(ps[0], p) && StandsAt(pat, p, PieceText(ps[0]))
    requires Same(ct, src, pat, p + |PieceText(ps[0])|, ps[1..], toEnd) && s <= |src| && CapsOk(src, s, caps)
    ensures Follow(ct, src, pat, p, s, caps, w) == Reads(ct, src, ps, toEnd, s, caps, w)
  {
    hide *;
    var cs, n := ps[0].cs, if ps[0].repeat == Once then 1 else if w != [] then w[0] else 0;
    OneText(pat, p, cs, ps[0].repeat);
    RunMeaning(ct, src, pat, s, n, p, cs);
    HaveInside(ct, src, s, n, cs);
    if ps[0].repeat == Once {
      OnceStep(ct, src, pat, p, ps, toEnd, s, caps, w);
    } else {
      RepeatStep(ct, src, pat, p, ps, toEnd, s, caps, w);
    }
  }

  lemma OneText(pat: Text, p: nat, cs: Chars, repeat: Repeat)
    requires IsPiece(One(cs, repeat)) && StandsAt(pat, p, PieceText(One(cs, repeat)))
    ensures AreChars(cs) && StandsAt(pat, p, CharsText(cs))
  {
    hide AreChars;
    StandsSplit(pat, p, CharsText(cs), RepeatText(repeat));
  }

  lemma HaveInside(ct: Ctype, src: Text, s: nat, n: nat, cs: Chars)
    ensures AllHave(ct, src, s, n, cs) ==> s + n <= |src|
  {
  }

  lemma OnceStep(ct: Ctype, src: Text, pat: Text, p: nat, ps: seq<Piece>, toEnd: bool, s: nat, caps: seq<Capture>, w: Way)
    requires ps != [] && ps[0].One? && ps[0].repeat == Once && IsPiece(ps[0]) && ItemAt(pat, p) == ItemOf(ps[0], p)
    requires Same(ct, src, pat, p + |PieceText(ps[0])|, ps[1..], toEnd) && s <= |src| && CapsOk(src, s, caps)
    requires RunOf(ct, src, pat, s, 1, p, p + |CharsText(ps[0].cs)|) <==> AllHave(ct, src, s, 1, ps[0].cs)
    requires AllHave(ct, src, s, 1, ps[0].cs) ==> s + 1 <= |src|
    ensures Follow(ct, src, pat, p, s, caps, w) == Reads(ct, src, ps, toEnd, s, caps, w)
  {
    hide ItemAt;
    hide RunOf;
    hide AllHave;
    hide CharsText;
    hide IsPiece;
  }

  lemma RepeatStep(ct: Ctype, src: Text, pat: Text, p: nat, ps: seq<Piece>, toEnd: bool, s: nat, caps: seq<Capture>, w: Way)
    requires ps != [] && ps[0].One? && ps[0].repeat != Once && IsPiece(ps[0]) && ItemAt(pat, p) == ItemOf(ps[0], p)
    requires Same(ct, src, pat, p + |PieceText(ps[0])|, ps[1..], toEnd) && s <= |src| && CapsOk(src, s, caps)
    requires w != [] ==> (RunOf(ct, src, pat, s, w[0], p, p + |CharsText(ps[0].cs)|) <==> AllHave(ct, src, s, w[0], ps[0].cs))
    requires w != [] && AllHave(ct, src, s, w[0], ps[0].cs) ==> s + w[0] <= |src|
    ensures Follow(ct, src, pat, p, s, caps, w) == Reads(ct, src, ps, toEnd, s, caps, w)
  {
    hide ItemAt;
    hide RunOf;
    hide AllHave;
    hide CharsText;
    hide IsPiece;
  }

  lemma BorderStep(ct: Ctype, src: Text, pat: Text, p: nat, ps: seq<Piece>, toEnd: bool, s: nat, caps: seq<Capture>, w: Way)
    requires ps != [] && ps[0].Border? && IsPiece(ps[0]) && ItemAt(pat, p) == ItemOf(ps[0], p) && StandsAt(pat, p, PieceText(ps[0]))
    requires Same(ct, src, pat, p + |PieceText(ps[0])|, ps[1..], toEnd) && s <= |src| && CapsOk(src, s, caps)
    ensures Follow(ct, src, pat, p, s, caps, w) == Reads(ct, src, ps, toEnd, s, caps, w)
  {
    hide *;
    BorderText(pat, p, ps[0].complement, ps[0].es);
    BorderMeaning(pat, p, ps[0].complement, ps[0].es);
    FrontierMeaning(ct, src, pat, s, p + 2, ps[0].complement, ps[0].es);
    BorderCore(ct, src, pat, p, ps, toEnd, s, caps, w);
  }

  lemma BorderText(pat: Text, p: nat, complement: bool, es: seq<Element>)
    requires IsPiece(Border(complement, es)) && StandsAt(pat, p, PieceText(Border(complement, es)))
    ensures AreChars(SetOf(complement, es)) && StandsAt(pat, p, ['%' as int, 'f' as int] + CharsText(SetOf(complement, es)))
    ensures |PieceText(Border(complement, es))| == 2 + |CharsText(SetOf(complement, es))|
  {
    hide AreChars;
    hide StandsAt;
  }

  lemma BorderCore(ct: Ctype, src: Text, pat: Text, p: nat, ps: seq<Piece>, toEnd: bool, s: nat, caps: seq<Capture>, w: Way)
    requires ps != [] && ps[0].Border? && IsPiece(ps[0]) && ItemAt(pat, p) == ItemOf(ps[0], p) && s <= |src| && CapsOk(src, s, caps)
    requires Same(ct, src, pat, p + |PieceText(ps[0])|, ps[1..], toEnd)
    requires AtFrontier(ct, src, pat, s, p + 2, p + |PieceText(ps[0])|) <==> OnBorder(ct, src, s, SetOf(ps[0].complement, ps[0].es))
    ensures Follow(ct, src, pat, p, s, caps, w) == Reads(ct, src, ps, toEnd, s, caps, w)
  {
    hide ItemAt;
    hide AtFrontier;
    hide OnBorder;
    hide IsPiece;
    hide CharsText;
  }

  lemma OtherStep(ct: Ctype, src: Text, pat: Text, p: nat, ps: seq<Piece>, toEnd: bool, s: nat, caps: seq<Capture>, w: Way)
    requires ps != [] && !ps[0].One? && !ps[0].Border? && IsPiece(ps[0]) && ItemAt(pat, p) == ItemOf(ps[0], p)
    requires Same(ct, src, pat, p + |PieceText(ps[0])|, ps[1..], toEnd) && s <= |src| && CapsOk(src, s, caps)
    ensures Follow(ct, src, pat, p, s, caps, w) == Reads(ct, src, ps, toEnd, s, caps, w)
  {
    hide ItemAt;
    hide Balance;
    hide LastOpen;
  }

  lemma {:induction false} BeforeMeaning(pat: Text, p: nat, ps: seq<Piece>, toEnd: bool, w: Way, w1: Way)
    requires Written(pat, p, ps, toEnd)
    ensures Before(pat, p, w, w1) == Prefers(ps, w, w1)
    decreases |ps|
  {
    hide *;
    if ps == [] {
      WrittenEnd(pat, p, toEnd);
      BeforeEnd(pat, p, w, w1);
    } else {
      ItemMeaning(pat, p, ps, toEnd);
      WrittenNext(pat, p, ps, toEnd);
      WrittenPieces(pat, p, ps, toEnd);
      var next := p + |PieceText(ps[0])|;
      BeforeStep(pat, p, ps, w, w1);
      if !ps[0].One? || ps[0].repeat == Once {
        BeforeMeaning(pat, next, ps[1..], toEnd, w, w1);
      } else if w != [] && w1 != [] && w[0] == w1[0] {
        BeforeMeaning(pat, next, ps[1..], toEnd, w[1..], w1[1..]);
      }
    }
  }

  lemma BeforeEnd(pat: Text, p: nat, w: Way, w1: Way)
    requires ItemAt(pat, p).EndAnchor? || ItemAt(pat, p).EndOfPattern?
    ensures !Before(pat, p, w, w1) && !Prefers([], w, w1)
  {
    hide ItemAt;
  }

  lemma BeforeStep(pat: Text, p: nat, ps: seq<Piece>, w: Way, w1: Way)
    requires ps != [] && IsPiece(ps[0]) && ItemAt(pat, p) == ItemOf(ps[0], p) && p + |PieceText(ps[0])| <= |pat|
    ensures var next := p + |PieceText(ps[0])|;
      if !ps[0].One? || ps[0].repeat == Once
      then Before(pat, p, w, w1) == Before(pat, next, w, w1) && Prefers(ps, w, w1) == Prefers(ps[1..], w, w1)
      else if w != [] && w1 != [] && w[0] == w1[0]
      then Before(pat, p, w, w1) == Before(pat, next, w[1..], w1[1..]) && Prefers(ps, w, w1) == Prefers(ps[1..], w[1..], w1[1..])
      else Before(pat, p, w, w1) == Prefers(ps, w, w1)
  {
    hide ItemAt;
    hide IsPiece;
    hide CharsText;
  }

  /** The pieces match up to `r`, or lead to an error, in a way that is preferred to all others that end in either. */
  ghost predicate BestReading(ct: Ctype, src: Text, ps: seq<Piece>, toEnd: bool, s: nat, r: Ending)
    requires s <= |src|
  {
    exists w :: Reads(ct, src, ps, toEnd, s, [], w) == Some(r)
      && forall w1 :: Reads(ct, src, ps, toEnd, s, [], w1).Some? ==> w1 == w || Prefers(ps, w, w1)
  }

  ghost predicate NoReading(ct: Ctype, src: Text, ps: seq<Piece>, toEnd: bool, s: nat)
    requires s <= |src|
  {
    forall w :: Reads(ct, src, ps, toEnd, s, [], w).None?
  }

  /** What match must return for the text of the pieces. */
  lemma AnswerMeaning(ct: Ctype, src: Text, pat: Text, p: nat, ps: seq<Piece>, toEnd: bool, s: nat, r: Option<Ending>)
    requires Written(pat, p, ps, toEnd) && s <= |src|
    ensures Answer(ct, src, pat, p, s, [], r) <==> if r.Some? then BestReading(ct, src, ps, toEnd, s, r.v) else NoReading(ct, src, ps, toEnd, s)
  {
    FollowMeaning(ct, src, pat, p, ps, toEnd);
    forall w, w1
      ensures Before(pat, p, w, w1) == Prefers(ps, w, w1)
    {
      BeforeMeaning(pat, p, ps, toEnd, w, w1);
    }
    hide Follow;
    hide Reads;
    hide Before;
    hide Prefers;
    hide Written;
  }

  // ---- patterns that raise no error ----

  /** What closes a capture or refers to one finds it; `st` tells which captures are open. */
  predicate Bracketed(ps: seq<Piece>, st: seq<bool>)
    decreases |ps|
  {
    ps == [] ||
    match ps[0]
    case Open => |st| < LUA_MAXCAPTURES && Bracketed(ps[1..], st + [true])
    case Position => |st| < LUA_MAXCAPTURES && Bracketed(ps[1..], st + [false])
    case Close => LastTrue(st).Some? && Bracketed(ps[1..], st[LastTrue(st).v := false])
    case Back(n) => 1 <= n <= |st| && !st[n - 1] && Bracketed(ps[1..], st)
    case _ => Bracketed(ps[1..], st)
  }

  lemma {:induction false} WellFormedMeaning(pat: Text, p: nat, ps: seq<Piece>, toEnd: bool, st: seq<bool>)
    requires Written(pat, p, ps, toEnd)
    ensures WellFormed(pat, p, st) <==> Bracketed(ps, st)
    decreases |ps|
  {
    hide *;
    if ps == [] {
      WrittenEnd(pat, p, toEnd);
      WellFormedEnd(pat, p, st);
    } else {
      ItemMeaning(pat, p, ps, toEnd);
      WrittenNext(pat, p, ps, toEnd);
      WrittenPieces(pat, p, ps, toEnd);
      forall st1
        ensures WellFormed(pat, p + |PieceText(ps[0])|, st1) <==> Bracketed(ps[1..], st1)
      {
        WellFormedMeaning(pat, p + |PieceText(ps[0])|, ps[1..], toEnd, st1);
      }
      WellFormedStep(pat, p, ps, st);
    }
  }

  lemma WellFormedEnd(pat: Text, p: nat, st: seq<bool>)
    requires ItemAt(pat, p).EndAnchor? || ItemAt(pat, p).EndOfPattern?
    ensures WellFormed(pat, p, st) && Bracketed([], st)
  {
    hide ItemAt;
  }

  lemma WellFormedStep(pat: Text, p: nat, ps: seq<Piece>, st: seq<bool>)
    requires ps != [] && IsPiece(ps[0]) && ItemAt(pat, p) == ItemOf(ps[0], p)
    requires forall st1 :: WellFormed(pat, p + |PieceText(ps[0])|, st1) <==> Bracketed(ps[1..], st1)
    ensures WellFormed(pat, p, st) <==> Bracketed(ps, st)
  {
    hide ItemAt;
    hide IsPiece;
    hide CharsText;
  }

  // ---- simple patterns ----

  /** A piece that repeats characters matches as many as it can, or with a hyphen as few as it may. */
  lemma RepeatAlone(ct: Ctype, src: Text, cs: Chars, s: nat, n: nat)
    requires s <= |src| && AllHave(ct, src, s, n, cs) && !AllHave(ct, src, s, n + 1, cs)
    ensures BestReading(ct, src, [One(cs, Star)], false, s, Matched(s + n, []))
    ensures n >= 1 ==> BestReading(ct, src, [One(cs, Plus)], false, s, Matched(s + n, []))
    ensures n == 0 ==> NoReading(ct, src, [One(cs, Plus)], false, s)
    ensures BestReading(ct, src, [One(cs, Optional)], false, s, Matched(s + if n >= 1 then 1 else 0, []))
    ensures BestReading(ct, src, [One(cs, Minus)], false, s, Matched(s, []))
  {
    hide Has;
    AloneReads(ct, src, cs, s);
    RunsShorter(ct, src, cs, s);
    hide AllHave;
    hide Reads;
    assert forall m: nat :: AllHave(ct, src, s, m, cs) ==> m <= n;
    BestAlone(ct, src, cs, Star, s, n);
    if n >= 1 {
      BestAlone(ct, src, cs, Plus, s, n);
    }
    BestAlone(ct, src, cs, Optional, s, if n >= 1 then 1 else 0);
    BestAlone(ct, src, cs, Minus, s, 0);
  }

  lemma RunsShorter(ct: Ctype, src: Text, cs: Chars, s: nat)
    ensures forall m: nat, k: nat :: AllHave(ct, src, s, m, cs) && k <= m ==> AllHave(ct, src, s, k, cs)
  {
    hide Has;
  }

  function Alone(ct: Ctype, src: Text, cs: Chars, rep: Repeat, s: nat, w: Way): Option<Ending> {
    if |w| == 1 && (rep == Optional ==> w[0] <= 1) && (rep == Plus ==> w[0] >= 1) && AllHave(ct, src, s, w[0], cs)
    then Some(Matched(s + w[0], [])) else None
  }

  lemma AloneReads(ct: Ctype, src: Text, cs: Chars, s: nat)
    requires s <= |src|
    ensures forall rep, w :: rep != Once ==> Reads(ct, src, [One(cs, rep)], false, s, [], w) == Alone(ct, src, cs, rep, s, w)
    ensures AllHave(ct, src, s, 0, cs) && (forall n: nat :: AllHave(ct, src, s, n, cs) && n >= 1 ==> AllHave(ct, src, s, 1, cs))
  {
    hide Has;
    forall rep, w | rep != Once
      ensures Reads(ct, src, [One(cs, rep)], false, s, [], w) == Alone(ct, src, cs, rep, s, w)
    {
      var ps := [One(cs, rep)];
      assert ps[1..] == [];
    }
  }

  lemma BestAlone(ct: Ctype, src: Text, cs: Chars, rep: Repeat, s: nat, n: nat)
    requires s <= |src| && rep != Once && AllHave(ct, src, s, n, cs) && (rep == Optional ==> n <= 1) && (rep == Plus ==> n >= 1)
    requires forall w :: Reads(ct, src, [One(cs, rep)], false, s, [], w) == Alone(ct, src, cs, rep, s, w)
    requires forall m: nat :: AllHave(ct, src, s, m, cs) && (rep == Optional ==> m <= 1) ==> if rep == Minus then n <= m else m <= n
    ensures BestReading(ct, src, [One(cs, rep)], false, s, Matched(s + n, []))
  {
    hide Reads;
    hide AllHave;
    assert Reads(ct, src, [One(cs, rep)], false, s, [], [n]) == Some(Matched(s + n, []));
    forall w1 | Reads(ct, src, [One(cs, rep)], false, s, [], w1).Some?
      ensures w1 == [n] || Prefers([One(cs, rep)], [n], w1)
    {
      assert w1 == [w1[0]];
    }
  }

  /** The pieces of a text without magic characters. */
  function Literals(t: Text): seq<Piece> {
    seq(|t|, i requires 0 <= i < |t| => One(Literal(t[i]), Once))
  }

  predicate Occurs(src: Text, s: nat, t: Text) {
    s + |t| <= |src| && src[s..s + |t|] == t
  }

  /** Text without magic characters matches itself. */
  lemma {:induction false} LiteralReads(ct: Ctype, src: Text, t: Text, toEnd: bool, s: nat, caps: seq<Capture>, w: Way)
    requires s <= |src| && CapsOk(src, s, caps)
    ensures Reads(ct, src, Literals(t), toEnd, s, caps, w) ==
            if w == [] && Occurs(src, s, t) && (toEnd ==> s + |t| == |src|) then Some(Matched(s + |t|, caps)) else None
    decreases |t|
  {
    if t != [] {
      var ps := Literals(t);
      assert ps[0] == One(Literal(t[0]), Once) && ps[1..] == Literals(t[1..]);
      assert AllHave(ct, src, s, 1, Literal(t[0])) <==> s < |src| && src[s] == t[0];
      if s < |src| && src[s] == t[0] {
        LiteralReads(ct, src, t[1..], toEnd, s + 1, caps, w);
        OccursNext(src, s, t);
      }
    }
  }

  lemma OccursNext(src: Text, s: nat, t: Text)
    requires s < |src| && t != [] && src[s] == t[0]
    ensures Occurs(src, s, t) <==> Occurs(src, s + 1, t[1..])
  {
    if Occurs(src, s + 1, t[1..]) {
      assert src[s..s + |t|] == [src[s]] + src[s + 1..s + |t|] && t == [t[0]] + t[1..];
    }
    if Occurs(src, s, t) {
      assert src[s + 1..s + |t|] == src[s..s + |t|][1..];
    }
  }

  /** What stands between two parentheses captures the text that it matches. */
  lemma CaptureReads(ct: Ctype, src: Text, ps: seq<Piece>, s: nat, w: Way)
    requires s <= |src| && forall i :: 0 <= i < |ps| ==> ps[i].One?
    ensures Reads(ct, src, [Open] + (ps + [Close]), false, s, [], w) ==
            match Reads(ct, src, ps, false, s, [], w)
            case None => None
            case Some(m) => if m.Broken? then Some(Broken) else Some(Matched(m.end, [Capture(s, m.end - s)]))
  {
    var all := [Open] + (ps + [Close]);
    assert all[0] == Open && all[1..] == ps + [Close];
    InsideReads(ct, src, ps, s, s, w);
    assert [] + [Capture(s, CAP_UNFINISHED)] == [Capture(s, CAP_UNFINISHED)];
  }

  lemma {:induction false} InsideReads(ct: Ctype, src: Text, ps: seq<Piece>, start: nat, s: nat, w: Way)
    requires start <= s <= |src| && forall i :: 0 <= i < |ps| ==> ps[i].One?
    ensures Reads(ct, src, ps + [Close], false, s, [Capture(start, CAP_UNFINISHED)], w) ==
            match Reads(ct, src, ps, false, s, [], w)
            case None => None
            case Some(m) => if m.Broken? then Some(Broken) else Some(Matched(m.end, [Capture(start, m.end - start)]))
    decreases |ps|
  {
    hide Has;
    if ps == [] {
      assert ps + [Close] == [Close] && [Close][1..] == [];
      assert LastOpen([Capture(start, CAP_UNFINISHED)]) == Some(0);
      assert [Capture(start, CAP_UNFINISHED)][0 := Capture(start, s - start)] == [Capture(start, s - start)];
      assert Reads(ct, src, [Close], false, s, [Capture(start, CAP_UNFINISHED)], w) ==
          Reads(ct, src, [], false, s, [Capture(start, s - start)], w);
    } else {
      assert (ps + [Close])[1..] == ps[1..] + [Close];
      if ps[0].repeat == Once {
        if AllHave(ct, src, s, 1, ps[0].cs) {
          InsideReads(ct, src, ps[1..], start, s + 1, w);
        }
      } else if w != [] && AllHave(ct, src, s, w[0], ps[0].cs) {
        InsideReads(ct, src, ps[1..], start, s + w[0], w[1..]);
      }
    }
  }
}
