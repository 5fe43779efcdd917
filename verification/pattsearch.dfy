/** string.find and string.match, for patterns that are given as pieces. */
module PatternSearches {
  import opened Limits
  import opened Wrappers
  import opened Patterns
  import opened Ways
  import opened PatternTexts
  import opened PatternMeanings
  import opened PatternMatcher

  /** The text that string.find gets; `^` lets it match at the first position only. */
  function SearchText(ps: seq<Piece>, toEnd: bool, fromStart: bool): Text
    requires ArePieces(ps)
  {
    (if fromStart then ['^' as int] else []) + PatternText(ps, toEnd)
  }

  lemma SearchTextWritten(ps: seq<Piece>, toEnd: bool, fromStart: bool)
    requires ArePieces(ps)
    ensures var pat := SearchText(ps, toEnd, fromStart);
      (At(pat, 0) == '^' as int <==> fromStart) && Written(pat, if fromStart then 1 else 0, ps, toEnd)
  {
    TextStart(ps, toEnd);
    WrittenIs(SearchText(ps, toEnd, fromStart), if fromStart then 1 else 0, ps, toEnd);
    hide Written;
    hide ArePieces;
    hide PatternText;
  }

  /** What a search that began at `init` has found: the first position at which the pieces match or lead to an error,
      with what is preferred there, or that there is none. */
  ghost predicate Found(ct: Ctype, src: Text, ps: seq<Piece>, toEnd: bool, fromStart: bool, init: nat, r: Outcome, start: nat, caps: seq<Capture>) {
    && (r.MatchedTo? ==> init <= start <= |src| && (fromStart ==> start == init) && BestReading(ct, src, ps, toEnd, start, Matched(r.end, caps)))
    && (r.Error? ==> init <= start <= |src| && (fromStart ==> start == init) && BestReading(ct, src, ps, toEnd, start, Broken))
    && forall s: nat :: init <= s <= |src| && (fromStart ==> s == init) && (r.NoMatch? || s < start) ==> NoReading(ct, src, ps, toEnd, s)
  }

  /** Every pattern of pieces, with or without anchors. Without captures in wrong places there is no error. */
  method FindPieces(ct: Ctype, src: Text, ps: seq<Piece>, toEnd: bool, fromStart: bool, init: nat) returns (r: Outcome, start: nat, caps: seq<Capture>)
    requires ArePieces(ps) && init <= |src|
    ensures Bracketed(ps, []) ==> !r.Error?
    ensures Found(ct, src, ps, toEnd, fromStart, init, r, start, caps)
  {
    var pat := SearchText(ps, toEnd, fromStart);
    ghost var p := if fromStart then 1 else 0;
    SearchTextWritten(ps, toEnd, fromStart);
    WellFormedMeaning(pat, p, ps, toEnd, []);
    NoneCaptured(src);
    hide Written;
    hide ArePieces;
    hide Bracketed;
    hide WellFormed;
    hide SearchText;
    var ms := new MatchState(ct, src, pat);
    r, start := ms.FindFirst(init);
    caps := ms.capture[..ms.level];
    FoundNow(ct, src, pat, ps, toEnd, fromStart, init, r, start, caps);
  }

  lemma NoneCaptured(src: Text)
    ensures forall s: nat :: CapsOk(src, s, [])
  {
  }

  lemma FoundNow(ct: Ctype, src: Text, pat: Text, ps: seq<Piece>, toEnd: bool, fromStart: bool, init: nat, r: Outcome, start: nat, caps: seq<Capture>)
    requires Written(pat, if fromStart then 1 else 0, ps, toEnd) && init <= |src| && init <= start && (fromStart ==> start == init)
    requires var p := if fromStart then 1 else 0;
      && (r.MatchedTo? ==> start <= r.end <= |src| && Answer(ct, src, pat, p, start, [], Some(Matched(r.end, caps))))
      && (r.Error? ==> start <= |src| && Answer(ct, src, pat, p, start, [], Some(Broken)))
      && forall s: nat :: init <= s <= |src| && (p == 0 || s == init) && (r.NoMatch? || s < start) ==> NoWay(ct, src, pat, p, s, [])
    ensures Found(ct, src, ps, toEnd, fromStart, init, r, start, caps)
  {
    hide Written;
    hide BestReading;
    hide NoReading;
    hide NoWay;
    hide FirstWay;
    var p := if fromStart then 1 else 0;
    if r.MatchedTo? {
      AnswerMeaning(ct, src, pat, p, ps, toEnd, start, Some(Matched(r.end, caps)));
    }
    if r.Error? {
      AnswerMeaning(ct, src, pat, p, ps, toEnd, start, Some(Broken));
    }
    forall s: nat | init <= s <= |src| && (fromStart ==> s == init) && (r.NoMatch? || s < start)
      ensures NoReading(ct, src, ps, toEnd, s)
    {
      AnswerMeaning(ct, src, pat, p, ps, toEnd, s, None);
    }
  }

  // ---- patterns that are no pieces ----

  /** An escape character at the end, a set without its bracket, `%b` without two characters, `%f` without a set. */
  predicate Unfinished(pat: Text, p: nat) {
    || (At(pat, p) == L_ESC && At(pat, p + 1) == 0)
    || (At(pat, p) == '[' as int && forall i :: p + 2 <= i < |pat| ==> pat[i] != ']' as int)
    || (At(pat, p) == L_ESC && At(pat, p + 1) == 'b' as int && (At(pat, p + 2) == 0 || At(pat, p + 3) == 0))
    || (At(pat, p) == L_ESC && At(pat, p + 1) == 'f' as int && At(pat, p + 2) != '[' as int)
  }

  lemma {:induction false} NoBracket(pat: Text, q: nat)
    requires forall i :: q < i < |pat| ==> pat[i] != ']' as int
    ensures SetEnd(pat, q).None?
    decreases |pat| - q
  {
    if At(pat, q) != 0 {
      NoBracket(pat, SetStep(pat, q));
    }
  }

  /** Such a pattern is an error wherever the search comes to it. */
  lemma UnfinishedFails(ct: Ctype, src: Text, pat: Text, p: nat, s: nat, caps: seq<Capture>, r: Option<Ending>)
    requires Unfinished(pat, p) && s <= |src| && CapsOk(src, s, caps) && Answer(ct, src, pat, p, s, caps, r)
    ensures r == Some(Broken)
  {
    hide Answer;
    hide CapsOk;
    if At(pat, p) == '[' as int {
      NoBracket(pat, p + 1);
      if At(pat, p + 1) != 0 {
        NoBracket(pat, p + 2);
      }
    }
    AtError(ct, src, pat, p, s, caps);
    AnswerUnique(ct, src, pat, p, s, caps, r, Some(Broken));
  }

  predicate NoMagic(t: Text) {
    forall i :: 0 <= i < |t| ==> t[i] != 0 && !IsMagic(t[i])
  }

  lemma {:induction false} LiteralsFine(t: Text, st: seq<bool>)
    requires NoMagic(t)
    ensures ArePieces(Literals(t)) && Bracketed(Literals(t), st) && PatternText(Literals(t), false) == t
  {
    if t != [] {
      LiteralsFine(t[1..], st);
      assert Literals(t)[1..] == Literals(t[1..]);
      assert CharsText(Literal(t[0])) + RepeatText(Once) == [t[0]];
      assert t == [t[0]] + t[1..];
    }
  }

  /** A pattern without magic characters is found exactly where it occurs first. */
  method FindText(ct: Ctype, src: Text, t: Text, init: nat) returns (r: Outcome, start: nat)
    requires NoMagic(t) && init <= |src|
    ensures r.MatchedTo? ==> init <= start && Occurs(src, start, t) && r.end == start + |t|
    ensures !r.Error? && forall s: nat :: init <= s <= |src| && (r.NoMatch? || s < start) ==> !Occurs(src, s, t)
  {
    LiteralsFine(t, []);
    hide *;
    var caps;
    r, start, caps := FindPieces(ct, src, Literals(t), false, false, init);
    TextFound(ct, src, t, init, r, start, caps);
  }

  lemma TextFound(ct: Ctype, src: Text, t: Text, init: nat, r: Outcome, start: nat, caps: seq<Capture>)
    requires Found(ct, src, Literals(t), false, false, init, r, start, caps)
    ensures r.MatchedTo? ==> init <= start && Occurs(src, start, t) && r.end == start + |t|
    ensures forall s: nat :: init <= s <= |src| && (r.NoMatch? || s < start) ==> !Occurs(src, s, t)
  {
    hide Reads;
    hide Occurs;
    hide Literals;
    if r.MatchedTo? {
      var w :| Reads(ct, src, Literals(t), false, start, [], w) == Some(Matched(r.end, caps));
      LiteralReads(ct, src, t, false, start, [], w);
    }
    forall s: nat | init <= s <= |src| && (r.NoMatch? || s < start)
      ensures !Occurs(src, s, t)
    {
      LiteralReads(ct, src, t, false, s, [], []);
      assert NoReading(ct, src, Literals(t), false, s);
    }
  }
}
