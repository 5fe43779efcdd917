/** The matcher of lstrlib.c: a backtracking search that updates its captures in place. */
module PatternMatcher {
  import opened Limits
  import opened Patterns
  import opened Wrappers
  import opened Ways

  datatype Outcome = Error | NoMatch | MatchedTo(end: nat)

  class MatchState {
    const ct: Ctype
    const src: Text
    const pat: Text
    var level: nat
    const capture: array<Capture>

    ghost predicate Valid()
      reads this, capture
    {
      capture.Length == LUA_MAXCAPTURES && level <= LUA_MAXCAPTURES
    }

    ghost function Caps(): seq<Capture>
      requires level <= capture.Length
      reads this, capture
    {
      capture[..level]
    }

    constructor (ctype: Ctype, subject: Text, pattern: Text)
      ensures Valid() && fresh(capture) && level == 0 && ct == ctype && src == subject && pat == pattern
    {
      ct, src, pat, level := ctype, subject, pattern, 0;
      capture := new Capture[LUA_MAXCAPTURES];
    }

    /** classend. */
    method FindClassEnd(p: nat) returns (r: Option<nat>)
      requires At(pat, p) != 0
      ensures r == ClassEnd(pat, p)
    {
      var q := p + 1;
      if At(pat, p) == L_ESC {
        if At(pat, q) == 0 {
          return None;
        }
        return Some(q + 1);
      } else if At(pat, p) == '[' as int {
        if At(pat, q) == '^' as int {
          q := q + 1;
        }
        ghost var from := q;
        while true
          invariant SetEnd(pat, from) == SetEnd(pat, q)
          decreases |pat| - q
        {
          if At(pat, q) == 0 {
            return None;
          }
          var escaped := At(pat, q) == L_ESC;
          q := q + 1;
          if escaped && At(pat, q) != 0 {
            q := q + 1;
          }
          if At(pat, q) == ']' as int {
            return Some(q + 1);
          }
        }
      }
      r := Some(q);
    }

    /** matchbracketclass. */
    method MatchBracketClass(c: Byte, p0: nat, ec: nat) returns (m: bool)
      ensures m == BracketAccepts(ct, pat, c, p0, ec)
    {
      var sig := true;
      var p := p0;
      if At(pat, p + 1) == '^' as int {
        sig := false;
        p := p + 1;
      }
      ghost var from := p + 1;
      p := p + 1;
      while p < ec
        invariant SetAccepts(ct, pat, c, from, ec) == SetAccepts(ct, pat, c, p, ec)
      {
        if At(pat, p) == L_ESC {
          p := p + 1;
          if MatchClass(ct, c, At(pat, p)) {
            return sig;
          }
        } else if At(pat, p + 1) == '-' as int && p + 2 < ec {
          p := p + 2;
          if At(pat, p - 2) <= c && c <= At(pat, p) {
            return sig;
          }
        } else if At(pat, p) == c {
          return sig;
        }
        p := p + 1;
      }
      m := !sig;
    }

    /** singlematch. */
    method SingleMatch(c: Byte, p: nat, ep: nat) returns (m: bool)
      requires ep > 0
      ensures m == Accepts(ct, pat, c, p, ep)
    {
      var x := At(pat, p);
      if x == '.' as int {
        m := true;
      } else if x == L_ESC {
        m := MatchClass(ct, c, At(pat, p + 1));
      } else if x == '[' as int {
        m := MatchBracketClass(c, p, ep - 1);
      } else {
        m := x == c;
      }
    }

    /** matchbalance; it is an error if the pattern does not give both delimiters. */
    method MatchBalance(s0: nat, p: nat) returns (unbalanced: bool, r: Option<nat>)
      requires s0 <= |src|
      ensures unbalanced <==> At(pat, p) == 0 || At(pat, p + 1) == 0
      ensures !unbalanced ==> r == Balance(src, s0, At(pat, p), At(pat, p + 1))
    {
      unbalanced := At(pat, p) == 0 || At(pat, p + 1) == 0;
      r := None;
      if unbalanced || At(src, s0) != At(pat, p) {
        return;
      }
      var b, e := At(pat, p), At(pat, p + 1);
      var cont, s := 1, s0 + 1;
      while s < |src|
        invariant s0 < s <= |src| && cont > 0
        invariant BalanceEnd(src, s0 + 1, b, e, 1) == BalanceEnd(src, s, b, e, cont)
      {
        if src[s] == e {
          cont := cont - 1;
          if cont == 0 {
            r := Some(s + 1);
            return;
          }
        } else if src[s] == b {
          cont := cont + 1;
        }
        s := s + 1;
      }
    }

    /** capture_to_close. */
    method CaptureToClose() returns (l: Option<nat>)
      requires Valid()
      ensures l == LastOpen(Caps())
    {
      var i := level;
      assert capture[..level] == Caps();
      while i > 0
        invariant 0 <= i <= level && LastOpen(Caps()) == LastOpen(capture[..i])
      {
        i := i - 1;
        assert capture[..i + 1][..i] == capture[..i];
        if capture[i].len == CAP_UNFINISHED {
          return Some(i);
        }
      }
      l := None;
    }

    /** What an outcome says about the ways to match. */
    ghost function Ended(r: Outcome): Option<Ending>
      requires level <= capture.Length
      reads this, capture
    {
      match r
      case Error => Some(Broken)
      case NoMatch => None
      case MatchedTo(end) => Some(Matched(end, Caps()))
    }

    /** What a call has found out. */
    ghost predicate Answered(p: nat, s: nat, caps: seq<Capture>, r: Outcome)
      requires s <= |src|
      reads this, capture
    {
      && Valid() && CapsOk(src, s, caps)
      && (r.Error? ==> !WellFormed(pat, p, OpenOnes(caps)))
      && Answer(ct, src, pat, p, s, caps, Ended(r))
      && (r.NoMatch? ==> Caps() == caps)
    }

    /** start_capture. */
    method DoStartCapture(s: nat, p: nat, next: nat, what: int) returns (r: Outcome)
      requires Valid() && s <= |src| && p < |pat| && CapsOk(src, s, Caps())
      requires ItemAt(pat, p) == StartCapture(what == CAP_POSITION, next) && (what == CAP_POSITION || what == CAP_UNFINISHED)
      modifies this`level, capture
      ensures Answered(p, s, old(Caps()), r)
      decreases |pat| - p, 1
    {
      ghost var caps := Caps();
      if level >= LUA_MAXCAPTURES {
        AtError(ct, src, pat, p, s, caps);
        return Error;
      }
      capture[level] := Capture(s, what);
      level := level + 1;
      assert Caps() == caps + [Capture(s, what)];
      OpenMore(caps, Capture(s, what));
      r := Match(s, next);
      if r.NoMatch? {
        level := level - 1;
        assert Caps() == (caps + [Capture(s, what)])[..level];
      }
      CaptureStarted(ct, src, pat, p, s, caps, Ended(r));
    }

    /** end_capture. */
    method DoEndCapture(s: nat, p: nat, next: nat) returns (r: Outcome)
      requires Valid() && s <= |src| && p < |pat| && CapsOk(src, s, Caps()) && ItemAt(pat, p) == EndCapture(next)
      modifies this`level, capture
      ensures Answered(p, s, old(Caps()), r)
      decreases |pat| - p, 1
    {
      ghost var caps := Caps();
      var l := CaptureToClose();
      LastOpenIs(caps);
      if l.None? {
        AtError(ct, src, pat, p, s, caps);
        return Error;
      }
      capture[l.v] := Capture(capture[l.v].init, s - capture[l.v].init);
      assert Caps() == Closed(caps, l.v, s);
      OpenLess(caps, l.v, s);
      r := Match(s, next);
      if r.NoMatch? {
        capture[l.v] := Capture(capture[l.v].init, CAP_UNFINISHED);
        assert Caps() == caps;
      }
      CaptureEnded(ct, src, pat, p, s, caps, l.v, Ended(r));
    }

    /** The case `%b` of match. */
    method MatchBalancedItem(s: nat, p: nat) returns (r: Outcome)
      requires Valid() && s <= |src| && p < |pat| && CapsOk(src, s, Caps()) && At(pat, p) == L_ESC && At(pat, p + 1) == 'b' as int
      modifies this`level, capture
      ensures Answered(p, s, old(Caps()), r)
      decreases |pat| - p, 1
    {
      ghost var caps := Caps();
      var unbalanced, e := MatchBalance(s, p + 2);
      if unbalanced {
        AtError(ct, src, pat, p, s, caps);
        return Error;
      }
      if e.None? {
        r := NoMatch;
      } else {
        CapsLater(src, s, e.v, caps);
        r := Match(e.v, p + 4);
      }
      BalancedDone(ct, src, pat, p, s, caps, Ended(r));
    }

    /** The case `%f` of match. */
    method MatchFrontier(s: nat, p0: nat) returns (r: Outcome)
      requires Valid() && s <= |src| && p0 < |pat| && CapsOk(src, s, Caps()) && At(pat, p0) == L_ESC && At(pat, p0 + 1) == 'f' as int
      modifies this`level, capture
      ensures Answered(p0, s, old(Caps()), r)
      decreases |pat| - p0, 1
    {
      ghost var caps := Caps();
      var p := p0 + 2;
      if At(pat, p) != '[' as int {
        AtError(ct, src, pat, p0, s, caps);
        return Error;
      }
      var ep := FindClassEnd(p);
      if ep.None? {
        AtError(ct, src, pat, p0, s, caps);
        return Error;
      }
      var previous := if s == 0 then 0 else At(src, s - 1);
      var before := MatchBracketClass(previous, p, ep.v - 1);
      var after := MatchBracketClass(At(src, s), p, ep.v - 1);
      if before || !after {
        r := NoMatch;
      } else {
        r := Match(s, ep.v);
      }
      FrontierDone(ct, src, pat, p0, s, caps, Ended(r));
    }

    /** match_capture and the case of match that calls it; check_capture finds the capture. */
    method MatchReference(s: nat, p: nat, digit: Byte) returns (r: Outcome)
      requires Valid() && s <= |src| && p < |pat| && CapsOk(src, s, Caps()) && At(pat, p) == L_ESC && At(pat, p + 1) == digit && IsDigit(digit)
      modifies this`level, capture
      ensures Answered(p, s, old(Caps()), r)
      decreases |pat| - p, 1
    {
      ghost var caps := Caps();
      var l := digit - '1' as int;
      if l < 0 || l >= level || capture[l].len == CAP_UNFINISHED {
        AtError(ct, src, pat, p, s, caps);
        return Error;
      }
      assert caps[l] == capture[l];
      var len := capture[l].len;
      if len >= 0 && |src| - s >= len && src[capture[l].init..capture[l].init + len] == src[s..s + len] {
        CapsLater(src, s, s + len, caps);
        r := Match(s + len, p + 2);
      } else {
        r := NoMatch;
      }
      ReferenceDone(ct, src, pat, p, s, caps, Ended(r));
    }

    /** The default case of match: a single character, perhaps repeated. */
    method MatchItem(s: nat, p: nat) returns (r: Outcome)
      requires Valid() && s <= |src| && p < |pat| && CapsOk(src, s, Caps()) && At(pat, p) != 0 && ItemAt(pat, p) == CharItem(pat, p)
      modifies this`level, capture
      ensures Answered(p, s, old(Caps()), r)
      decreases |pat| - p, 1
    {
      ghost var caps := Caps();
      var e := FindClassEnd(p);
      if e.None? {
        AtError(ct, src, pat, p, s, caps);
        return Error;
      }
      var ep := e.v;
      var m := false;
      if s < |src| {
        m := SingleMatch(src[s], p, ep);
      }
      var x := At(pat, ep);
      if x == '?' as int {
        r := MatchOptional(s, p, ep, m);
      } else if x == '*' as int {
        r := MaxExpand(s, p, ep, s);
      } else if x == '+' as int {
        if m {
          r := MaxExpand(s + 1, p, ep, s);
        } else {
          NothingTaken(ct, src, pat, p, s, caps);
          r := NoMatch;
        }
      } else if x == '-' as int {
        r := MinExpand(s, p, ep);
      } else {
        if m {
          CapsLater(src, s, s + 1, caps);
          r := Match(s + 1, ep);
        } else {
          r := NoMatch;
        }
        OnceDone(ct, src, pat, p, s, caps, Ended(r));
      }
    }

    /** The item `?`: first with the character, then without it. */
    method MatchOptional(s: nat, p: nat, ep: nat, m: bool) returns (r: Outcome)
      requires Valid() && s <= |src| && p < |pat| && CapsOk(src, s, Caps()) && ItemAt(pat, p) == Char(ep, Optional, ep + 1)
      requires m == RunOf(ct, src, pat, s, 1, p, ep)
      modifies this`level, capture
      ensures Answered(p, s, old(Caps()), r)
      decreases |pat| - p, 0
    {
      ghost var caps := Caps();
      if m {
        CapsLater(src, s, s + 1, caps);
        r := Match(s + 1, ep + 1);
        if !r.NoMatch? {
          FirstCount(ct, src, pat, p, s, caps, 1, Ended(r).v);
          return;
        }
      }
      assert NoneWith(ct, src, pat, p, s, caps, 1);
      r := Match(s, ep + 1);
      if !r.NoMatch? {
        FirstCount(ct, src, pat, p, s, caps, 0, Ended(r).v);
      } else {
        NoCount(ct, src, pat, p, s, caps);
      }
    }

    /** The first loop of max_expand: how many characters from `s` on the item accepts. */
    method LongestRun(s: nat, p: nat, ep: nat) returns (i: nat)
      requires s <= |src| && ep > 0
      ensures s + i <= |src| && RunOf(ct, src, pat, s, i, p, ep) && !RunOf(ct, src, pat, s + i, 1, p, ep)
    {
      i := 0;
      var m := false;
      if s < |src| {
        m := SingleMatch(src[s], p, ep);
      }
      while m
        invariant s + i <= |src| && RunOf(ct, src, pat, s, i, p, ep) && m == RunOf(ct, src, pat, s + i, 1, p, ep)
        decreases |src| - s - i
      {
        i := i + 1;
        m := false;
        if s + i < |src| {
          m := SingleMatch(src[s + i], p, ep);
        }
      }
    }

    /** max_expand: tries the largest number of repetitions first. For `+`, the item has matched at `s0` already. */
    method MaxExpand(s: nat, p: nat, ep: nat, ghost s0: nat) returns (r: Outcome)
      requires Valid() && s0 <= s <= |src| && p < |pat| && CapsOk(src, s0, Caps())
      requires (ItemAt(pat, p) == Char(ep, Star, ep + 1) && s == s0) || (ItemAt(pat, p) == Char(ep, Plus, ep + 1) && s == s0 + 1)
      requires RunOf(ct, src, pat, s0, s - s0, p, ep)
      modifies this`level, capture
      ensures Answered(p, s0, old(Caps()), r)
      decreases |pat| - p, 0
    {
      ghost var caps := Caps();
      WellFormedChar(pat, p, OpenOnes(caps));
      hide Answer;
      hide NoneWith;
      hide WellFormed;
      hide OpenOnes;
      var i: int := LongestRun(s, p, ep);
      NoMore(ct, src, pat, p, ep, s0, s - s0 + i, caps);
      while i >= 0
        invariant -1 <= i && s + i <= |src| && Valid() && Caps() == caps
        invariant i >= 0 ==> RunOf(ct, src, pat, s0, s - s0 + i, p, ep)
        invariant forall n: nat :: n > s - s0 + i ==> NoneWith(ct, src, pat, p, s0, caps, n)
      {
        CapsLater(src, s0, s + i, caps);
        r := Match(s + i, ep + 1);
        if !r.NoMatch? {
          FirstCount(ct, src, pat, p, s0, caps, s - s0 + i, Ended(r).v);
          return;
        }
        NoneNow(ct, src, pat, p, s0, caps, s - s0 + i);
        i := i - 1;
      }
      NoCount(ct, src, pat, p, s0, caps);
      r := NoMatch;
    }

    /** min_expand: tries the smallest number of repetitions first. */
    method MinExpand(s0: nat, p: nat, ep: nat) returns (r: Outcome)
      requires Valid() && s0 <= |src| && p < |pat| && CapsOk(src, s0, Caps()) && ItemAt(pat, p) == Char(ep, Minus, ep + 1)
      modifies this`level, capture
      ensures Answered(p, s0, old(Caps()), r)
      decreases |pat| - p, 0
    {
      ghost var caps := Caps();
      WellFormedChar(pat, p, OpenOnes(caps));
      hide Answer;
      hide NoneWith;
      hide WellFormed;
      hide OpenOnes;
      var s := s0;
      while true
        invariant s0 <= s <= |src| && Valid() && Caps() == caps && RunOf(ct, src, pat, s0, s - s0, p, ep)
        invariant forall n: nat :: n < s - s0 ==> NoneWith(ct, src, pat, p, s0, caps, n)
        decreases |src| - s
      {
        CapsLater(src, s0, s, caps);
        r := Match(s, ep + 1);
        if !r.NoMatch? {
          FirstCount(ct, src, pat, p, s0, caps, s - s0, Ended(r).v);
          return;
        }
        NoneNow(ct, src, pat, p, s0, caps, s - s0);
        var m := false;
        if s < |src| {
          m := SingleMatch(src[s], p, ep);
        }
        if !m {
          NoMore(ct, src, pat, p, ep, s0, s - s0, caps);
          NoCount(ct, src, pat, p, s0, caps);
          return;
        }
        s := s + 1;
      }
    }

    /** match: the match that is reached first, or no match, with the captures as they were. */
    method Match(s: nat, p: nat) returns (r: Outcome)
      requires Valid() && s <= |src| && p <= |pat| && CapsOk(src, s, Caps())
      modifies this`level, capture
      ensures Answered(p, s, old(Caps()), r)
      decreases |pat| - p, 2
    {
      ghost var caps := Caps();
      var x := At(pat, p);
      AtEnd(ct, src, pat, p, s, caps);
      if x == 0 {
        return MatchedTo(s);
      } else if x == '(' as int {
        if At(pat, p + 1) == ')' as int {
          r := DoStartCapture(s, p, p + 2, CAP_POSITION);
        } else {
          r := DoStartCapture(s, p, p + 1, CAP_UNFINISHED);
        }
        return;
      } else if x == ')' as int {
        r := DoEndCapture(s, p, p + 1);
        return;
      } else if x == L_ESC {
        var y := At(pat, p + 1);
        if y == 'b' as int {
          r := MatchBalancedItem(s, p);
          return;
        } else if y == 'f' as int {
          r := MatchFrontier(s, p);
          return;
        } else if IsDigit(y) {
          r := MatchReference(s, p, y);
          return;
        }
      } else if x == '$' as int && At(pat, p + 1) == 0 {
        return if s == |src| then MatchedTo(s) else NoMatch;
      }
      r := MatchItem(s, p);
    }

    /** str_find_aux, the search with special characters: the first position at or after `init` where the pattern
        matches; an anchored pattern is only tried at `init`. */
    method FindFirst(init: nat) returns (r: Outcome, start: nat)
      requires Valid() && init <= |src|
      modifies this`level, capture
      ensures Valid() && init <= start && (At(pat, 0) == '^' as int ==> start == init)
      ensures var p := if At(pat, 0) == '^' as int then 1 else 0; r.Error? ==> !WellFormed(pat, p, [])
      ensures var p := if At(pat, 0) == '^' as int then 1 else 0;
        r.MatchedTo? ==> start <= r.end <= |src| && Answer(ct, src, pat, p, start, [], Some(Matched(r.end, Caps())))
      ensures var p := if At(pat, 0) == '^' as int then 1 else 0;
        r.Error? ==> start <= |src| && Answer(ct, src, pat, p, start, [], Some(Broken))
      ensures var p := if At(pat, 0) == '^' as int then 1 else 0;
        forall s: nat :: init <= s <= |src| && (p == 0 || s == init) && (r.NoMatch? || s < start) ==> NoWay(ct, src, pat, p, s, [])
    {
      var anchor := At(pat, 0) == '^' as int;
      var p := if anchor then 1 else 0;
      var s1 := init;
      while true
        invariant init <= s1 <= |src| && Valid() && (anchor ==> s1 == init)
        invariant forall s: nat :: init <= s < s1 ==> NoWay(ct, src, pat, p, s, [])
        decreases |src| - s1
      {
        level := 0;
        assert Caps() == [];
        assert OpenOnes([]) == [];
        r := Match(s1, p);
        start := s1;
        if r.MatchedTo? {
          AnswerInside(ct, src, pat, p, s1, [], Matched(r.end, Caps()));
        }
        if !r.NoMatch? || s1 == |src| || anchor {
          return;
        }
        s1 := s1 + 1;
      }
    }
  }

  lemma OpenMore(caps: seq<Capture>, c: Capture)
    ensures OpenOnes(caps + [c]) == OpenOnes(caps) + [c.len == CAP_UNFINISHED]
  {
  }

  lemma OpenLess(caps: seq<Capture>, l: nat, s: nat)
    requires l < |caps| && s >= caps[l].init
    ensures OpenOnes(Closed(caps, l, s)) == OpenOnes(caps)[l := false]
  {
  }

  lemma CapsLater(src: Text, s: nat, s1: nat, caps: seq<Capture>)
    requires CapsOk(src, s, caps) && s <= s1
    ensures CapsOk(src, s1, caps)
  {
  }

  /** Beyond the longest run, no number of repetitions is possible. */
  lemma NoMore(ct: Ctype, src: Text, pat: Text, p: nat, ep: nat, s: nat, n: nat, caps: seq<Capture>)
    requires s <= |src| && CapsOk(src, s, caps) && ItemAt(pat, p).Char? && ItemAt(pat, p).ep == ep
    requires s + n <= |src| && !RunOf(ct, src, pat, s + n, 1, p, ep)
    ensures forall m: nat :: m > n ==> NoneWith(ct, src, pat, p, s, caps, m)
  {
  }

  lemma NothingTaken(ct: Ctype, src: Text, pat: Text, p: nat, s: nat, caps: seq<Capture>)
    requires s <= |src| && CapsOk(src, s, caps) && ItemAt(pat, p).Char? && ItemAt(pat, p).repeat == Plus
    requires !RunOf(ct, src, pat, s, 1, p, ItemAt(pat, p).ep)
    ensures Answer(ct, src, pat, p, s, caps, None)
  {
    assert forall n: nat :: !CanTake(ct, src, pat, p, s, n);
    NoCount(ct, src, pat, p, s, caps);
  }
}
