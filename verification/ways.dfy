/** The ways in which a pattern can match, and their priority. */
module Ways {
  import opened Patterns
  import opened Wrappers

  /** How often each repeated item of the rest of a pattern matches, in order. */
  type Way = seq<nat>

  /** How a way can end: with a match, or where the pattern turns out to be malformed. */
  datatype Ending = Matched(end: nat, caps: seq<Capture>) | Broken

  /** An error ends the search. */
  function Breaks(w: Way): Option<Ending> {
    if w == [] then Some(Broken) else None
  }

  /** The item matches the `n` characters from `s` on. */
  predicate RunOf(ct: Ctype, src: Text, pat: Text, s: nat, n: nat, p: nat, ep: nat) {
    s + n <= |src| && forall j :: s <= j < s + n ==> Accepts(ct, pat, src[j], p, ep)
  }

  predicate CountFits(r: Repeat, n: nat) {
    match r
    case Once => n == 1
    case Optional => n <= 1
    case Plus => n >= 1
    case _ => true
  }

  /** Where the rest of the pattern from `p` on comes to from `s` on, if it is matched in the given way. */
  function Follow(ct: Ctype, src: Text, pat: Text, p: nat, s: nat, caps: seq<Capture>, w: Way): (r: Option<Ending>)
    requires s <= |src| && CapsOk(src, s, caps)
    decreases |pat| - p
  {
    var it := ItemAt(pat, p);
    match it
    case Malformed => Breaks(w)
    case EndOfPattern => if w == [] then Some(Matched(s, caps)) else None
    case EndAnchor => if w == [] && s == |src| then Some(Matched(s, caps)) else None
    case StartCapture(position, next) =>
      if |caps| >= LUA_MAXCAPTURES then Breaks(w)
      else Follow(ct, src, pat, next, s, caps + [Capture(s, if position then CAP_POSITION else CAP_UNFINISHED)], w)
    case EndCapture(next) =>
      var l := LastOpen(caps);
      if l.None? then Breaks(w) else Follow(ct, src, pat, next, s, Closed(caps, l.v, s), w)
    case Balanced(open, close, next) =>
      var e := Balance(src, s, open, close);
      if e.None? then None else Follow(ct, src, pat, next, e.v, caps, w)
    case Frontier(q, next) =>
      if next > q && AtFrontier(ct, src, pat, s, q, next) then Follow(ct, src, pat, next, s, caps, w) else None
    case BackReference(l, next) =>
      if !CanRefer(caps, l) then Breaks(w)
      else if Repeats(src, s, caps, l) then Follow(ct, src, pat, next, s + caps[l].len, caps, w) else None
    case Char(ep, repeat, next) =>
      if repeat == Once then
        if RunOf(ct, src, pat, s, 1, p, ep) then Follow(ct, src, pat, next, s + 1, caps, w) else None
      else if w != [] && CountFits(repeat, w[0]) && RunOf(ct, src, pat, s, w[0], p, ep) then
        Follow(ct, src, pat, next, s + w[0], caps, w[1..])
      else None
  }

  function Closed(caps: seq<Capture>, l: nat, s: nat): seq<Capture>
    requires l < |caps|
  {
    caps[l := Capture(caps[l].init, s - caps[l].init)]
  }

  /** `w` has priority over `w1`: at the first repeated item where they differ, it has more repetitions, or
      fewer if the item is `-`. */
  predicate Before(pat: Text, p: nat, w: Way, w1: Way)
    decreases |pat| - p
  {
    var it := ItemAt(pat, p);
    match it
    case Malformed => false
    case EndOfPattern => false
    case EndAnchor => false
    case Char(_, repeat, next) =>
      if repeat == Once then Before(pat, next, w, w1)
      else if w == [] || w1 == [] then false
      else if w[0] == w1[0] then Before(pat, next, w[1..], w1[1..])
      else if repeat == Minus then w[0] < w1[0] else w[0] > w1[0]
    case _ => Before(pat, it.next, w, w1)
  }

  ghost predicate NoWay(ct: Ctype, src: Text, pat: Text, p: nat, s: nat, caps: seq<Capture>)
    requires s <= |src| && CapsOk(src, s, caps)
  {
    forall w :: Follow(ct, src, pat, p, s, caps, w).None?
  }

  /** The ending `r` is reached in a way that has priority over all other ways that end in a match or an error. */
  ghost predicate FirstWay(ct: Ctype, src: Text, pat: Text, p: nat, s: nat, caps: seq<Capture>, r: Ending)
    requires s <= |src| && CapsOk(src, s, caps)
  {
    exists w :: Follow(ct, src, pat, p, s, caps, w) == Some(r) && First(ct, src, pat, p, s, caps, w)
  }

  ghost predicate First(ct: Ctype, src: Text, pat: Text, p: nat, s: nat, caps: seq<Capture>, w: Way)
    requires s <= |src| && CapsOk(src, s, caps)
  {
    forall w1 :: Follow(ct, src, pat, p, s, caps, w1).Some? ==> w1 == w || Before(pat, p, w, w1)
  }

  /** What match must return. */
  ghost predicate Answer(ct: Ctype, src: Text, pat: Text, p: nat, s: nat, caps: seq<Capture>, r: Option<Ending>)
    requires s <= |src| && CapsOk(src, s, caps)
  {
    if r.Some? then FirstWay(ct, src, pat, p, s, caps, r.v) else NoWay(ct, src, pat, p, s, caps)
  }

  /** What is matched keeps the captures inside the subject, and their number only grows. */
  lemma {:induction false} FollowOk(ct: Ctype, src: Text, pat: Text, p: nat, s: nat, caps: seq<Capture>, w: Way)
    requires s <= |src| && CapsOk(src, s, caps)
    ensures var r := Follow(ct, src, pat, p, s, caps, w); r.Some? && r.v.Matched? ==> s <= r.v.end <= |src| && CapsOk(src, r.v.end, r.v.caps) && |caps| <= |r.v.caps|
    decreases |pat| - p
  {
    hide ItemAt;
    hide AtFrontier;
    hide Balance;
    hide Accepts;
    var it := ItemAt(pat, p);
    match it
    case Malformed =>
    case EndOfPattern =>
    case EndAnchor =>
    case StartCapture(position, next) =>
      if |caps| < LUA_MAXCAPTURES {
        FollowOk(ct, src, pat, next, s, caps + [Capture(s, if position then CAP_POSITION else CAP_UNFINISHED)], w);
      }
    case EndCapture(next) =>
      var l := LastOpen(caps);
      if l.Some? {
        FollowOk(ct, src, pat, next, s, Closed(caps, l.v, s), w);
      }
    case Balanced(open, close, next) =>
      var e := Balance(src, s, open, close);
      if e.Some? {
        FollowOk(ct, src, pat, next, e.v, caps, w);
      }
    case Frontier(q, next) =>
      FollowOk(ct, src, pat, next, s, caps, w);
    case BackReference(l, next) =>
      if CanRefer(caps, l) && Repeats(src, s, caps, l) {
        FollowOk(ct, src, pat, next, s + caps[l].len, caps, w);
      }
    case Char(ep, repeat, next) =>
      if repeat == Once {
        if s < |src| {
          FollowOk(ct, src, pat, next, s + 1, caps, w);
        }
      } else if w != [] && s + w[0] <= |src| {
        FollowOk(ct, src, pat, next, s + w[0], caps, w[1..]);
      }
  }

  // ---- how an answer for the rest of the pattern is one for the whole ----

  /** An item that matches in at most one way. */
  lemma OneWay(ct: Ctype, src: Text, pat: Text, p: nat, s: nat, caps: seq<Capture>, p1: nat, s1: nat, caps1: seq<Capture>, r: Option<Ending>)
    requires s <= |src| && CapsOk(src, s, caps) && s1 <= |src| && CapsOk(src, s1, caps1)
    requires forall w :: Follow(ct, src, pat, p, s, caps, w) == Follow(ct, src, pat, p1, s1, caps1, w)
    requires forall w, w1 :: Before(pat, p1, w, w1) ==> Before(pat, p, w, w1)
    requires Answer(ct, src, pat, p1, s1, caps1, r)
    ensures Answer(ct, src, pat, p, s, caps, r)
  {
    hide Before;
    if r.Some? {
      var w :| Follow(ct, src, pat, p1, s1, caps1, w) == Some(r.v) && First(ct, src, pat, p1, s1, caps1, w);
      hide Follow;
      assert Follow(ct, src, pat, p, s, caps, w) == Some(r.v);
      assert First(ct, src, pat, p, s, caps, w);
    }
  }

  /** Where the pattern is malformed, the search ends at once. */
  lemma AtError(ct: Ctype, src: Text, pat: Text, p: nat, s: nat, caps: seq<Capture>)
    requires s <= |src| && CapsOk(src, s, caps)
    requires var it := ItemAt(pat, p);
      || it.Malformed? || (it.StartCapture? && |caps| >= LUA_MAXCAPTURES) || (it.EndCapture? && LastOpen(caps).None?)
      || (it.BackReference? && !CanRefer(caps, it.l))
    ensures Answer(ct, src, pat, p, s, caps, Some(Broken))
  {
    hide ItemAt;
    hide Repeats;
    assert Follow(ct, src, pat, p, s, caps, []) == Some(Broken);
    assert First(ct, src, pat, p, s, caps, []);
  }

  lemma AtEnd(ct: Ctype, src: Text, pat: Text, p: nat, s: nat, caps: seq<Capture>)
    requires s <= |src| && CapsOk(src, s, caps)
    ensures ItemAt(pat, p).EndOfPattern? ==> Answer(ct, src, pat, p, s, caps, Some(Matched(s, caps)))
    ensures ItemAt(pat, p).EndAnchor? ==> Answer(ct, src, pat, p, s, caps, if s == |src| then Some(Matched(s, caps)) else None)
  {
    if ItemAt(pat, p).EndOfPattern? || (ItemAt(pat, p).EndAnchor? && s == |src|) {
      assert Follow(ct, src, pat, p, s, caps, []) == Some(Matched(s, caps));
      assert First(ct, src, pat, p, s, caps, []);
    }
  }

  lemma CaptureStarted(ct: Ctype, src: Text, pat: Text, p: nat, s: nat, caps: seq<Capture>, r: Option<Ending>)
    requires s <= |src| && CapsOk(src, s, caps) && ItemAt(pat, p).StartCapture? && |caps| < LUA_MAXCAPTURES
    requires var it := ItemAt(pat, p); var c := Capture(s, if it.position then CAP_POSITION else CAP_UNFINISHED);
      Answer(ct, src, pat, it.next, s, caps + [c], r)
    ensures Answer(ct, src, pat, p, s, caps, r)
  {
    var it := ItemAt(pat, p);
    OneWay(ct, src, pat, p, s, caps, it.next, s, caps + [Capture(s, if it.position then CAP_POSITION else CAP_UNFINISHED)], r);
  }

  lemma CaptureEnded(ct: Ctype, src: Text, pat: Text, p: nat, s: nat, caps: seq<Capture>, l: nat, r: Option<Ending>)
    requires s <= |src| && CapsOk(src, s, caps) && ItemAt(pat, p).EndCapture? && LastOpen(caps) == Some(l)
    requires Answer(ct, src, pat, ItemAt(pat, p).next, s, Closed(caps, l, s), r)
    ensures Answer(ct, src, pat, p, s, caps, r)
  {
    OneWay(ct, src, pat, p, s, caps, ItemAt(pat, p).next, s, Closed(caps, l, s), r);
  }

  lemma BalancedDone(ct: Ctype, src: Text, pat: Text, p: nat, s: nat, caps: seq<Capture>, r: Option<Ending>)
    requires s <= |src| && CapsOk(src, s, caps) && ItemAt(pat, p).Balanced?
    requires var it := ItemAt(pat, p); var e := Balance(src, s, it.open, it.close);
      if e.Some? then Answer(ct, src, pat, it.next, e.v, caps, r) else r.None?
    ensures Answer(ct, src, pat, p, s, caps, r)
  {
    var it := ItemAt(pat, p);
    var e := Balance(src, s, it.open, it.close);
    if e.Some? {
      OneWay(ct, src, pat, p, s, caps, it.next, e.v, caps, r);
    }
  }

  lemma FrontierDone(ct: Ctype, src: Text, pat: Text, p: nat, s: nat, caps: seq<Capture>, r: Option<Ending>)
    requires s <= |src| && CapsOk(src, s, caps) && ItemAt(pat, p).Frontier? && ItemAt(pat, p).next > ItemAt(pat, p).set_
    requires var it := ItemAt(pat, p);
      if AtFrontier(ct, src, pat, s, it.set_, it.next) then Answer(ct, src, pat, it.next, s, caps, r) else r.None?
    ensures Answer(ct, src, pat, p, s, caps, r)
  {
    var it := ItemAt(pat, p);
    if AtFrontier(ct, src, pat, s, it.set_, it.next) {
      OneWay(ct, src, pat, p, s, caps, it.next, s, caps, r);
    }
  }

  lemma ReferenceDone(ct: Ctype, src: Text, pat: Text, p: nat, s: nat, caps: seq<Capture>, r: Option<Ending>)
    requires s <= |src| && CapsOk(src, s, caps) && ItemAt(pat, p).BackReference? && CanRefer(caps, ItemAt(pat, p).l)
    requires var it := ItemAt(pat, p);
      if Repeats(src, s, caps, it.l) then s + caps[it.l].len <= |src| && Answer(ct, src, pat, it.next, s + caps[it.l].len, caps, r) else r.None?
    ensures Answer(ct, src, pat, p, s, caps, r)
  {
    var it := ItemAt(pat, p);
    if Repeats(src, s, caps, it.l) {
      OneWay(ct, src, pat, p, s, caps, it.next, s + caps[it.l].len, caps, r);
    }
  }

  lemma OnceDone(ct: Ctype, src: Text, pat: Text, p: nat, s: nat, caps: seq<Capture>, r: Option<Ending>)
    requires s <= |src| && CapsOk(src, s, caps) && ItemAt(pat, p).Char? && ItemAt(pat, p).repeat == Once
    requires var it := ItemAt(pat, p);
      if RunOf(ct, src, pat, s, 1, p, it.ep) then Answer(ct, src, pat, it.next, s + 1, caps, r) else r.None?
    ensures Answer(ct, src, pat, p, s, caps, r)
  {
    var it := ItemAt(pat, p);
    if RunOf(ct, src, pat, s, 1, p, it.ep) {
      OneWay(ct, src, pat, p, s, caps, it.next, s + 1, caps, r);
    }
  }

  // ---- repeated items ----

  predicate Repeated(it: Item) {
    it.Char? && it.repeat != Once
  }

  predicate Preferred(r: Repeat, m: nat, n: nat) {
    if r == Minus then m < n else m > n
  }

  /** The item can match `n` characters. */
  predicate CanTake(ct: Ctype, src: Text, pat: Text, p: nat, s: nat, n: nat) {
    var it := ItemAt(pat, p);
    it.Char? && CountFits(it.repeat, n) && RunOf(ct, src, pat, s, n, p, it.ep)
  }

  ghost predicate NoneWith(ct: Ctype, src: Text, pat: Text, p: nat, s: nat, caps: seq<Capture>, n: nat)
    requires s <= |src| && CapsOk(src, s, caps)
  {
    var it := ItemAt(pat, p);
    it.Char? && (CanTake(ct, src, pat, p, s, n) ==> NoWay(ct, src, pat, it.next, s + n, caps))
  }

  lemma NoneNow(ct: Ctype, src: Text, pat: Text, p: nat, s: nat, caps: seq<Capture>, n: nat)
    requires s + n <= |src| && CapsOk(src, s, caps) && ItemAt(pat, p).Char? && CapsOk(src, s + n, caps)
    requires Answer(ct, src, pat, ItemAt(pat, p).next, s + n, caps, None)
    ensures NoneWith(ct, src, pat, p, s, caps, n)
  {
    hide Follow;
    hide ItemAt;
  }

  lemma NoCount(ct: Ctype, src: Text, pat: Text, p: nat, s: nat, caps: seq<Capture>)
    requires s <= |src| && CapsOk(src, s, caps) && Repeated(ItemAt(pat, p))
    requires forall n: nat :: NoneWith(ct, src, pat, p, s, caps, n)
    ensures Answer(ct, src, pat, p, s, caps, None)
  {
    var it := ItemAt(pat, p);
    forall w
      ensures Follow(ct, src, pat, p, s, caps, w).None?
    {
      if w != [] && CanTake(ct, src, pat, p, s, w[0]) {
        assert NoneWith(ct, src, pat, p, s, caps, w[0]);
        assert Follow(ct, src, pat, it.next, s + w[0], caps, w[1..]).None?;
      }
    }
  }

  /** With `n` characters the rest matches, and with no preferred number it does. */
  lemma FirstCount(ct: Ctype, src: Text, pat: Text, p: nat, s: nat, caps: seq<Capture>, n: nat, r: Ending)
    requires s <= |src| && CapsOk(src, s, caps) && Repeated(ItemAt(pat, p)) && CanTake(ct, src, pat, p, s, n)
    requires Answer(ct, src, pat, ItemAt(pat, p).next, s + n, caps, Some(r))
    requires forall m: nat :: Preferred(ItemAt(pat, p).repeat, m, n) ==> NoneWith(ct, src, pat, p, s, caps, m)
    ensures Answer(ct, src, pat, p, s, caps, Some(r))
  {
    var it := ItemAt(pat, p);
    var v :| Follow(ct, src, pat, it.next, s + n, caps, v) == Some(r) && First(ct, src, pat, it.next, s + n, caps, v);
    var w := [n] + v;
    assert w[1..] == v;
    assert Follow(ct, src, pat, p, s, caps, w) == Some(r);
    forall w1 | Follow(ct, src, pat, p, s, caps, w1).Some?
      ensures w1 == w || Before(pat, p, w, w1)
    {
      assert Follow(ct, src, pat, it.next, s + w1[0], caps, w1[1..]).Some?;
      assert Preferred(it.repeat, w1[0], n) ==> NoneWith(ct, src, pat, p, s, caps, w1[0]);
      if w1[0] == n {
        assert w1 == [n] + w1[1..];
      }
    }
    assert First(ct, src, pat, p, s, caps, w);
  }

  /** No two ways have priority over each other, so that at most one is the first. */
  lemma {:induction false} BeforeOneWay(pat: Text, p: nat, w: Way, w1: Way)
    ensures !(Before(pat, p, w, w1) && Before(pat, p, w1, w))
    decreases |pat| - p
  {
    var it := ItemAt(pat, p);
    if it.Char? && it.repeat != Once {
      if w != [] && w1 != [] && w[0] == w1[0] {
        BeforeOneWay(pat, it.next, w[1..], w1[1..]);
      }
    } else if !it.EndOfPattern? && !it.EndAnchor? && !it.Malformed? {
      BeforeOneWay(pat, it.next, w, w1);
    }
  }

  /** The answer is unique. */
  lemma AnswerUnique(ct: Ctype, src: Text, pat: Text, p: nat, s: nat, caps: seq<Capture>, r: Option<Ending>, r1: Option<Ending>)
    requires s <= |src| && CapsOk(src, s, caps)
    requires Answer(ct, src, pat, p, s, caps, r) && Answer(ct, src, pat, p, s, caps, r1)
    ensures r == r1
  {
    hide Follow;
    hide Before;
    if r.Some? {
      var w :| Follow(ct, src, pat, p, s, caps, w) == Some(r.v) && First(ct, src, pat, p, s, caps, w);
      if r1.Some? {
        var w1 :| Follow(ct, src, pat, p, s, caps, w1) == Some(r1.v) && First(ct, src, pat, p, s, caps, w1);
        BeforeOneWay(pat, p, w, w1);
      }
    }
  }

  /** A match ends inside the subject, and so do its captures. */
  lemma AnswerInside(ct: Ctype, src: Text, pat: Text, p: nat, s: nat, caps: seq<Capture>, r: Ending)
    requires s <= |src| && CapsOk(src, s, caps) && Answer(ct, src, pat, p, s, caps, Some(r))
    ensures r.Matched? ==> s <= r.end <= |src| && CapsOk(src, r.end, r.caps) && |caps| <= |r.caps|
  {
    hide Follow;
    hide CapsOk;
    var w :| Follow(ct, src, pat, p, s, caps, w) == Some(r) && First(ct, src, pat, p, s, caps, w);
    FollowOk(ct, src, pat, p, s, caps, w);
  }

  // ---- well-formed patterns ----

  /** Which captures are open, for a pattern that has been read up to `p`. */
  function OpenOnes(caps: seq<Capture>): seq<bool> {
    seq(|caps|, i requires 0 <= i < |caps| => caps[i].len == CAP_UNFINISHED)
  }

  function LastTrue(st: seq<bool>): (l: Option<nat>)
    ensures l.Some? ==> l.v < |st| && st[l.v] && forall i :: l.v < i < |st| ==> !st[i]
    ensures l.None? ==> forall i :: 0 <= i < |st| ==> !st[i]
  {
    if st == [] then None else if st[|st| - 1] then Some(|st| - 1) else LastTrue(st[..|st| - 1])
  }

  /** The rest of the pattern has no malformed item, closes only captures that are open, refers only to finished
      ones, and does not have too many. */
  predicate WellFormed(pat: Text, p: nat, st: seq<bool>)
    decreases |pat| - p
  {
    var it := ItemAt(pat, p);
    match it
    case Malformed => false
    case EndOfPattern => true
    case EndAnchor => true
    case StartCapture(position, next) => |st| < LUA_MAXCAPTURES && WellFormed(pat, next, st + [!position])
    case EndCapture(next) => LastTrue(st).Some? && WellFormed(pat, next, st[LastTrue(st).v := false])
    case BackReference(l, next) => 0 <= l < |st| && !st[l] && WellFormed(pat, next, st)
    case _ => WellFormed(pat, it.next, st)
  }

  lemma WellFormedChar(pat: Text, p: nat, st: seq<bool>)
    requires ItemAt(pat, p).Char?
    ensures WellFormed(pat, p, st) == WellFormed(pat, ItemAt(pat, p).next, st)
  {
    hide ItemAt;
  }

  lemma {:induction false} LastOpenIs(caps: seq<Capture>)
    ensures LastTrue(OpenOnes(caps)) == LastOpen(caps)
  {
    if caps != [] {
      var n := |caps| - 1;
      LastOpenIs(caps[..n]);
      assert OpenOnes(caps)[..n] == OpenOnes(caps[..n]);
    }
  }
}
