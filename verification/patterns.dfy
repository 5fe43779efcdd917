/** Lua patterns: their items, what single characters they accept, and the ways in which they match. */
module Patterns {
  import opened Limits
  import opened Wrappers

  type Text = seq<Byte>

  /** The classes of ctype.h that depend on the locale: whether a character belongs to the class of a letter. */
  type Ctype = (Byte, Byte) -> bool

  const L_ESC: Byte := '%' as int
  const LUA_MAXCAPTURES := 32
  const CAP_UNFINISHED := -1
  const CAP_POSITION := -2

  /** The character at a position of a string that a zero terminates. */
  function At(t: Text, i: int): Byte {
    if 0 <= i < |t| then t[i] else 0
  }

  // ---- single characters ----

  function ToLower(c: Byte): Byte {
    if 'A' as int <= c <= 'Z' as int then c + 32 else c
  }

  /** The letters that name classes. */
  predicate IsClassLetter(c: Byte) {
    c in {'a' as int, 'c' as int, 'd' as int, 'l' as int, 'p' as int, 's' as int, 'u' as int, 'w' as int, 'x' as int, 'z' as int}
  }

  /** match_class: an upper-case letter names the complement of the class. */
  function MatchClass(ct: Ctype, c: Byte, cl: Byte): bool {
    var l := ToLower(cl);
    if !IsClassLetter(l) then cl == c
    else
      var res := if l == 'z' as int then c == 0 else if l == 'd' as int then IsDigit(c) else ct(l, c);
      if cl == l then res else !res
  }

  /** The elements of a set from position `p` to the bracket at `ec`: one of them accepts `c`. */
  predicate SetAccepts(ct: Ctype, pat: Text, c: Byte, p: int, ec: int)
    decreases ec - p
  {
    if p >= ec then false
    else if At(pat, p) == L_ESC then MatchClass(ct, c, At(pat, p + 1)) || SetAccepts(ct, pat, c, p + 2, ec)
    else if At(pat, p + 1) == '-' as int && p + 2 < ec then
      At(pat, p) <= c <= At(pat, p + 2) || SetAccepts(ct, pat, c, p + 3, ec)
    else At(pat, p) == c || SetAccepts(ct, pat, c, p + 1, ec)
  }

  /** The set that begins at `p` and whose last bracket is at `ec` accepts `c`. */
  predicate BracketAccepts(ct: Ctype, pat: Text, c: Byte, p: int, ec: int) {
    if At(pat, p + 1) == '^' as int then !SetAccepts(ct, pat, c, p + 2, ec) else SetAccepts(ct, pat, c, p + 1, ec)
  }

  /** The single-character item from `p` to `ep` accepts `c`. */
  predicate Accepts(ct: Ctype, pat: Text, c: Byte, p: int, ep: int) {
    var x := At(pat, p);
    if x == '.' as int then true
    else if x == L_ESC then MatchClass(ct, c, At(pat, p + 1))
    else if x == '[' as int then BracketAccepts(ct, pat, c, p, ep - 1)
    else x == c
  }

  /** One step of the search for the end of a set, which skips escaped characters. */
  function SetStep(pat: Text, q: nat): nat {
    if At(pat, q) == L_ESC && At(pat, q + 1) != 0 then q + 2 else q + 1
  }

  /** The position of the bracket that ends a set, looking from `q` on; the first character is never the end. */
  function SetEnd(pat: Text, q: nat): (r: Option<nat>)
    ensures r.Some? ==> q < r.v < |pat| && At(pat, r.v) == ']' as int
    decreases |pat| - q
  {
    if At(pat, q) == 0 then None
    else
      var n := SetStep(pat, q);
      if At(pat, n) == ']' as int then Some(n) else SetEnd(pat, n)
  }

  /** classend: the position behind a single-character item. */
  function ClassEnd(pat: Text, p: nat): (r: Option<nat>)
    requires At(pat, p) != 0
    ensures r.Some? ==> p < r.v <= |pat|
  {
    if At(pat, p) == L_ESC then (if At(pat, p + 1) == 0 then None else Some(p + 2))
    else if At(pat, p) == '[' as int then
      var e := SetEnd(pat, if At(pat, p + 1) == '^' as int then p + 2 else p + 1);
      if e.None? then None else Some(e.v + 1)
    else Some(p + 1)
  }

  // ---- items ----

  datatype Repeat = Once | Optional | Star | Plus | Minus

  /** What stands at a position of a pattern; `next` is where the rest of the pattern begins. */
  datatype Item =
    | EndOfPattern
    | EndAnchor
    | StartCapture(position: bool, next: nat)
    | EndCapture(next: nat)
    | Balanced(open: Byte, close: Byte, next: nat)
    | Frontier(set_: nat, next: nat)
    | BackReference(l: int, next: nat)
    | Char(ep: nat, repeat: Repeat, next: nat)
    | Malformed

  function CharItem(pat: Text, p: nat): (i: Item)
    requires At(pat, p) != 0
    ensures i.Malformed? || (i.Char? && p < i.ep <= i.next <= |pat|)
  {
    var ep := ClassEnd(pat, p);
    if ep.None? then Malformed
    else
      var x := At(pat, ep.v);
      if x == '?' as int then Char(ep.v, Optional, ep.v + 1)
      else if x == '*' as int then Char(ep.v, Star, ep.v + 1)
      else if x == '+' as int then Char(ep.v, Plus, ep.v + 1)
      else if x == '-' as int then Char(ep.v, Minus, ep.v + 1)
      else Char(ep.v, Once, ep.v)
  }

  function EscapeItem(pat: Text, p: nat): (i: Item)
    requires At(pat, p) == L_ESC
    ensures i.Malformed? || (!i.EndOfPattern? && !i.EndAnchor? && p < i.next <= |pat|)
  {
    var x := At(pat, p + 1);
    if x == 'b' as int then
      if At(pat, p + 2) == 0 || At(pat, p + 3) == 0 then Malformed else Balanced(At(pat, p + 2), At(pat, p + 3), p + 4)
    else if x == 'f' as int then
      if At(pat, p + 2) != '[' as int then Malformed
      else
        var ep := ClassEnd(pat, p + 2);
        if ep.None? then Malformed else Frontier(p + 2, ep.v)
    else if IsDigit(x) then BackReference(x - '1' as int, p + 2)
    else CharItem(pat, p)
  }

  function ItemAt(pat: Text, p: nat): (i: Item)
    ensures i.EndOfPattern? || i.EndAnchor? || i.Malformed? || p < i.next <= |pat|
  {
    var x := At(pat, p);
    if x == 0 then EndOfPattern
    else if x == '(' as int then
      if At(pat, p + 1) == ')' as int then StartCapture(true, p + 2) else StartCapture(false, p + 1)
    else if x == ')' as int then EndCapture(p + 1)
    else if x == L_ESC then EscapeItem(pat, p)
    else if x == '$' as int && At(pat, p + 1) == 0 then EndAnchor
    else CharItem(pat, p)
  }

  // ---- captures ----

  datatype Capture = Capture(init: nat, len: int)

  /** capture_to_close: the last capture that is not finished. */
  function LastOpen(caps: seq<Capture>): (l: Option<nat>)
    ensures l.Some? ==> l.v < |caps| && caps[l.v].len == CAP_UNFINISHED
    ensures l.Some? ==> forall i :: l.v < i < |caps| ==> caps[i].len != CAP_UNFINISHED
    ensures l.None? ==> forall i :: 0 <= i < |caps| ==> caps[i].len != CAP_UNFINISHED
  {
    if caps == [] then None
    else if caps[|caps| - 1].len == CAP_UNFINISHED then Some(|caps| - 1)
    else LastOpen(caps[..|caps| - 1])
  }

  /** Captures lie in the subject, and those that are not finished begin at or before `s`. */
  predicate CapsOk(src: Text, s: nat, caps: seq<Capture>) {
    |caps| <= LUA_MAXCAPTURES && forall i :: 0 <= i < |caps| ==>
      CAP_POSITION <= caps[i].len && caps[i].init <= |src| && caps[i].init + caps[i].len <= |src| && (caps[i].len == CAP_UNFINISHED ==> caps[i].init <= s)
  }

  /** A finished capture that a back reference can name. */
  predicate CanRefer(caps: seq<Capture>, l: int) {
    0 <= l < |caps| && caps[l].len != CAP_UNFINISHED
  }

  /** The text of capture `l` stands at `s`; a position capture has no text. */
  predicate Repeats(src: Text, s: nat, caps: seq<Capture>, l: int)
    requires CanRefer(caps, l) && s <= |src| && CapsOk(src, s, caps)
  {
    var c := caps[l];
    c.len >= 0 && s + c.len <= |src| && src[c.init..c.init + c.len] == src[s..s + c.len]
  }

  // ---- %b and %f ----

  /** Where the text that begins with an open delimiter is balanced, `cont` delimiters being open before `s`. */
  function BalanceEnd(src: Text, s: nat, open: Byte, close: Byte, cont: nat): (r: Option<nat>)
    requires s <= |src| && cont > 0
    ensures r.Some? ==> s < r.v <= |src|
    decreases |src| - s
  {
    if s == |src| then None
    else if src[s] == close then (if cont == 1 then Some(s + 1) else BalanceEnd(src, s + 1, open, close, cont - 1))
    else if src[s] == open then BalanceEnd(src, s + 1, open, close, cont + 1)
    else BalanceEnd(src, s + 1, open, close, cont)
  }

  function Balance(src: Text, s: nat, open: Byte, close: Byte): (r: Option<nat>)
    requires s <= |src|
    ensures r.Some? ==> s < r.v <= |src|
  {
    if At(src, s) != open || s == |src| then None else BalanceEnd(src, s + 1, open, close, 1)
  }

  function Count(t: Text, c: Byte): nat {
    if t == [] then 0 else (if t[0] == c then 1 else 0) + Count(t[1..], c)
  }

  /** The text that `%bxy` matches has as many `x` as `y`, and every shorter prefix has more `x` than `y`. */
  lemma {:induction false} BalanceEndMeaning(src: Text, s: nat, open: Byte, close: Byte, cont: nat)
    requires s <= |src| && cont > 0 && open != close
    ensures var r := BalanceEnd(src, s, open, close, cont);
      r.Some? ==> (cont + Count(src[s..r.v], open) == Count(src[s..r.v], close)
        && forall q :: s <= q < r.v ==> cont + Count(src[s..q], open) > Count(src[s..q], close))
    ensures BalanceEnd(src, s, open, close, cont).None? ==>
      forall q :: s <= q <= |src| ==> cont + Count(src[s..q], open) > Count(src[s..q], close)
    decreases |src| - s
  {
    if s < |src| {
      var c := if src[s] == close then cont - 1 else if src[s] == open then cont + 1 else cont;
      forall q | s < q <= |src|
        ensures src[s..q][0] == src[s] && src[s..q][1..] == src[s + 1..q]
      {
      }
      if c > 0 {
        BalanceEndMeaning(src, s + 1, open, close, c);
      }
    }
  }

  /** The frontier `%f[set]` matches between two characters. */
  predicate AtFrontier(ct: Ctype, src: Text, pat: Text, s: nat, p: nat, ep: nat)
    requires ep > 0
  {
    var previous := if s == 0 then 0 else At(src, s - 1);
    !BracketAccepts(ct, pat, previous, p, ep - 1) && BracketAccepts(ct, pat, At(src, s), p, ep - 1)
  }
}
