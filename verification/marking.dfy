/** Colours, the gray lists, and what marking does to them. */
module Marking {
  import opened LuaObjects

  datatype WhiteBit = White0 | White1
  datatype Color = White(w: WhiteBit) | Gray | Black
  type Colors = map<Id, Color>

  function Other(w: WhiteBit): WhiteBit {
    if w == White0 then White1 else White0
  }

  ghost predicate NonWhite(c: Colors, x: Id) {
    x in c && !c[x].White?
  }

  ghost predicate ValueMarked(c: Colors, v: Value) {
    v.Ref? ==> NonWhite(c, v.id)
  }

  /** The only change is that some white objects are not white any more. */
  ghost predicate Grows(c0: Colors, c1: Colors) {
    c1.Keys == c0.Keys && forall x :: x in c0 && c1[x].White? ==> c1[x] == c0[x]
  }

  ghost predicate EntryMarked(c: Colors, m: Mode, e: Entry) {
    (m.weakKey || ValueMarked(c, e.key)) && (m.weakValue || ValueMarked(c, e.val))
  }

  ghost function Whites(c: Colors): set<Id> {
    set x | x in c && c[x].White?
  }

  ghost function IdSet(s: seq<Id>): set<Id> {
    set x | x in s
  }

  ghost predicate NoDup(s: seq<Id>) {
    forall i, j :: 0 <= i < j < |s| ==> s[i] != s[j]
  }

  /** Everything that `x` refers to has been reached by the marking. */
  ghost predicate Settled(h: Heap, c: Colors, x: Id) {
    forall r :: Points(h, x, r) ==> NonWhite(c, r)
  }

  ghost predicate StrongSettled(h: Heap, c: Colors, x: Id) {
    forall r :: StrongPoints(h, x, r) ==> NonWhite(c, r)
  }

  /** How reallymarkobject leaves an object of each kind. */
  ghost predicate Marked(h: Heap, c: Colors, added: seq<Id>, x: Id)
    requires x in h && x in c
  {
    match h[x]
    case String(_) => c[x] == Gray
    case Userdata(_, _, _, _) => c[x] == Black && Settled(h, c, x)
    case UpVal(cell) => c[x] == (if cell.Open? then Gray else Black) && Settled(h, c, x)
    case _ => c[x] == Gray && x in added
  }

  /** What any amount of marking does to the colours: only white objects of `rs` change, and they end up marked. */
  ghost predicate MarkEffect(h: Heap, rs: set<Id>, c0: Colors, c1: Colors, added: seq<Id>) {
    && c1.Keys == c0.Keys
    && (forall x :: x in c0 && (!c0[x].White? || c1[x].White?) ==> c1[x] == c0[x])
    && (forall x :: x in c0 && c0[x].White? && !c1[x].White? ==> x in rs && x in h && Marked(h, c1, added, x))
    && (forall x :: x in added ==> x in c0 && c0[x].White? && c1[x] == Gray && x in h && Greyable(h[x]))
    && NoDup(added)
  }

  /** A marking in which each marked object pays for the entry that it may have put in front of the gray list. */
  ghost predicate MarkStep(h: Heap, rs: set<Id>, c0: Colors, c1: Colors, added: seq<Id>) {
    MarkEffect(h, rs, c0, c1, added) && |Whites(c1)| + |added| <= |Whites(c0)|
  }

  lemma MarkStepRefl(h: Heap, rs: set<Id>, c: Colors)
    ensures MarkStep(h, rs, c, c, [])
  {
  }

  lemma NoDupConcat(s: seq<Id>, t: seq<Id>)
    requires NoDup(s) && NoDup(t) && forall x :: x in s ==> x !in t
    ensures NoDup(s + t)
  {
    forall i, j | 0 <= i < j < |s + t|
      ensures (s + t)[i] != (s + t)[j]
    {
      if i < |s| <= j {
        assert s[i] in s && t[j - |s|] in t;
      }
    }
  }

  lemma MarkStepTrans(h: Heap, rs: set<Id>, c0: Colors, c1: Colors, a1: seq<Id>, c2: Colors, a2: seq<Id>)
    requires MarkStep(h, rs, c0, c1, a1)
    requires MarkStep(h, rs, c1, c2, a2)
    ensures MarkStep(h, rs, c0, c2, a2 + a1)
  {
    assert forall x :: x in a2 ==> c1[x].White?;
    NoDupConcat(a2, a1);
    forall x | x in c0 && c0[x].White? && !c2[x].White?
      ensures x in rs && x in h && Marked(h, c2, a2 + a1, x)
    {
      if !c1[x].White? {
      } else {
      }
    }
  }

  lemma WhitesStep(h: Heap, rs: set<Id>, c0: Colors, c1: Colors, added: seq<Id>)
    requires MarkStep(h, rs, c0, c1, added)
    ensures MarkEffect(h, rs, c0, c1, added)
    ensures Whites(c1) <= Whites(c0) && |Whites(c1)| + |added| <= |Whites(c0)|
  {
  }

  lemma WhitesDrop(c0: Colors, o: Id, k: Color)
    requires o in c0 && c0[o].White? && !k.White?
    ensures o in Whites(c0) && Whites(c0[o := k]) == Whites(c0) - {o}
  {
  }

  lemma MarkGreyable(h: Heap, rs: set<Id>, c0: Colors, o: Id)
    requires o in h && o in rs && o in c0 && c0[o].White? && Greyable(h[o])
    ensures MarkStep(h, rs, c0, c0[o := Gray], [o])
  {
    WhitesDrop(c0, o, Gray);
  }

  lemma MarkStepFixes(h: Heap, rs: set<Id>, c0: Colors, c1: Colors, added: seq<Id>)
    requires MarkStep(h, rs, c0, c1, added)
    ensures forall x :: NonWhite(c0, x) ==> x in c1 && c1[x] == c0[x]
  {
  }

  /** Colouring one object that is not queued, and then marking what it refers to, is a marking step. */
  lemma MarkOne(h: Heap, rs: set<Id>, c0: Colors, o: Id, k1: Color, c1: Colors, added: seq<Id>, k2: Color)
    requires o in h && o in rs && o in c0 && c0[o].White? && !Greyable(h[o])
    requires !k1.White? && !k2.White?
    requires MarkStep(h, rs, c0[o := k1], c1, added)
    requires o in c1 && Marked(h, c1[o := k2], added, o)
    ensures MarkStep(h, rs, c0, c1[o := k2], added)
  {
    var c0', c2 := c0[o := k1], c1[o := k2];
    WhitesDrop(c0, o, k1);
    assert c1[o] == k1;
    assert Whites(c2) == Whites(c1);
    assert forall r :: NonWhite(c1, r) ==> NonWhite(c2, r);
    forall x | x in c0 && c0[x].White? && !c2[x].White?
      ensures x in rs && x in h && Marked(h, c2, added, x)
    {
      if x != o {
        assert c0'[x].White? && Marked(h, c1, added, x);
      }
    }
  }

  /** A path on which marking the first object marks the last one at once, without the gray list: all objects
      before the last one are white, and are not queued when they are marked. */
  ghost predicate DirectPath(h: Heap, c: Colors, p: seq<Id>) {
    && p != []
    && forall i :: 0 <= i < |p| - 1 ==>
         p[i] in h && p[i] in c && c[p[i]].White? && !Greyable(h[p[i]]) && Points(h, p[i], p[i + 1])
  }

  ghost predicate Direct(h: Heap, c: Colors, o: Id, x: Id) {
    exists p :: DirectPath(h, c, p) && p[0] == o && p[|p| - 1] == x
  }

  /** What marking the value marks at once. */
  ghost predicate DirectValue(h: Heap, c: Colors, v: Value, x: Id) {
    v.Ref? && Direct(h, c, v.id, x)
  }

  /** Only objects that marking the value reaches at once have changed colour. */
  ghost predicate OnlyDirect(h: Heap, c0: Colors, c1: Colors, v: Value) {
    forall x :: x in c0 && x in c1 && c1[x] != c0[x] ==> DirectValue(h, c0, v, x)
  }

  lemma DirectRefl(h: Heap, c: Colors, o: Id)
    ensures Direct(h, c, o, o)
  {
    assert DirectPath(h, c, [o]);
  }

  lemma DirectStep(h: Heap, c0: Colors, c1: Colors, o: Id, v: Id, x: Id)
    requires o in h && o in c0 && c0[o].White? && !Greyable(h[o]) && Points(h, o, v)
    requires forall y :: y in c1 && c1[y].White? ==> y in c0 && c0[y].White?
    requires Direct(h, c1, v, x)
    ensures Direct(h, c0, o, x)
  {
    hide Points;
    var p :| DirectPath(h, c1, p) && p[0] == v && p[|p| - 1] == x;
    var q := [o] + p;
    forall i | 0 <= i < |q| - 1
      ensures q[i] in h && q[i] in c0 && c0[q[i]].White? && !Greyable(h[q[i]]) && Points(h, q[i], q[i + 1])
    {
      if i > 0 {
        assert q[i] == p[i - 1] && q[i + 1] == p[i];
      }
    }
    assert DirectPath(h, c0, q);
  }

  /** Marking `o` has marked the values `v` and `w`, of which it holds references, in this order. */
  lemma DirectTwo(h: Heap, c0: Colors, k: Color, c1: Colors, c2: Colors, o: Id, v: Value, w: Value)
    requires o in h && o in c0 && c0[o].White? && !Greyable(h[o]) && !k.White?
    requires (v.Ref? ==> Points(h, o, v.id)) && (w.Ref? ==> Points(h, o, w.id))
    requires Grows(c0[o := k], c1) && Grows(c1, c2)
    requires OnlyDirect(h, c0[o := k], c1, v) && OnlyDirect(h, c1, c2, w)
    ensures OnlyDirect(h, c0, c2, Ref(o))
  {
    hide Points;
    hide Direct;
    DirectRefl(h, c0, o);
    forall x | x in c0 && x in c2 && c2[x] != c0[x]
      ensures Direct(h, c0, o, x)
    {
      if x != o {
        if c1[x] != c0[x] {
          DirectStep(h, c0, c0[o := k], o, v.id, x);
        } else {
          DirectStep(h, c0, c1, o, w.id, x);
        }
      }
    }
  }

  lemma DirectUserdata(h: Heap, c0: Colors, c1: Colors, c2: Colors, o: Id)
    requires o in h && h[o].Userdata? && o in c0 && c0[o].White?
    requires Grows(c0[o := Black], c1) && Grows(c1, c2)
    requires OnlyDirect(h, c0[o := Black], c1, h[o].metatable) && OnlyDirect(h, c1, c2, h[o].env)
    ensures OnlyDirect(h, c0, c2, Ref(o))
  {
    hide OnlyDirect;
    DirectTwo(h, c0, Black, c1, c2, o, h[o].metatable, h[o].env);
  }

  lemma DirectUpVal(h: Heap, c0: Colors, c1: Colors, o: Id)
    requires o in h && h[o].UpVal? && o in c0 && c0[o].White?
    requires Grows(c0[o := Gray], c1) && OnlyDirect(h, c0[o := Gray], c1, CellValue(h, h[o].cell))
    ensures OnlyDirect(h, c0, c1, Ref(o)) && OnlyDirect(h, c0, c1[o := Black], Ref(o))
  {
    hide Direct;
    DirectTwo(h, c0, Gray, c1, c1, o, CellValue(h, h[o].cell), Nil);
    DirectRefl(h, c0, o);
  }

  /** Only objects that marking one of the values reaches at once have changed colour. */
  ghost predicate OnlyFrom(h: Heap, c0: Colors, c1: Colors, vs: seq<Value>) {
    forall x :: x in c0 && x in c1 && c1[x] != c0[x] ==> exists v :: v in vs && DirectValue(h, c0, v, x)
  }

  lemma OnlyFromNone(h: Heap, c: Colors, vs: seq<Value>)
    ensures OnlyFrom(h, c, c, vs)
  {
  }

  lemma OnlyFromMore(h: Heap, c0: Colors, c1: Colors, c2: Colors, vs: seq<Value>, v: Value)
    requires Grows(c0, c1) && Grows(c1, c2) && v in vs
    requires OnlyFrom(h, c0, c1, vs) && OnlyDirect(h, c1, c2, v)
    ensures OnlyFrom(h, c0, c2, vs)
  {
    hide Direct;
    forall x | x in c0 && x in c2 && c2[x] != c0[x]
      ensures exists v :: v in vs && DirectValue(h, c0, v, x)
    {
      if c1[x] == c0[x] {
        DirectEarlier(h, c0, c1, v.id, x);
        assert DirectValue(h, c0, v, x);
      }
    }
  }

  lemma OnlyDirectRefl(h: Heap, c: Colors, v: Value)
    ensures OnlyDirect(h, c, c, v)
  {
  }

  lemma OnlyDirectOne(h: Heap, c: Colors, o: Id, k: Color)
    ensures OnlyDirect(h, c, c[o := k], Ref(o))
  {
    DirectRefl(h, c, o);
  }

  /** A path stays one when the colours were whiter before. */
  lemma DirectEarlier(h: Heap, c0: Colors, c1: Colors, o: Id, x: Id)
    requires Direct(h, c1, o, x)
    requires forall y :: y in c1 && c1[y].White? ==> y in c0 && c0[y].White?
    ensures Direct(h, c0, o, x)
  {
    hide Points;
    var p :| DirectPath(h, c1, p) && p[0] == o && p[|p| - 1] == x;
    assert DirectPath(h, c0, p);
  }

  /** Marking reaches everything that it reaches at once. */
  lemma DirectMarked(h: Heap, rs: set<Id>, c0: Colors, c1: Colors, added: seq<Id>, o: Id, x: Id)
    requires MarkEffect(h, rs, c0, c1, added) && NonWhite(c1, o) && Direct(h, c0, o, x)
    ensures NonWhite(c1, x)
  {
    hide Points;
    var p :| DirectPath(h, c0, p) && p[0] == o && p[|p| - 1] == x;
    var i := 0;
    while i < |p| - 1
      invariant 0 <= i <= |p| - 1 && NonWhite(c1, p[i])
    {
      MarkedHolds(h, c1, added, p[i], p[i + 1]);
      i := i + 1;
    }
  }

  lemma MarkedHolds(h: Heap, c: Colors, added: seq<Id>, x: Id, r: Id)
    requires x in h && x in c && Marked(h, c, added, x) && !Greyable(h[x]) && Points(h, x, r)
    ensures NonWhite(c, r)
  {
  }

  lemma RefsInside(h: Heap, rs: set<Id>, x: Id)
    requires ClosedUnder(h, rs) && x in rs
    ensures rs <= h.Keys && forall r :: Spreads(h, x, r) ==> r in rs
    ensures h[x].Userdata? ==> (h[x].metatable.Ref? ==> h[x].metatable.id in rs) && (h[x].env.Ref? ==> h[x].env.id in rs)
    ensures h[x].UpVal? ==> var v := CellValue(h, h[x].cell); v.Ref? ==> v.id in rs
    ensures h[x].Function? ==> (h[x].env.Ref? ==> h[x].env.id in rs) && (h[x].proto.Ref? ==> h[x].proto.id in rs)
                               && forall r :: Ref(r) in h[x].upvals ==> r in rs
    ensures h[x].Proto? ==> forall r :: Ref(r) in h[x].names || Ref(r) in h[x].k || Ref(r) in h[x].p ==> r in rs
    ensures h[x].Thread? ==> (h[x].gt.Ref? ==> h[x].gt.id in rs) && forall r :: Ref(r) in h[x].stack ==> r in rs
    ensures h[x].Table? ==> (h[x].metatable.Ref? ==> h[x].metatable.id in rs)
                            && (!h[x].mode.weakValue ==> forall r :: Ref(r) in h[x].arr ==> r in rs)
                            && forall e, r :: e in h[x].node && EntrySpreads(e, h[x].mode, r) ==> r in rs
    ensures h[x].Table? ==> (forall r :: Ref(r) in h[x].arr && r in h && h[r].String? ==> r in rs)
                            && forall e, r :: e in h[x].node && EntryPoints(e, r) && r in h && h[r].String? ==> r in rs
  {
    assert !h[x].Table? ==> forall r :: Points(h, x, r) ==> Spreads(h, x, r);
    assert forall r :: Points(h, x, r) && r in h && h[r].String? ==> Spreads(h, x, r);
    if h[x].Table? {
      assert forall r :: Ref(r) in h[x].arr ==> Points(h, x, r) && (!h[x].mode.weakValue ==> StrongPoints(h, x, r));
      assert forall e, r :: e in h[x].node && EntryPoints(e, r) ==> Points(h, x, r);
      assert forall e, r :: e in h[x].node && EntrySpreads(e, h[x].mode, r) ==> StrongPoints(h, x, r);
    }
    match h[x]
    case Userdata(mt, env, _, _) =>
      assert mt.Ref? ==> Points(h, x, mt.id);
      assert env.Ref? ==> Points(h, x, env.id);
    case UpVal(c) =>
      assert CellValue(h, c).Ref? ==> Points(h, x, CellValue(h, c).id);
    case Function(env, p, us) =>
      assert env.Ref? ==> Points(h, x, env.id);
      assert p.Ref? ==> Points(h, x, p.id);
    case Table(mt, _, _, _) =>
      assert mt.Ref? ==> StrongPoints(h, x, mt.id);
    case Thread(gt, _, _) =>
      assert gt.Ref? ==> Points(h, x, gt.id);
    case _ =>
  }

  lemma TableRefsThere(h: Heap, t: Id)
    requires NoneDangling(h) && t in h && h[t].Table?
    ensures forall r :: Ref(r) in h[t].arr ==> r in h
    ensures forall e, r :: e in h[t].node && EntryPoints(e, r) ==> r in h
  {
    assert forall r :: Ref(r) in h[t].arr ==> Points(h, t, r);
    assert forall e, r :: e in h[t].node && EntryPoints(e, r) ==> Points(h, t, r);
  }

  lemma MarkedLeaf(h: Heap, c: Colors, o: Id)
    requires o in h && h[o].String? && o in c && c[o] == Gray
    ensures Marked(h, c[o := Gray], [], o) && c[o := Gray] == c
  {
  }

  lemma MarkedUserdata(h: Heap, c: Colors, added: seq<Id>, o: Id)
    requires o in h && h[o].Userdata? && o in c && c[o] == Black
    requires ValueMarked(c, h[o].metatable) && ValueMarked(c, h[o].env)
    ensures Marked(h, c[o := Black], added, o) && c[o := Black] == c
  {
    assert c[o := Black] == c;
  }

  lemma MarkedUpVal(h: Heap, c: Colors, added: seq<Id>, o: Id)
    requires o in h && h[o].UpVal? && o in c && c[o] == Gray
    requires ValueMarked(c, CellValue(h, h[o].cell))
    ensures Marked(h, c[o := if h[o].cell.Open? then Gray else Black], added, o) && c[o := Gray] == c
  {
    assert c[o := Gray] == c;
    var c2 := c[o := if h[o].cell.Open? then Gray else Black];
    assert forall r :: NonWhite(c, r) ==> NonWhite(c2, r);
  }

  lemma MarkedSettled(h: Heap, c: Colors, added: seq<Id>, x: Id)
    requires x in h && x in c && Marked(h, c, added, x) && x !in added
    ensures Settled(h, c, x)
  {
  }

  lemma OtherSettled(h: Heap, c: Colors, x: Id)
    requires x in h && Greyable(h[x]) && !h[x].Table?
    requires h[x].Function? ==> ValueMarked(c, h[x].env) && ValueMarked(c, h[x].proto) && forall r :: Ref(r) in h[x].upvals ==> NonWhite(c, r)
    requires h[x].Proto? ==> forall r :: Ref(r) in h[x].names || Ref(r) in h[x].k || Ref(r) in h[x].p ==> NonWhite(c, r)
    requires h[x].Thread? ==> ValueMarked(c, h[x].gt) && forall r :: Ref(r) in h[x].stack ==> NonWhite(c, r)
    ensures Settled(h, c, x)
  {
  }

  /** What the mark phase works on. */
  datatype MarkState = MarkState(h: Heap, c: Colors, gray: seq<Id>, grayagain: seq<Id>, weak: seq<Id>, bits: map<Id, Mode>)

  ghost predicate OnList(s: MarkState, x: Id) {
    x in s.gray || x in s.grayagain || x in s.weak
  }

  /** The three lists hold gray objects of the right kinds, each of them once and on one list only. */
  ghost predicate Lists(s: MarkState) {
    && s.c.Keys == s.h.Keys
    && NoDup(s.gray) && NoDup(s.grayagain) && NoDup(s.weak)
    && (forall x :: OnList(s, x) ==> x in s.h && s.c[x] == Gray && Greyable(s.h[x]))
    && (forall x :: x in s.gray ==> x !in s.grayagain && x !in s.weak)
    && (forall x :: x in s.grayagain ==> x !in s.weak && (s.h[x].Table? || s.h[x].Thread?))
    && (forall x :: x in s.weak ==> s.h[x].Table?)
  }

  /** Which colour a marked object of each kind may have between two steps. */
  ghost predicate Shades(s: MarkState)
    requires s.c.Keys == s.h.Keys
  {
    && (forall x :: x in s.h && s.c[x] == Black ==> !s.h[x].Thread? && !IsOpen(s.h[x]) && !s.h[x].String?)
    && (forall x :: x in s.h && s.c[x] == Gray ==>
          if Greyable(s.h[x]) then OnList(s, x) else s.h[x].String? || IsOpen(s.h[x]))
  }

  ghost predicate TraversedOne(s: MarkState, x: Id) {
    if x in s.weak
    then && x in s.h && s.h[x].Table? && x in s.bits && s.bits[x] == s.h[x].mode
         && (s.h[x].mode.weakKey || s.h[x].mode.weakValue) && StrongSettled(s.h, s.c, x)
    else Settled(s.h, s.c, x)
  }

  /** A marked object that is neither queued nor in `stale` has only marked references;
      for a table on the weak list this holds of its strong references. */
  ghost predicate Traversed(s: MarkState, stale: set<Id>) {
    forall x :: NonWhite(s.c, x) && x !in s.gray && x !in stale ==> TraversedOne(s, x)
  }

  /** The invariant of the mark phase. `rs` is any set of objects closed under references that
      contains whatever is marked; `stale` are the objects that the atomic step will visit again. */
  ghost predicate MarkInv(s: MarkState, stale: set<Id>, rs: set<Id>) {
    && Lists(s) && Shades(s) && Traversed(s, stale)
    && ClosedUnder(s.h, rs)
    && (forall x :: NonWhite(s.c, x) ==> x in rs)
  }

  lemma MarkStepLists(s: MarkState, rs: set<Id>, c: Colors, added: seq<Id>, s1: MarkState)
    requires Lists(s) && Shades(s) && MarkEffect(s.h, rs, s.c, c, added)
    requires s1 == s.(c := c, gray := added + s.gray)
    ensures Lists(s1) && Shades(s1)
  {
    assert forall x :: OnList(s, x) ==> OnList(s1, x);
    assert forall x :: OnList(s1, x) ==> OnList(s, x) || x in added;
    assert forall x :: x in added ==> s.c[x].White? && !OnList(s, x);
    NoDupConcat(added, s.gray) by {
      assert forall x :: x in s.gray ==> OnList(s, x);
    }
    assert Lists(s1);
    forall x | x in s.h && s1.c[x] == Gray && Greyable(s.h[x])
      ensures OnList(s1, x)
    {
      if s.c[x].White? {
        assert Marked(s.h, c, added, x);
      }
    }
    forall x | x in s.h && s.c[x].White? && !c[x].White?
      ensures c[x] == Black ==> !s.h[x].Thread? && !IsOpen(s.h[x]) && !s.h[x].String?
      ensures c[x] == Gray ==> Greyable(s.h[x]) || s.h[x].String? || IsOpen(s.h[x])
    {
      assert Marked(s.h, c, added, x);
    }
  }

  /** More marking keeps the invariant. */
  lemma MarkStepKeeps(s: MarkState, stale: set<Id>, rs: set<Id>, c: Colors, added: seq<Id>)
    requires MarkInv(s, stale, rs) && MarkEffect(s.h, rs, s.c, c, added)
    ensures MarkInv(s.(c := c, gray := added + s.gray), stale, rs)
  {
    hide Points;
    hide StrongPoints;
    hide Shades;
    var s1 := s.(c := c, gray := added + s.gray);
    MarkStepLists(s, rs, c, added, s1);
    forall x | NonWhite(s1.c, x) && x !in s1.gray && x !in stale
      ensures TraversedOne(s1, x)
    {
      if s.c[x].White? {
        assert Marked(s.h, c, added, x) && !OnList(s, x);
        MarkedSettled(s.h, c, added, x);
      } else {
        assert TraversedOne(s, x);
      }
    }
  }

  /** `s1` is `s` with its first gray object `o` taken off the list and put where it goes after its traversal. */
  ghost predicate Popped(s: MarkState, s1: MarkState)
    requires s.gray != [] && s.gray[0] in s.h
  {
    var o := s.gray[0];
    match s.h[o]
    case Table(_, _, _, m) =>
      if m.weakKey || m.weakValue
      then s1 == s.(gray := s.gray[1..], weak := [o] + s.weak, bits := s.bits[o := m])
      else s1 == s.(gray := s.gray[1..], c := s.c[o := Black])
    case Thread(_, _, _) => s1 == s.(gray := s.gray[1..], grayagain := [o] + s.grayagain)
    case _ => s1 == s.(gray := s.gray[1..], c := s.c[o := Black])
  }

  lemma PoppedLists(s: MarkState, s1: MarkState)
    requires Lists(s) && s.gray != [] && s.gray[0] in s.h && Popped(s, s1)
    ensures Lists(s1) && s.gray[0] !in s1.gray
    ensures Whites(s1.c) == Whites(s.c)
    ensures forall r :: NonWhite(s1.c, r) <==> NonWhite(s.c, r)
    ensures forall x :: x != s.gray[0] ==> (x in s1.gray <==> x in s.gray)
    ensures forall x :: x != s.gray[0] ==> (x in s1.weak <==> x in s.weak)
    ensures forall x :: x != s.gray[0] ==> (OnList(s1, x) <==> OnList(s, x))
  {
    var o, rest := s.gray[0], s.gray[1..];
    assert s.gray == [o] + rest;
    assert OnList(s, o);
    assert forall x :: x in s.gray <==> x in rest || x == o;
    assert o !in rest;
    var h := s.h[o];
    if h.Thread? {
      NoDupConcat([o], s.grayagain);
      assert s1.weak == s.weak && forall x :: x in s1.grayagain <==> x == o || x in s.grayagain;
    } else if h.Table? && (h.mode.weakKey || h.mode.weakValue) {
      NoDupConcat([o], s.weak);
      assert s1.grayagain == s.grayagain && forall x :: x in s1.weak <==> x == o || x in s.weak;
    } else {
      assert s1.grayagain == s.grayagain && s1.weak == s.weak;
    }
  }

  /** Until its references are marked, the object that was taken off counts as stale. */
  lemma PoppedKeeps(s: MarkState, stale: set<Id>, rs: set<Id>, s1: MarkState)
    requires MarkInv(s, stale, rs) && s.gray != [] && s.gray[0] in s.h && Popped(s, s1)
    ensures MarkInv(s1, stale + {s.gray[0]}, rs)
  {
    hide Points;
    hide StrongPoints;
    PoppedLists(s, s1);
    var o := s.gray[0];
    forall x | NonWhite(s1.c, x) && x !in s1.gray && x !in stale + {o}
      ensures TraversedOne(s1, x)
    {
      assert TraversedOne(s, x);
    }
  }

  lemma MarkStepRecolor(h: Heap, rs: set<Id>, c0: Colors, o: Id, k: Color, c1: Colors, added: seq<Id>)
    requires o in c0 && !c0[o].White? && !k.White?
    requires MarkStep(h, rs, c0[o := k], c1, added)
    ensures MarkStep(h, rs, c0, c1[o := c0[o]], added)
  {
    var c2 := c1[o := c0[o]];
    assert Whites(c0) == Whites(c0[o := k]);
    assert Whites(c2) == Whites(c1) by { assert c1[o] == k; }
    forall x | x in c0 && c0[x].White? && !c2[x].White?
      ensures x in rs && x in h && Marked(h, c2, added, x)
    {
      assert c0[o := k][x].White?;
    }
  }

  lemma TableSettled(h: Heap, c: Colors, t: Id)
    requires t in h && h[t].Table?
    requires ValueMarked(c, h[t].metatable)
    requires h[t].mode.weakValue || forall r :: Ref(r) in h[t].arr ==> NonWhite(c, r)
    requires (h[t].mode.weakKey && h[t].mode.weakValue) || forall e :: e in h[t].node ==> EntryMarked(c, h[t].mode, e)
    ensures StrongSettled(h, c, t)
    ensures !h[t].mode.weakKey && !h[t].mode.weakValue ==> Settled(h, c, t)
  {
    var m := h[t].mode;
    forall r | StrongPoints(h, t, r)
      ensures NonWhite(c, r)
    {
      if h[t].metatable != Ref(r) && (m.weakValue || Ref(r) !in h[t].arr) {
        var e :| e in h[t].node && ((!m.weakKey && e.key == Ref(r)) || (!m.weakValue && e.val == Ref(r)));
        assert EntryMarked(c, m, e);
      }
    }
    if !m.weakKey && !m.weakValue {
      forall r | Points(h, t, r)
        ensures NonWhite(c, r)
      {
        assert StrongPoints(h, t, r) by {
          if h[t].metatable != Ref(r) && Ref(r) !in h[t].arr {
            var e :| e in h[t].node && EntryPoints(e, r);
          }
        }
      }
    }
  }

  lemma StrongSettledGrows(h: Heap, c1: Colors, c2: Colors, x: Id)
    requires StrongSettled(h, c1, x)
    requires forall r :: NonWhite(c1, r) ==> NonWhite(c2, r)
    ensures StrongSettled(h, c2, x)
  {
    hide StrongPoints;
  }

  lemma NoLongerStale(s: MarkState, stale: set<Id>, rs: set<Id>, o: Id)
    requires MarkInv(s, stale + {o}, rs)
    requires NonWhite(s.c, o) ==> o in s.gray || TraversedOne(s, o)
    ensures MarkInv(s, stale, rs)
  {
    hide TraversedOne;
  }

  /** Taking one object off, marking its references and putting it back is one safe step. */
  lemma PropagateKeeps(s: MarkState, stale: set<Id>, rs: set<Id>, s1: MarkState, c: Colors, added: seq<Id>, s2: MarkState)
    requires MarkInv(s, stale, rs) && s.gray != [] && s.gray[0] in s.h && Popped(s, s1)
    requires MarkStep(s.h, rs, s1.c, c, added) && s2 == s1.(c := c, gray := added + s1.gray)
    requires if s.gray[0] in s1.weak then StrongSettled(s.h, c, s.gray[0]) else Settled(s.h, c, s.gray[0])
    ensures MarkInv(s2, stale, rs)
    ensures 2 * |Whites(s2.c)| + |s2.gray| < 2 * |Whites(s.c)| + |s.gray|
    ensures Grows(s.c, s2.c)
  {
    hide Points;
    hide StrongPoints;
    hide Shades;
    hide Traversed;
    hide MarkStep;
    PoppedLists(s, s1);
    PoppedKeeps(s, stale, rs, s1);
    WhitesStep(s.h, rs, s1.c, c, added);
    hide MarkEffect;
    MarkStepKeeps(s1, stale + {s.gray[0]}, rs, c, added);
    assert OnList(s, s.gray[0]);
    MarkStepFixes(s.h, rs, s1.c, c, added);
    NoLongerStale(s2, stale, rs, s.gray[0]);
  }

  /** What traversing one gray object does to colours and lists: no weak table becomes black, and only threads
      go to grayagain and only weak tables to the weak list. */
  ghost predicate Propagated(s0: MarkState, s: MarkState) {
    && Grows(s0.c, s.c) && s.h == s0.h
    && (forall x :: x in s.h && s.h[x].Table? && x in s.c && s.c[x] == Black ==>
          x in s0.c && (s0.c[x] == Black || !(s.h[x].mode.weakKey || s.h[x].mode.weakValue)))
    && (forall x :: x in s.grayagain ==> x in s0.grayagain || (x in s.h && s.h[x].Thread?))
    && (forall x :: x in s.weak ==> x in s0.weak || (x in s.h && s.h[x].Table? && (s.h[x].mode.weakKey || s.h[x].mode.weakValue)))
  }

  lemma PropagatedNow(s: MarkState, rs: set<Id>, s1: MarkState, added: seq<Id>, s2: MarkState)
    requires s.gray != [] && s.gray[0] in s.h && s.gray[0] in s.c && !s.c[s.gray[0]].White? && Popped(s, s1)
    requires MarkStep(s.h, rs, s1.c, s2.c, added) && s2 == s1.(c := s2.c, gray := added + s1.gray)
    ensures Propagated(s, s2)
  {
    hide Points;
    assert forall x :: x in s1.c && s1.c[x].White? && !s2.c[x].White? ==> Marked(s.h, s2.c, added, x);
    hide Settled;
  }

  ghost predicate WeakNotBlack(h: Heap, c: Colors) {
    forall x :: x in h && IsWeak(h[x]) && x in c ==> c[x] != Black
  }

  ghost predicate OnlyThreads(h: Heap, l: seq<Id>) {
    forall x :: x in l ==> x in h && h[x].Thread?
  }

  /** Of the marked objects, just the weak tables are on the list of those to be cleared. */
  ghost predicate WeakListed(m: MarkState) {
    forall t :: t in m.h && NonWhite(m.c, t) ==> (t in m.weak <==> IsWeak(m.h[t]))
  }

  /** Marking makes no weak table black. */
  lemma MarkedWeak(h: Heap, rs: set<Id>, c0: Colors, c1: Colors, added: seq<Id>)
    requires MarkEffect(h, rs, c0, c1, added)
    ensures WeakNotBlack(h, c0) ==> WeakNotBlack(h, c1)
  {
    hide Settled;
    assert forall x :: x in c0 && c0[x].White? && !c1[x].White? ==> Marked(h, c1, added, x);
  }

  lemma MarkStepWeak(h: Heap, rs: set<Id>, c0: Colors, c1: Colors, added: seq<Id>)
    requires MarkStep(h, rs, c0, c1, added)
    ensures WeakNotBlack(h, c0) ==> WeakNotBlack(h, c1)
  {
    hide MarkEffect;
    MarkedWeak(h, rs, c0, c1, added);
  }

  lemma PropagatedWeak(s0: MarkState, s: MarkState)
    requires Propagated(s0, s)
    ensures WeakNotBlack(s0.h, s0.c) ==> WeakNotBlack(s.h, s.c)
    ensures OnlyThreads(s0.h, s0.grayagain) ==> OnlyThreads(s.h, s.grayagain)
  {
  }

  lemma NoneThreads(h: Heap)
    ensures OnlyThreads(h, [])
  {
  }

  /** When nothing is left to traverse, a marked weak table is black or on the list. */
  lemma WeakListedNow(s: MarkState, rs: set<Id>)
    requires MarkInv(s, {}, rs) && s.gray == [] && OnlyThreads(s.h, s.grayagain) && WeakNotBlack(s.h, s.c)
    ensures WeakListed(s)
  {
    hide Points;
    hide StrongPoints;
    hide Settled;
    hide StrongSettled;
    forall t | t in s.h && NonWhite(s.c, t)
      ensures t in s.weak <==> IsWeak(s.h[t])
    {
      if IsWeak(s.h[t]) {
        assert s.c[t] == Gray && OnList(s, t);
      }
      assert TraversedOne(s, t);
    }
  }

  lemma StaleMono(s: MarkState, stale: set<Id>, stale2: set<Id>, rs: set<Id>)
    requires MarkInv(s, stale, rs) && stale <= stale2
    ensures MarkInv(s, stale2, rs)
  {
    hide TraversedOne;
  }

  lemma GrayFromWeak(s: MarkState, stale: set<Id>, stale2: set<Id>, rs: set<Id>)
    requires MarkInv(s, stale, rs) && s.gray == []
    requires forall x :: x in stale ==> x in stale2 || x in s.weak
    ensures MarkInv(s.(gray := s.weak, weak := []), stale2, rs)
  {
    hide Points;
    hide StrongPoints;
    var s1 := s.(gray := s.weak, weak := []);
    assert forall x :: OnList(s, x) <==> OnList(s1, x);
    forall x | NonWhite(s1.c, x) && x !in s1.gray && x !in stale2
      ensures TraversedOne(s1, x)
    {
      assert TraversedOne(s, x);
    }
  }

  lemma GrayFromGrayAgain(s: MarkState, stale: set<Id>, stale2: set<Id>, rs: set<Id>)
    requires MarkInv(s, stale, rs) && s.gray == []
    requires forall x :: x in stale ==> x in stale2 || x in s.grayagain
    ensures MarkInv(s.(gray := s.grayagain, grayagain := []), stale2, rs)
  {
    hide Points;
    hide StrongPoints;
    var s1 := s.(gray := s.grayagain, grayagain := []);
    assert forall x :: OnList(s, x) <==> OnList(s1, x);
    forall x | NonWhite(s1.c, x) && x !in s1.gray && x !in stale2
      ensures TraversedOne(s1, x)
    {
      assert TraversedOne(s, x);
    }
  }

  /** marktmu: whitening a userdata and marking it again. */
  lemma Remark(h: Heap, rs: set<Id>, c0: Colors, u: Id, w: WhiteBit, c1: Colors, added: seq<Id>)
    requires u in c0 && u in h && h[u].Userdata? && (c0[u] == White(w) || c0[u] == Black)
    requires MarkStep(h, rs, c0[u := White(w)], c1, added) && NonWhite(c1, u)
    ensures MarkEffect(h, rs, c0, c1, added)
    ensures Settled(h, c1, u)
    ensures Grows(c0, c1)
  {
    var c0' := c0[u := White(w)];
    assert c0'[u].White? && !c1[u].White?;
    assert Marked(h, c1, added, u);
    forall x | x in c0 && c0[x].White? && !c1[x].White?
      ensures x in rs && x in h && Marked(h, c1, added, x)
    {
      assert c0'[x].White?;
    }
  }

  /** Heaps that differ only in what some tables hold, or in flags that are no references. */
  ghost predicate SameButTables(h: Heap, h1: Heap) {
    && h1.Keys == h.Keys
    && forall x :: x in h && h1[x] != h[x] ==> h[x].Table? && h1[x].Table?
  }

  /** Between the two colourings only strings of `rs` were marked. */
  ghost predicate StringsMarked(h: Heap, rs: set<Id>, c: Colors, c1: Colors) {
    && c1.Keys == c.Keys
    && forall x :: x in c && c1[x] != c[x] ==> x in h && h[x].String? && c1[x] == Gray && x in rs
  }

  lemma ValuesClearedGrows(vs: seq<Value>, vs1: seq<Value>, c: Colors, c1: Colors)
    requires ValuesCleared(vs, vs1, c) && Grows(c, c1)
    ensures ValuesCleared(vs, vs1, c1)
  {
  }

  /** What is left of a list of values once the unreached ones are cleared. */
  ghost predicate ValuesCleared(vs: seq<Value>, vs1: seq<Value>, c: Colors) {
    && |vs1| == |vs|
    && (forall r :: Ref(r) in vs1 ==> Ref(r) in vs && NonWhite(c, r))
  }

  ghost predicate EntriesCleared(es: seq<Entry>, es1: seq<Entry>, c: Colors) {
    forall e :: e in es1 ==> e in es && ValueMarked(c, e.key) && ValueMarked(c, e.val)
  }

  /** iscleared, without its effect on strings: whether a weak table drops an entry for this key or value. */
  predicate Drops(h: Heap, c: Colors, v: Value, isKey: bool) {
    && v.Ref? && v.id in h && v.id in c && !h[v.id].String?
    && (c[v.id].White? || (h[v.id].Userdata? && !isKey && h[v.id].finalized))
  }

  function ValuesLeft(h: Heap, c: Colors, vs: seq<Value>): seq<Value> {
    seq(|vs|, i requires 0 <= i < |vs| => if Drops(h, c, vs[i], false) then Nil else vs[i])
  }

  function EntriesLeft(h: Heap, c: Colors, es: seq<Entry>): seq<Entry> {
    if es == [] then []
    else (if Drops(h, c, es[0].key, true) || Drops(h, c, es[0].val, false) then [] else [es[0]]) + EntriesLeft(h, c, es[1..])
  }

  /** What cleartable leaves of a table. */
  function TableLeft(h: Heap, c: Colors, o: Object): Object
    requires o.Table?
  {
    o.(arr := if o.mode.weakValue then ValuesLeft(h, c, o.arr) else o.arr, node := EntriesLeft(h, c, o.node))
  }

  /** As a key, everything stays that is marked or not collectable, and every string. */
  predicate StaysAsKey(h: Heap, c: Colors, v: Value) {
    v.Ref? && v.id in h && v.id in c ==> h[v.id].String? || !c[v.id].White?
  }

  /** As a value, a userdata that has been finalized does not stay either. */
  predicate StaysAsValue(h: Heap, c: Colors, v: Value) {
    v.Ref? && v.id in h && v.id in c ==>
      h[v.id].String? || (!c[v.id].White? && !(h[v.id].Userdata? && h[v.id].finalized))
  }

  /** `o1` is what is left of the weak table `o`: weak values of the array part that do not stay are nil, and just
      the entries are left of which both the key and the value stay. */
  ghost predicate TableCleared(h: Heap, c: Colors, o: Object, o1: Object) {
    && o.Table? && o1.Table? && o1.metatable == o.metatable && o1.mode == o.mode && |o1.arr| == |o.arr|
    && (forall i :: 0 <= i < |o.arr| ==>
          o1.arr[i] == if o.mode.weakValue && !StaysAsValue(h, c, o.arr[i]) then Nil else o.arr[i])
    && forall e :: e in o1.node <==> e in o.node && StaysAsKey(h, c, e.key) && StaysAsValue(h, c, e.val)
  }

  lemma {:induction false} EntriesLeftMeaning(h: Heap, c: Colors, es: seq<Entry>)
    ensures forall e :: e in EntriesLeft(h, c, es) <==> e in es && StaysAsKey(h, c, e.key) && StaysAsValue(h, c, e.val)
  {
    if es != [] {
      EntriesLeftMeaning(h, c, es[1..]);
      assert es == [es[0]] + es[1..];
    }
  }

  lemma TableLeftMeaning(h: Heap, c: Colors, o: Object)
    requires o.Table?
    ensures TableCleared(h, c, o, TableLeft(h, c, o))
  {
    EntriesLeftMeaning(h, c, o.node);
    hide EntriesLeft;
  }

  /** The tables on the weak list have been cleared, and nothing else has changed. */
  ghost predicate WeakCleared(h: Heap, c: Colors, weak: seq<Id>, h1: Heap) {
    && h1.Keys == h.Keys
    && forall x :: x in h ==> h1[x] == if x in weak && h[x].Table? then TableLeft(h, c, h[x]) else h[x]
  }

  /** Marking strings and clearing tables do not change what is dropped. */
  lemma DropsSame(h: Heap, rs: set<Id>, c: Colors, h1: Heap, c1: Colors)
    requires StringsMarked(h, rs, c, c1) && SameButTables(h, h1)
    ensures forall v, k :: Drops(h1, c1, v, k) == Drops(h, c, v, k)
  {
  }

  lemma {:induction false} EntriesLeftSame(h: Heap, c: Colors, h1: Heap, c1: Colors, es: seq<Entry>)
    requires forall v, k :: Drops(h1, c1, v, k) == Drops(h, c, v, k)
    ensures EntriesLeft(h1, c1, es) == EntriesLeft(h, c, es)
  {
    if es != [] {
      EntriesLeftSame(h, c, h1, c1, es[1..]);
    }
  }

  lemma SameEntriesLeft(h: Heap, rs: set<Id>, c: Colors, c1: Colors, es: seq<Entry>)
    requires StringsMarked(h, rs, c, c1)
    ensures EntriesLeft(h, c1, es) == EntriesLeft(h, c, es)
  {
    FewerPointsRefl(h);
    DropsSame(h, rs, c, h, c1);
    EntriesLeftSame(h, c, h, c1, es);
  }

  lemma TableLeftSame(h: Heap, rs: set<Id>, c: Colors, h1: Heap, c1: Colors, o: Object)
    requires StringsMarked(h, rs, c, c1) && SameButTables(h, h1) && o.Table?
    ensures TableLeft(h1, c1, o) == TableLeft(h, c, o)
  {
    hide StringsMarked;
    hide SameButTables;
    DropsSame(h, rs, c, h1, c1);
    hide Drops;
    EntriesLeftSame(h, c, h1, c1, o.node);
    assert ValuesLeft(h1, c1, o.arr) == ValuesLeft(h, c, o.arr);
  }

  lemma WeakClearedStarts(h: Heap, c: Colors)
    ensures WeakCleared(h, c, [], h)
  {
  }

  lemma WeakClearedStep(h: Heap, rs: set<Id>, c: Colors, weak: seq<Id>, i: nat, h1: Heap, c1: Colors, h2: Heap)
    requires i < |weak| && WeakCleared(h, c, weak[..i], h1) && NoDup(weak) && weak[i] in h && h[weak[i]].Table?
    requires StringsMarked(h, rs, c, c1) && SameButTables(h, h1)
    requires weak[i] in h1 && h1[weak[i]].Table? && h2 == h1[weak[i] := TableLeft(h1, c1, h1[weak[i]])]
    ensures WeakCleared(h, c, weak[..i + 1], h2)
  {
    TableLeftSame(h, rs, c, h1, c1, h[weak[i]]);
    hide TableLeft;
    hide StringsMarked;
    hide SameButTables;
    assert weak[..i + 1] == weak[..i] + [weak[i]];
    assert weak[i] !in weak[..i];
  }

  lemma ClearedTable(h: Heap, c: Colors, c1: Colors, t: Id, m: Mode, arr: seq<Value>, node: seq<Entry>, h1: Heap)
    requires t in h && h[t].Table? && h[t].mode == m && StrongSettled(h, c, t) && Grows(c, c1)
    requires if m.weakValue then ValuesCleared(h[t].arr, arr, c1) else arr == h[t].arr
    requires EntriesCleared(h[t].node, node, c1)
    requires h1 == h[t := h[t].(arr := arr, node := node)]
    ensures Settled(h1, c1, t)
    ensures forall r :: (Points(h1, t, r) ==> Points(h, t, r)) && (StrongPoints(h1, t, r) ==> StrongPoints(h, t, r))
  {
    forall r | StrongPoints(h1, t, r)
      ensures StrongPoints(h, t, r)
    {
      if h[t].metatable != Ref(r) && (m.weakValue || Ref(r) !in arr) {
        var e :| e in node && ((!m.weakKey && e.key == Ref(r)) || (!m.weakValue && e.val == Ref(r)));
        assert e in h[t].node;
      }
    }
    forall r | Points(h1, t, r)
      ensures NonWhite(c1, r) && Points(h, t, r)
    {
      if h[t].metatable == Ref(r) {
        assert StrongPoints(h, t, r);
      } else if Ref(r) in arr {
        assert !m.weakValue ==> StrongPoints(h, t, r);
      } else {
        var e :| e in node && EntryPoints(e, r);
        assert e in h[t].node;
      }
    }
  }

  /** No marked object refers to one that is not marked, not even through the weak side of a table. */
  ghost predicate AllSettled(h: Heap, c: Colors) {
    forall x :: NonWhite(c, x) ==> Settled(h, c, x)
  }

  /** The second heap has no reference that the first one does not have. */
  ghost predicate FewerPoints(h: Heap, h1: Heap) {
    forall x, r :: (Points(h1, x, r) ==> Points(h, x, r)) && (StrongPoints(h1, x, r) ==> StrongPoints(h, x, r))
  }

  ghost predicate SamePoints(h: Heap, h1: Heap) {
    forall x, r :: (Points(h1, x, r) <==> Points(h, x, r)) && (StrongPoints(h1, x, r) <==> StrongPoints(h, x, r))
  }

  lemma SettledInNewHeap(h: Heap, h1: Heap, c: Colors, c1: Colors, x: Id)
    requires FewerPoints(h, h1) && Grows(c, c1) && Settled(h, c, x)
    ensures Settled(h1, c1, x)
  {
    hide Points;
    hide StrongPoints;
  }

  lemma OneTableFewerPoints(h: Heap, h1: Heap, t: Id)
    requires t in h && h[t].Table? && t in h1 && h1[t].Table? && h1.Keys == h.Keys
    requires forall x :: x in h && x != t ==> h1[x] == h[x]
    requires forall r :: (Points(h1, t, r) ==> Points(h, t, r)) && (StrongPoints(h1, t, r) ==> StrongPoints(h, t, r))
    ensures FewerPoints(h, h1) && SameButTables(h, h1)
  {
    assert SameButTables(h, h1);
    forall x, r
      ensures (Points(h1, x, r) ==> Points(h, x, r)) && (StrongPoints(h1, x, r) ==> StrongPoints(h, x, r))
    {
      if x != t {
        SameButTablesPoints(h, h1, x, r);
      }
    }
  }

  lemma SameButTablesPoints(h: Heap, h1: Heap, x: Id, r: Id)
    requires SameButTables(h, h1) && (x in h ==> h1[x] == h[x])
    ensures (Points(h1, x, r) <==> Points(h, x, r)) && (StrongPoints(h1, x, r) <==> StrongPoints(h, x, r))
  {
  }

  lemma FewerPointsTrans(h0: Heap, h1: Heap, h2: Heap)
    requires FewerPoints(h0, h1) && FewerPoints(h1, h2)
    requires SameButTables(h0, h1) && SameButTables(h1, h2)
    ensures FewerPoints(h0, h2) && SameButTables(h0, h2)
  {
    hide Points;
    hide StrongPoints;
  }

  lemma ClosedFewerPoints(h: Heap, h1: Heap, rs: set<Id>)
    requires ClosedUnder(h, rs) && FewerPoints(h, h1) && h1.Keys == h.Keys
    requires forall r :: r in h1 && h1[r].String? ==> h[r].String?
    ensures ClosedUnder(h1, rs)
  {
    hide Points;
    hide StrongPoints;
    assert forall x, r :: Spreads(h1, x, r) ==> Spreads(h, x, r);
  }

  lemma NoneDanglingFewer(h: Heap, h1: Heap)
    requires NoneDangling(h) && FewerPoints(h, h1) && h1.Keys == h.Keys
    ensures NoneDangling(h1)
  {
    hide Points;
    hide StrongPoints;
  }

  lemma FewerPointsRefl(h: Heap)
    ensures FewerPoints(h, h) && SameButTables(h, h)
  {
  }
}
