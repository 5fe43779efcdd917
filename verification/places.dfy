/** Where each collectable object is linked, and which objects the sweep may free. */
module Places {
  import opened LuaObjects
  import opened Marking

  /** The lists that link the objects: `rootgc` up to the main thread, the userdata after it, the string
      buckets, the userdata waiting for their finalizer, and the open upvalues of all threads. */
  datatype Links = Links(rootgc: seq<Id>, udata: seq<Id>, strt: seq<seq<Id>>, tmudata: seq<Id>, uvhead: seq<Id>)

  /** `lmod`: the bucket of a string. */
  function Bucket(hash: nat, buckets: nat): (b: nat)
    requires buckets > 0
    ensures b < buckets
  {
    hash % buckets
  }

  ghost predicate StringsLinked(h: Heap, strt: seq<seq<Id>>) {
    && |strt| > 0
    && (forall b :: 0 <= b < |strt| ==> NoDup(strt[b]))
    && (forall b, x :: 0 <= b < |strt| && x in strt[b] ==> x in h && h[x].String? && Bucket(h[x].hash, |strt|) == b)
    && (forall x :: x in h && h[x].String? ==> x in strt[Bucket(h[x].hash, |strt|)])
  }

  /** Each open upvalue is once in the list of the thread whose stack it points into, and nothing else is. */
  ghost predicate OpenLists(h: Heap) {
    && (forall x :: x in h && IsOpen(h[x]) ==>
          h[x].cell.th in h && h[h[x].cell.th].Thread? && x in h[h[x].cell.th].openupval)
    && (forall t :: t in h && h[t].Thread? ==> NoDup(h[t].openupval))
    && (forall t, u :: t in h && h[t].Thread? && u in h[t].openupval ==> u in h && IsOpen(h[u]) && h[u].cell.th == t)
  }

  ghost predicate UpValsLinked(h: Heap, uvhead: seq<Id>) {
    NoDup(uvhead) && (forall x :: x in uvhead <==> x in h && IsOpen(h[x])) && OpenLists(h)
  }

  /** Each object is linked once, in the list that its kind calls for. */
  ghost predicate Linked(h: Heap, l: Links) {
    && NoDup(l.rootgc) && NoDup(l.udata) && NoDup(l.tmudata)
    && (forall x :: x in l.rootgc <==> x in h && !h[x].String? && !h[x].Userdata? && !IsOpen(h[x]))
    && (forall x :: x in l.udata ==> x in h && h[x].Userdata? && x !in l.tmudata)
    && (forall x :: x in l.tmudata ==> x in h && h[x].Userdata?)
    && (forall x :: x in h && h[x].Userdata? ==> x in l.udata || x in l.tmudata)
    && StringsLinked(h, l.strt)
    && UpValsLinked(h, l.uvhead)
  }

  ghost function ValueIds(vs: seq<Value>): set<Id> {
    set v | v in vs && v.Ref? :: v.id
  }

  /** What decides whether a sweep may free an object. */
  datatype Sweeping = Sweeping(h: Heap, c: Colors, cw: WhiteBit, fixed: set<Id>)

  /** `isdead`, with the fixed bit that the sweep's mask takes into account. */
  predicate Dead(c: Colors, cw: WhiteBit, fixed: set<Id>, x: Id)
    requires x in c
  {
    c[x] == White(Other(cw)) && x !in fixed
  }

  ghost predicate Live(s: Sweeping, x: Id) {
    x in s.h && x in s.c && !Dead(s.c, s.cw, s.fixed, x)
  }

  /** No object that may survive refers to one that may be freed, nor is that a userdata whose finalizer has still to
      be called. */
  ghost predicate Safe(s: Sweeping) {
    && (forall x, r :: Live(s, x) && Points(s.h, x, r) ==> Live(s, r))
    && (forall u :: Pending(s.h, u) ==> Live(s, u))
  }

  /** A path of references from a root. */
  ghost predicate IsPath(h: Heap, roots: set<Id>, p: seq<Id>) {
    && p != [] && p[0] in roots
    && forall i :: 0 <= i < |p| - 1 ==> Points(h, p[i], p[i + 1])
  }

  ghost predicate Accessible(h: Heap, roots: set<Id>, x: Id) {
    exists p :: IsPath(h, roots, p) && p[|p| - 1] == x
  }

  /** Whatever contains the roots and is closed under references contains all accessible objects. */
  lemma {:induction false} PathInside(h: Heap, roots: set<Id>, p: seq<Id>, s: iset<Id>)
    requires IsPath(h, roots, p)
    requires forall r :: r in roots ==> r in s
    requires forall x, r :: x in s && Points(h, x, r) ==> r in s
    ensures p[|p| - 1] in s
  {
    if |p| > 1 {
      var q := p[..|p| - 1];
      PathInside(h, roots, q, s);
      assert Points(h, p[|p| - 2], p[|p| - 1]);
    }
  }

  /** The safety of the collector: nothing that the roots reach, strongly or through a weak table,
      has been freed or is going to be freed by the sweep that is under way. */
  lemma AccessibleLive(s: Sweeping, roots: set<Id>, x: Id)
    requires Safe(s) && Accessible(s.h, roots, x)
    requires forall r :: r in roots ==> Live(s, r)
    ensures Live(s, x)
  {
    var p :| IsPath(s.h, roots, p) && p[|p| - 1] == x;
    PathInside(s.h, roots, p, iset y | Live(s, y));
  }

  lemma AccessibleStep(h: Heap, roots: set<Id>, x: Id, r: Id)
    requires Accessible(h, roots, x) && Points(h, x, r)
    ensures Accessible(h, roots, r)
  {
    var p :| IsPath(h, roots, p) && p[|p| - 1] == x;
    var q := p + [r];
    forall i | 0 <= i < |q| - 1
      ensures Points(h, q[i], q[i + 1])
    {
      if i < |p| - 1 {
        assert Points(h, p[i], p[i + 1]);
      }
    }
    assert IsPath(h, roots, q) && q[|q| - 1] == r;
  }

  lemma AccessibleRoot(h: Heap, roots: set<Id>, r: Id)
    requires r in roots
    ensures Accessible(h, roots, r)
  {
    assert IsPath(h, roots, [r]) && [r][0] == r;
  }

  ghost predicate IsStrongPath(h: Heap, roots: set<Id>, p: seq<Id>) {
    && p != [] && p[0] in roots
    && forall i :: 0 <= i < |p| - 1 ==> StrongPoints(h, p[i], p[i + 1])
  }

  /** The roots reach `x` without the weak sides of weak tables. */
  ghost predicate StrongAccessible(h: Heap, roots: set<Id>, x: Id) {
    exists p :: IsStrongPath(h, roots, p) && p[|p| - 1] == x
  }

  lemma {:induction false} StrongPathInside(h: Heap, roots: set<Id>, p: seq<Id>, s: iset<Id>)
    requires IsStrongPath(h, roots, p)
    requires forall r :: r in roots ==> r in s
    requires forall x, r :: x in s && StrongPoints(h, x, r) ==> r in s
    ensures p[|p| - 1] in s
  {
    if |p| > 1 {
      var q := p[..|p| - 1];
      forall i | 0 <= i < |q| - 1
        ensures StrongPoints(h, q[i], q[i + 1])
      {
        assert q[i] == p[i] && q[i + 1] == p[i + 1];
      }
      StrongPathInside(h, roots, q, s);
      assert StrongPoints(h, p[|p| - 2], p[|p| - 1]);
    }
  }

  /** A path along which marking goes. */
  ghost predicate IsMarkPath(h: Heap, roots: set<Id>, p: seq<Id>) {
    && p != [] && p[0] in roots
    && forall i :: 0 <= i < |p| - 1 ==> Spreads(h, p[i], p[i + 1])
  }

  ghost predicate MarkAccessible(h: Heap, roots: set<Id>, x: Id) {
    exists p :: IsMarkPath(h, roots, p) && p[|p| - 1] == x
  }

  lemma {:induction false} MarkPathInside(h: Heap, roots: set<Id>, p: seq<Id>, s: iset<Id>)
    requires IsMarkPath(h, roots, p)
    requires forall r :: r in roots ==> r in s
    requires forall x, r :: x in s && Spreads(h, x, r) ==> r in s
    ensures p[|p| - 1] in s
  {
    if |p| > 1 {
      var q := p[..|p| - 1];
      forall i | 0 <= i < |q| - 1
        ensures Spreads(h, q[i], q[i + 1])
      {
        assert q[i] == p[i] && q[i + 1] == p[i + 1];
      }
      MarkPathInside(h, roots, q, s);
      assert Spreads(h, p[|p| - 2], p[|p| - 1]);
    }
  }

  lemma MarkAccessibleStep(h: Heap, roots: set<Id>, x: Id, r: Id)
    requires MarkAccessible(h, roots, x) && Spreads(h, x, r)
    ensures MarkAccessible(h, roots, r)
  {
    hide Spreads;
    var p :| IsMarkPath(h, roots, p) && p[|p| - 1] == x;
    var q := p + [r];
    forall i | 0 <= i < |q| - 1
      ensures Spreads(h, q[i], q[i + 1])
    {
      if i < |p| - 1 {
        assert Spreads(h, p[i], p[i + 1]);
      }
    }
    assert IsMarkPath(h, roots, q) && q[|q| - 1] == r;
  }

  lemma MarkAccessibleRoot(h: Heap, roots: set<Id>, r: Id)
    requires r in roots
    ensures MarkAccessible(h, roots, r)
  {
    assert IsMarkPath(h, roots, [r]) && [r][0] == r;
  }

  lemma MarkAccessibleIn(h: Heap, roots: set<Id>, rs: set<Id>, x: Id)
    requires ClosedUnder(h, rs) && (forall r :: r in roots ==> r in rs) && MarkAccessible(h, roots, x)
    ensures x in rs
  {
    hide Spreads;
    var p :| IsMarkPath(h, roots, p) && p[|p| - 1] == x;
    MarkPathInside(h, roots, p, iset y | y in rs);
  }

  /** Marking goes along strong references, up to a string at the end. */
  lemma {:induction false} MarkPathStrong(h: Heap, roots: set<Id>, p: seq<Id>)
    requires IsMarkPath(h, roots, p) && !(p[|p| - 1] in h && h[p[|p| - 1]].String?)
    ensures IsStrongPath(h, roots, p)
  {
    forall i | 0 <= i < |p| - 1
      ensures StrongPoints(h, p[i], p[i + 1])
    {
      assert Spreads(h, p[i], p[i + 1]);
      if i + 1 < |p| - 1 {
        assert Spreads(h, p[i + 1], p[i + 2]);
        StringSpreadsNowhere(h, p[i + 1], p[i + 2]);
      }
    }
  }

  lemma StringSpreadsNowhere(h: Heap, x: Id, r: Id)
    ensures x in h && h[x].String? ==> !Spreads(h, x, r)
  {
  }

  lemma MarkIsStrong(h: Heap, roots: set<Id>, x: Id)
    ensures MarkAccessible(h, roots, x) && !(x in h && h[x].String?) ==> StrongAccessible(h, roots, x)
    ensures StrongAccessible(h, roots, x) ==> MarkAccessible(h, roots, x)
  {
    if MarkAccessible(h, roots, x) && !(x in h && h[x].String?) {
      var p :| IsMarkPath(h, roots, p) && p[|p| - 1] == x;
      MarkPathStrong(h, roots, p);
    }
    if StrongAccessible(h, roots, x) {
      var p :| IsStrongPath(h, roots, p) && p[|p| - 1] == x;
      assert IsMarkPath(h, roots, p);
    }
  }

  lemma StrongIsPointed(h: Heap, x: Id, r: Id)
    ensures StrongPoints(h, x, r) ==> Points(h, x, r)
    ensures (x in h && h[x].Table? ==> !h[x].mode.weakKey && !h[x].mode.weakValue) && Points(h, x, r) ==> StrongPoints(h, x, r)
  {
    if x in h && h[x].Table? && StrongPoints(h, x, r) && h[x].metatable != Ref(r) && Ref(r) !in h[x].arr {
      var e :| e in h[x].node && ((!h[x].mode.weakKey && e.key == Ref(r)) || (!h[x].mode.weakValue && e.val == Ref(r)));
      assert EntryPoints(e, r);
    }
  }

  lemma StrongIsAccessible(h: Heap, roots: set<Id>, x: Id)
    requires StrongAccessible(h, roots, x)
    ensures Accessible(h, roots, x)
  {
    hide Points;
    hide StrongPoints;
    var p :| IsStrongPath(h, roots, p) && p[|p| - 1] == x;
    forall i | 0 <= i < |p| - 1
      ensures Points(h, p[i], p[i + 1])
    {
      StrongIsPointed(h, p[i], p[i + 1]);
    }
    assert IsPath(h, roots, p);
  }

  lemma MarkIsAccessible(h: Heap, roots: set<Id>, x: Id)
    requires MarkAccessible(h, roots, x)
    ensures Accessible(h, roots, x)
  {
    hide Points;
    hide StrongPoints;
    var p :| IsMarkPath(h, roots, p) && p[|p| - 1] == x;
    forall i | 0 <= i < |p| - 1
      ensures Points(h, p[i], p[i + 1])
    {
      assert Spreads(h, p[i], p[i + 1]);
      StrongIsPointed(h, p[i], p[i + 1]);
    }
    assert IsPath(h, roots, p);
  }

  /** Without weak tables there is no difference. */
  lemma AllStrong(h: Heap, roots: set<Id>, x: Id)
    requires forall t :: t in h && h[t].Table? ==> !h[t].mode.weakKey && !h[t].mode.weakValue
    ensures Accessible(h, roots, x) ==> StrongAccessible(h, roots, x)
  {
    hide Points;
    hide StrongPoints;
    if Accessible(h, roots, x) {
      var p :| IsPath(h, roots, p) && p[|p| - 1] == x;
      forall i | 0 <= i < |p| - 1
        ensures StrongPoints(h, p[i], p[i + 1])
      {
        StrongIsPointed(h, p[i], p[i + 1]);
      }
      assert IsStrongPath(h, roots, p);
    }
  }

  /** The only change is that some userdata are flagged as finalized. */
  ghost predicate SeparatedFrom(h: Heap, h1: Heap) {
    && h1.Keys == h.Keys
    && forall x :: x in h ==> h1[x] == h[x] || (h[x].Userdata? && h1[x] == h[x].(finalized := true))
  }

  ghost predicate UdataKnown(h: Heap, c: Colors, udata: seq<Id>) {
    NoDup(udata) && forall x :: x in udata ==> x in h && h[x].Userdata? && x in c
  }

  /** `kept` and `moved` are what `all` consists of. */
  ghost predicate Split(all: seq<Id>, kept: seq<Id>, moved: seq<Id>) {
    && (forall x :: x in all <==> x in kept || x in moved)
    && (forall x :: x in kept ==> x !in moved)
    && NoDup(kept) && NoDup(moved)
  }

  lemma SplitKeep(all: seq<Id>, kept: seq<Id>, moved: seq<Id>, u: Id)
    requires Split(all, kept, moved) && u !in all
    ensures Split(all + [u], kept + [u], moved)
  {
    NoDupConcat(kept, [u]);
  }

  lemma SplitMove(all: seq<Id>, kept: seq<Id>, moved: seq<Id>, u: Id)
    requires Split(all, kept, moved) && u !in all
    ensures Split(all + [u], kept, moved + [u])
  {
    NoDupConcat(moved, [u]);
  }

  lemma UpvalInside(s: MarkState, stale: set<Id>, rs: set<Id>, u: Id)
    requires MarkInv(s, stale, rs) && u in s.h && IsOpen(s.h[u])
    ensures u in s.c
    ensures s.c[u] == Gray ==> var v := CellValue(s.h, s.h[u].cell); v.Ref? ==> v.id in rs
  {
    if s.c[u] == Gray {
      assert NonWhite(s.c, u);
      RefsInside(s.h, rs, u);
    }
  }

  lemma UpvalTraversed(s: MarkState, later: set<Id>, rs: set<Id>, u: Id)
    requires MarkInv(s, later + {u}, rs) && u in s.h && IsOpen(s.h[u])
    requires u in s.c && s.c[u] == Gray ==> ValueMarked(s.c, CellValue(s.h, s.h[u].cell))
    ensures MarkInv(s, later, rs)
  {
    assert u !in s.weak;
    NoLongerStale(s, later, rs, u);
  }

  lemma UserdataTraversed(s: MarkState, later: set<Id>, rs: set<Id>, u: Id)
    requires MarkInv(s, later + {u}, rs) && u in s.h && s.h[u].Userdata? && Settled(s.h, s.c, u)
    ensures MarkInv(s, later, rs)
  {
    assert u !in s.weak;
    NoLongerStale(s, later, rs, u);
  }

  /** What the mark phase guarantees when nothing is queued or stale any more. */
  lemma WeakTraversed(s: MarkState, rs: set<Id>)
    requires MarkInv(s, {}, rs) && s.gray == []
    ensures ClosedUnder(s.h, rs) && rs <= s.h.Keys && s.h.Keys == s.c.Keys && NoDup(s.weak)
    ensures forall x :: NonWhite(s.c, x) ==> x in rs
    ensures forall x :: NonWhite(s.c, x) && x !in s.weak ==> Settled(s.h, s.c, x)
    ensures forall j :: 0 <= j < |s.weak| ==>
      var t := s.weak[j];
      && t in rs && t in s.h && s.h[t].Table? && t in s.bits && s.bits[t] == s.h[t].mode
      && (s.h[t].mode.weakKey || s.h[t].mode.weakValue) && StrongSettled(s.h, s.c, t)
  {
    forall j | 0 <= j < |s.weak|
      ensures var t := s.weak[j]; t in rs && TraversedOne(s, t)
    {
      assert OnList(s, s.weak[j]);
    }
    assert forall x :: NonWhite(s.c, x) ==> TraversedOne(s, x);
  }

  lemma StrongSettledLater(h: Heap, c: Colors, h1: Heap, c1: Colors, t: Id)
    requires StrongSettled(h, c, t) && Grows(c, c1) && t in h && t in h1 && h1[t] == h[t] && h[t].Table?
    ensures StrongSettled(h1, c1, t)
  {
    assert forall r :: StrongPoints(h1, t, r) ==> StrongPoints(h, t, r);
  }

  /** The state of cleartable after the first `i` tables of the weak list. */
  ghost predicate Clearing(h: Heap, c: Colors, weak: seq<Id>, rs: set<Id>, i: nat, h1: Heap, c1: Colors) {
    && i <= |weak| && ClosedUnder(h, rs) && h.Keys == c.Keys && NoneDangling(h)
    && (forall x :: NonWhite(c, x) ==> x in rs)
    && (forall x :: NonWhite(c, x) && x !in weak ==> Settled(h, c, x))
    && FewerPoints(h, h1) && SameButTables(h, h1)
    && Grows(c, c1) && StringsMarked(h, rs, c, c1)
    && (forall j :: 0 <= j < i ==> Settled(h1, c1, weak[j]))
    && (forall j :: i <= j < |weak| ==> weak[j] in h && h1[weak[j]] == h[weak[j]])
    && NoDup(weak)
    && (forall t :: t in weak ==> t in rs && t in h && h[t].Table? && StrongSettled(h, c, t))
  }

  lemma ClearingStarts(h: Heap, c: Colors, weak: seq<Id>, rs: set<Id>)
    requires ClosedUnder(h, rs) && h.Keys == c.Keys && NoDup(weak) && NoneDangling(h)
    requires forall x :: NonWhite(c, x) ==> x in rs
    requires forall x :: NonWhite(c, x) && x !in weak ==> Settled(h, c, x)
    requires forall j :: 0 <= j < |weak| ==> weak[j] in rs && weak[j] in h && h[weak[j]].Table? && StrongSettled(h, c, weak[j])
    ensures Clearing(h, c, weak, rs, 0, h, c)
  {
    FewerPointsRefl(h);
  }

  lemma ClearingNext(h: Heap, c: Colors, weak: seq<Id>, rs: set<Id>, i: nat, h1: Heap, c1: Colors, bits: map<Id, Mode>)
    requires Clearing(h, c, weak, rs, i, h1, c1) && i < |weak|
    requires forall j :: 0 <= j < |weak| ==> weak[j] in h && h[weak[j]].Table? && weak[j] in bits && bits[weak[j]] == h[weak[j]].mode
    ensures ClosedUnder(h1, rs) && rs <= c1.Keys && NoneDangling(h1) && c1.Keys == h1.Keys
    ensures weak[i] in rs && weak[i] in h1 && h1[weak[i]].Table? && weak[i] in bits && bits[weak[i]] == h1[weak[i]].mode
    ensures StrongSettled(h1, c1, weak[i])
  {
    ClosedFewerPoints(h, h1, rs);
    NoneDanglingFewer(h, h1);
    StrongSettledLater(h, c, h1, c1, weak[i]);
  }

  lemma ClearingFacts(h: Heap, c: Colors, weak: seq<Id>, rs: set<Id>, i: nat, h1: Heap, c1: Colors)
    requires Clearing(h, c, weak, rs, i, h1, c1) && i < |weak|
    ensures NoDup(weak) && weak[i] in h && h[weak[i]].Table? && StringsMarked(h, rs, c, c1) && SameButTables(h, h1)
  {
    hide Points;
    hide StrongPoints;
  }

  lemma ClearingStep(h: Heap, c: Colors, weak: seq<Id>, rs: set<Id>, i: nat, h1: Heap, c1: Colors, h2: Heap, c2: Colors)
    requires Clearing(h, c, weak, rs, i, h1, c1) && i < |weak|
    requires FewerPoints(h1, h2) && SameButTables(h1, h2)
    requires forall x :: x in h2 && x in h1 && x != weak[i] ==> h2[x] == h1[x]
    requires Grows(c1, c2) && StringsMarked(h1, rs, c1, c2)
    requires Settled(h2, c2, weak[i])
    ensures Clearing(h, c, weak, rs, i + 1, h2, c2)
  {
    hide Points;
    hide StrongPoints;
    FewerPointsTrans(h, h1, h2);
    forall j | 0 <= j < i
      ensures Settled(h2, c2, weak[j])
    {
      SettledInNewHeap(h1, h2, c1, c2, weak[j]);
    }
  }

  lemma AllSettledAfter(h: Heap, c: Colors, weak: seq<Id>, rs: set<Id>, h1: Heap, c1: Colors)
    requires Clearing(h, c, weak, rs, |weak|, h1, c1)
    ensures AllSettled(h1, c1)
    ensures forall x :: NonWhite(c1, x) ==> x in rs
    ensures FewerPoints(h, h1) && SameButTables(h, h1) && Grows(c, c1) && StringsMarked(h, rs, c, c1)
  {
    forall x | NonWhite(c1, x)
      ensures Settled(h1, c1, x)
    {
      if !NonWhite(c, x) {
        assert h[x].String? && h1[x] == h[x];
      } else if x in weak {
        var j :| 0 <= j < |weak| && weak[j] == x;
      } else {
        SettledInNewHeap(h, h1, c, c1, x);
      }
    }
  }
}
