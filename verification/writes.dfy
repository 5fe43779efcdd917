/** What writes by the running program, and the collector's barriers, do to the invariant. */
module Writes {
  import opened LuaObjects
  import opened Marking
  import opened Places
  import opened States
  import opened Sweeps

  function StackWritten(h: Heap, t: Id, stack: seq<Value>): Heap
    requires t in h && h[t].Thread?
  {
    h[t := h[t].(stack := stack)]
  }

  /** The write puts a reference to `r` into a slot that did not hold it. */
  ghost predicate StackAdds(h: Heap, t: Id, stack: seq<Value>, r: Id) {
    t in h && h[t].Thread?
    && exists i :: 0 <= i < |stack| && stack[i] == Ref(r) && !(i < |h[t].stack| && h[t].stack[i] == stack[i])
  }

  lemma StackPoints(h: Heap, t: Id, stack: seq<Value>)
    requires t in h && h[t].Thread?
    ensures forall x, r :: Points(StackWritten(h, t, stack), x, r) ==> Points(h, x, r) || StackAdds(h, t, stack, r)
    ensures forall x, r :: x in h && x != t && !IsOpen(h[x]) ==> (Points(StackWritten(h, t, stack), x, r) <==> Points(h, x, r))
  {
    var h1 := StackWritten(h, t, stack);
    forall x, r
      ensures Points(h1, x, r) ==> Points(h, x, r) || StackAdds(h, t, stack, r)
      ensures x in h && x != t && !IsOpen(h[x]) ==> (Points(h1, x, r) <==> Points(h, x, r))
    {
      if x in h && IsOpen(h[x]) && h[x].cell.th != t {
        assert CellValue(h1, h[x].cell) == CellValue(h, h[x].cell);
      }
    }
  }

  lemma StackOpenLists(h: Heap, t: Id, stack: seq<Value>)
    requires OpenLists(h) && t in h && h[t].Thread?
    ensures OpenLists(StackWritten(h, t, stack))
  {
    var h1 := StackWritten(h, t, stack);
    assert forall x :: x in h && x != t ==> h1[x] == h[x];
    assert h1[t].openupval == h[t].openupval;
  }

  lemma StackLinked(h: Heap, l: Links, t: Id, stack: seq<Value>)
    requires Linked(h, l) && t in h && h[t].Thread?
    ensures Linked(StackWritten(h, t, stack), l)
  {
    hide StringsLinked;
    hide OpenLists;
    StackOpenLists(h, t, stack);
    StringsSame(h, StackWritten(h, t, stack), l.strt);
  }

  lemma StackLists(m: MarkState, t: Id, stack: seq<Value>)
    requires Lists(m) && Shades(m) && t in m.h && m.h[t].Thread?
    ensures Lists(m.(h := StackWritten(m.h, t, stack))) && Shades(m.(h := StackWritten(m.h, t, stack)))
  {
    hide Points;
    hide StrongPoints;
    assert forall x :: OnList(m, x) <==> OnList(m.(h := StackWritten(m.h, t, stack)), x);
  }

  /** While nothing is dead, all objects together are closed. */
  lemma AllClosed(s: State)
    requires Safe(s.Sw()) && s.m.c.Keys == s.m.h.Keys && NoOtherWhite(s.m.c, s.cw)
    ensures NoneDangling(s.m.h) && ClosedUnder(s.m.h, s.m.h.Keys)
  {
    hide Points;
    hide StrongPoints;
    forall x, r | Points(s.m.h, x, r)
      ensures r in s.m.h
    {
      PointsFrom(s.m.h, x, r);
      assert Live(s.Sw(), x);
      assert Live(s.Sw(), r);
    }
    forall x, r | Spreads(s.m.h, x, r)
      ensures r in s.m.h
    {
      StrongIsPointed(s.m.h, x, r);
    }
  }

  lemma StackTraversed(m: MarkState, stale: set<Id>, rs: set<Id>, t: Id, stack: seq<Value>)
    requires MarkInv(m, stale, rs) && t in m.h && m.h[t].Thread?
    requires forall x :: x in m.h && IsOpen(m.h[x]) ==> x in stale
    requires forall x :: x in m.grayagain ==> x in stale
    requires ClosedUnder(StackWritten(m.h, t, stack), rs)
    ensures MarkInv(m.(h := StackWritten(m.h, t, stack)), stale, rs)
  {
    hide Points;
    hide StrongPoints;
    var m1 := m.(h := StackWritten(m.h, t, stack));
    StackPoints(m.h, t, stack);
    StackLists(m, t, stack);
    hide Shades;
    forall x | NonWhite(m1.c, x) && x !in m1.gray && x !in stale
      ensures TraversedOne(m1, x)
    {
      assert TraversedOne(m, x);
      assert x != t ==> m1.h[x] == m.h[x];
      if x in m.weak {
        StrongSettledLater(m.h, m.c, m1.h, m.c, x);
      }
    }
  }

  /** Writing any live values to the stack of a thread needs no barrier. */
  lemma StackInv(s: State, t: Id, stack: seq<Value>)
    requires Inv(s, s.m.h.Keys) && t in s.m.h && s.m.h[t].Thread?
    requires forall r :: StackAdds(s.m.h, t, stack, r) ==> Live(s.Sw(), r)
    ensures Inv(s.(m := s.m.(h := StackWritten(s.m.h, t, stack))), s.m.h.Keys)
  {
    hide Points;
    hide StrongPoints;
    hide MarkInv;
    hide Linked;
    var s1 := s.(m := s.m.(h := StackWritten(s.m.h, t, stack)));
    StackPoints(s.m.h, t, stack);
    StackLinked(s.m.h, s.l, t, stack);
    StackBasic(s, t, stack);
    assert Roots(s1) == Roots(s);
    assert forall x :: Live(s1.Sw(), x) <==> Live(s.Sw(), x);
    if s.phase == Propagate {
      OpenStale(s, s.m.h.Keys);
      AllClosed(s1);
      StackTraversed(s.m, Stale(s), s.m.h.Keys, t, stack);
      assert Stale(s1) == Stale(s);
    } else {
      StackSwept(s, t, stack);
    }
  }

  lemma AddsFromStack(h: Heap, t: Id, stack: seq<Value>)
    ensures forall r :: StackAdds(h, t, stack, r) ==> Ref(r) in stack
  {
  }

  /** Only the slot `i` is written. */
  lemma AddsOneSlot(h: Heap, t: Id, i: nat, v: Value)
    requires t in h && h[t].Thread? && i < |h[t].stack|
    ensures forall r :: StackAdds(h, t, h[t].stack[i := v], r) ==> v == Ref(r)
  {
  }

  lemma OpenStale(s: State, rs: set<Id>)
    requires Inv(s, rs)
    ensures forall x :: x in s.m.h && IsOpen(s.m.h[x]) ==> x in Stale(s)
    ensures forall x :: x in s.m.grayagain || x in s.m.weak ==> x in Stale(s)
  {
  }

  lemma StackBasic(s: State, t: Id, stack: seq<Value>)
    requires Basic(s) && t in s.m.h && s.m.h[t].Thread?
    ensures Basic(s.(m := s.m.(h := StackWritten(s.m.h, t, stack))))
  {
    hide Linked;
    StackLinked(s.m.h, s.l, t, stack);
    var h1 := StackWritten(s.m.h, t, stack);
    assert forall x :: x in s.m.h && x != t ==> h1[x] == s.m.h[x];
  }

  lemma StackSwept(s: State, t: Id, stack: seq<Value>)
    requires t in s.m.h && s.m.h[t].Thread?
    ensures var s1 := s.(m := s.m.(h := StackWritten(s.m.h, t, stack)));
      && (SweepingStrings(s) ==> SweepingStrings(s1)) && (SweepingObjects(s) ==> SweepingObjects(s1)) && (Resting(s) ==> Resting(s1))
  {
    hide Bucket;
    var h1 := StackWritten(s.m.h, t, stack);
    assert forall x :: x in s.m.h && x != t ==> h1[x] == s.m.h[x];
    if SweepingObjects(s) {
      var done := (s.l.rootgc + s.l.udata)[..s.sweepgc];
      forall x | x in done && x in s.m.c
        ensures ThreadSwept(h1, s.m.c, s.cw, x)
      {
        assert ThreadSwept(s.m.h, s.m.c, s.cw, x);
      }
    }
  }

  /** GCTM: the first userdata of the list goes back among the others, white, and is passed to its finalizer. */
  ghost function Finalizing(s: State): State
    requires s.l.tmudata != []
  {
    var u := s.l.tmudata[0];
    s.(m := s.m.(c := s.m.c[u := White(s.cw)]), l := s.l.(tmudata := s.l.tmudata[1..], udata := [u] + s.l.udata))
  }

  lemma FinalizingLinked(h: Heap, l: Links)
    requires Linked(h, l) && l.tmudata != []
    ensures Linked(h, l.(tmudata := l.tmudata[1..], udata := [l.tmudata[0]] + l.udata))
    ensures l.tmudata[0] in h && h[l.tmudata[0]].Userdata?
  {
    hide StringsLinked;
    hide UpValsLinked;
    var u, rest := l.tmudata[0], l.tmudata[1..];
    assert l.tmudata == [u] + rest;
    assert u in l.tmudata && forall x :: x in l.tmudata <==> x == u || x in rest;
    NoDupConcat([u], l.udata);
  }

  lemma FinalizingLive1(s: State, s1: State, u: Id)
    requires Basic(s) && u in s.m.h && s.m.h[u].Userdata? && (forall x :: x in s.m.h ==> Live(s.Sw(), x))
    requires s1.m == s.m.(c := s.m.c[u := White(s.cw)]) && s1.cw == s.cw && s1.fixed == s.fixed
    ensures forall x :: Live(s1.Sw(), x) <==> x in s1.m.h
    ensures forall x :: Live(s.Sw(), x) <==> x in s.m.h
    ensures ColorsFit(s1.m.h, s1.m.c) && s1.m.c.Keys == s1.m.h.Keys
  {
    hide Linked;
  }

  lemma FinalizingInv(s: State, rs: set<Id>)
    requires Inv(s, rs) && s.phase == Finalize && s.l.tmudata != []
    ensures Inv(Finalizing(s), rs)
    ensures s.l.tmudata[0] in s.m.h && Live(Finalizing(s).Sw(), s.l.tmudata[0])
    ensures s.running in s.m.h && s.m.h[s.running].Thread?
  {
    hide Points;
    hide Linked;
    hide MarkInv;
    var s1, u := Finalizing(s), s.l.tmudata[0];
    InvLinked(s, rs);
    FinalizingLinked(s.m.h, s.l);
    AllLive(s, rs);
    assert s.l.tmudata == [u] + s1.l.tmudata;
    assert forall x :: x in s.l.tmudata <==> x == u || x in s1.l.tmudata;
    FinalizingLive1(s, s1, u);
    hide Live;
    hide ColorsFit;
    assert forall r :: r in Roots(s1) ==> r in Roots(s);
  }

  lemma FinalizeEnds(s: State, rs: set<Id>)
    requires Inv(s, rs) && s.phase == Finalize
    ensures Inv(s.(phase := Pause), rs)
  {
    hide Points;
    hide Live;
    BasicPhase(s, s.(phase := Pause));
    RootsPhase(s, s.(phase := Pause));
  }

  lemma FinalizingIs(s: State)
    requires s.l.tmudata != []
    ensures var u := s.l.tmudata[0];
      Finalizing(s) == s.(m := s.m.(c := s.m.c[u := White(s.cw)]), l := s.l.(tmudata := s.l.tmudata[1..], udata := [u] + s.l.udata))
  {
  }

  lemma FinalizingLive(s: State, u: Id)
    requires Inv(s, s.m.h.Keys) && s.phase == Finalize && u in s.m.h
    ensures Live(s.Sw(), u)
  {
    AllLive(s, s.m.h.Keys);
  }

  /** What the stack of the running thread holds is live. */
  lemma StackLive(s: State, v: Value)
    requires Inv(s, s.m.h.Keys) && s.running in s.m.h && s.m.h[s.running].Thread?
    requires v.Ref? ==> Live(s.Sw(), v.id)
    ensures forall r :: Ref(r) in s.m.h[s.running].stack + [v] ==> Live(s.Sw(), r) && r in s.m.h.Keys
  {
    hide Linked;
    hide MarkInv;
    InvBasic(s, s.m.h.Keys);
    assert s.running in Roots(s);
    forall r | Ref(r) in s.m.h[s.running].stack
      ensures Live(s.Sw(), r)
    {
      assert Points(s.m.h, s.running, r);
    }
  }

  lemma StackWrittenIs(h: Heap, t: Id, stack: seq<Value>)
    requires t in h && h[t].Thread?
    ensures StackWritten(h, t, stack) == h[t := h[t].(stack := stack)]
  {
  }

  /** Objects whose contents the program writes directly, keeping their kind. */
  predicate SameKind(a: Object, b: Object) {
    (a.Table? && b.Table?) || (a.Userdata? && b.Userdata?) || (a.Function? && b.Function?) || (a.Proto? && b.Proto?)
    || (a.UpVal? && b.UpVal? && a.cell.Closed? && b.cell.Closed?)
  }

  ghost predicate Writes1(h: Heap, x: Id, ob: Object, h1: Heap) {
    x in h && SameKind(h[x], ob) && h1 == h[x := ob]
  }

  lemma WritePoints(h: Heap, x: Id, ob: Object, h1: Heap)
    requires Writes1(h, x, ob, h1)
    ensures forall y, r :: y != x ==> (Points(h1, y, r) <==> Points(h, y, r))
    ensures forall y, r :: y != x ==> (StrongPoints(h1, y, r) <==> StrongPoints(h, y, r))
  {
    forall y, r | y != x
      ensures Points(h1, y, r) <==> Points(h, y, r)
      ensures StrongPoints(h1, y, r) <==> StrongPoints(h, y, r)
    {
      if y in h && h[y].UpVal? {
        assert CellValue(h1, h[y].cell) == CellValue(h, h[y].cell);
      }
    }
  }

  lemma WriteLinked(h: Heap, l: Links, x: Id, ob: Object, h1: Heap)
    requires Linked(h, l) && Writes1(h, x, ob, h1)
    ensures Linked(h1, l)
  {
    hide StringsLinked;
    hide UpValsLinked;
    StringsSame(h, h1, l.strt);
    UpValsSame(h, h1, l.uvhead);
  }

  lemma WriteBasic(s: State, x: Id, ob: Object, h1: Heap)
    requires Basic(s) && Writes1(s.m.h, x, ob, h1)
    ensures Basic(s.(m := s.m.(h := h1)))
  {
    hide Linked;
    WriteLinked(s.m.h, s.l, x, ob, h1);
  }

  /** The references that a write adds. */
  ghost predicate Adds(h: Heap, h1: Heap, x: Id, r: Id) {
    Points(h1, x, r) && !Points(h, x, r)
  }

  lemma WriteLists(m: MarkState, x: Id, ob: Object, h1: Heap)
    requires Lists(m) && Shades(m) && Writes1(m.h, x, ob, h1)
    ensures Lists(m.(h := h1)) && Shades(m.(h := h1))
  {
    hide Points;
    hide StrongPoints;
    assert forall y :: OnList(m, y) <==> OnList(m.(h := h1), y);
  }

  lemma WriteMarkInv(m: MarkState, stale: set<Id>, rs: set<Id>, x: Id, ob: Object, h1: Heap)
    requires MarkInv(m, stale, rs) && Writes1(m.h, x, ob, h1) && ClosedUnder(h1, rs)
    requires x in m.weak ==> x in stale
    requires x in m.c && (m.c[x].White? || x in m.gray || x in stale || forall r :: Adds(m.h, h1, x, r) ==> NonWhite(m.c, r))
    ensures MarkInv(m.(h := h1), stale, rs)
  {
    hide Points;
    hide StrongPoints;
    var m1 := m.(h := h1);
    WritePoints(m.h, x, ob, h1);
    WriteLists(m, x, ob, h1);
    hide Lists;
    hide Shades;
    forall y | NonWhite(m1.c, y) && y !in m1.gray && y !in stale
      ensures TraversedOne(m1, y)
    {
      assert TraversedOne(m, y);
    }
  }

  lemma WriteSwept(s: State, x: Id, ob: Object, h1: Heap)
    requires Writes1(s.m.h, x, ob, h1)
    ensures var s1 := s.(m := s.m.(h := h1));
      && (SweepingStrings(s) ==> SweepingStrings(s1)) && (SweepingObjects(s) ==> SweepingObjects(s1)) && (Resting(s) ==> Resting(s1))
  {
    hide Bucket;
    if SweepingObjects(s) {
      var done := (s.l.rootgc + s.l.udata)[..s.sweepgc];
      forall y | y in done && y in s.m.c
        ensures ThreadSwept(h1, s.m.c, s.cw, y)
      {
        assert ThreadSwept(s.m.h, s.m.c, s.cw, y);
      }
    }
  }

  lemma WriteSafe(s: State, x: Id, ob: Object, h1: Heap)
    requires Safe(s.Sw()) && RootsLive(s) && Writes1(s.m.h, x, ob, h1)
    requires (forall r :: Adds(s.m.h, h1, x, r) ==> Live(s.Sw(), r)) && (Pending(h1, x) ==> Live(s.Sw(), x))
    ensures var s1 := s.(m := s.m.(h := h1)); Safe(s1.Sw()) && RootsLive(s1)
    ensures var s1 := s.(m := s.m.(h := h1)); forall y :: Live(s1.Sw(), y) <==> Live(s.Sw(), y)
  {
    hide Points;
    var s1 := s.(m := s.m.(h := h1));
    WritePoints(s.m.h, x, ob, h1);
    assert Roots(s1) == Roots(s);
    assert forall y :: Live(s1.Sw(), y) <==> Live(s.Sw(), y);
    forall y, r | Live(s1.Sw(), y) && Points(h1, y, r)
      ensures Live(s1.Sw(), r)
    {
      assert y == x ==> Adds(s.m.h, h1, x, r) || Points(s.m.h, x, r);
    }
  }

  ghost predicate NeedsNoBarrier(s: State, x: Id, h1: Heap) {
    x in s.m.c && (s.m.c[x].White? || x in s.m.gray || x in Stale(s) || forall r :: Adds(s.m.h, h1, x, r) ==> NonWhite(s.m.c, r))
  }

  /** A write that needs no barrier: the owner is not black, or what it adds is marked. */
  lemma WriteInv(s: State, x: Id, ob: Object, h1: Heap)
    requires Inv(s, s.m.h.Keys) && Writes1(s.m.h, x, ob, h1)
    requires (forall r :: Adds(s.m.h, h1, x, r) ==> Live(s.Sw(), r)) && (Pending(h1, x) ==> Live(s.Sw(), x))
    requires s.phase == Propagate ==> NeedsNoBarrier(s, x, h1)
    ensures Inv(s.(m := s.m.(h := h1)), h1.Keys)
  {
    hide Points;
    hide StrongPoints;
    hide Linked;
    hide MarkInv;
    hide Adds;
    var s1 := s.(m := s.m.(h := h1));
    assert h1.Keys == s.m.h.Keys;
    WriteSafe(s, x, ob, h1);
    LiveIn(s);
    hide Live;
    WriteBasic(s, x, ob, h1);
    if s.phase == Propagate {
      OpenStale(s, s.m.h.Keys);
      AllClosed(s1);
      WriteMarkInv(s.m, Stale(s), s.m.h.Keys, x, ob, h1);
      assert Stale(s1) == Stale(s);
    } else {
      WriteSwept(s, x, ob, h1);
    }
  }

  lemma LiveIn(s: State)
    ensures forall x :: Live(s.Sw(), x) ==> x in s.m.h
  {
  }

  /** luaC_barrierback: a black table becomes gray and will be traversed again by the atomic step. */
  ghost function BarredBack(s: State, t: Id): State {
    s.(m := s.m.(c := s.m.c[t := Gray], grayagain := [t] + s.m.grayagain))
  }

  lemma BarredBackMarkInv(m: MarkState, stale: set<Id>, rs: set<Id>, t: Id)
    requires MarkInv(m, stale, rs) && t in m.h && m.h[t].Table? && m.c[t] == Black
    ensures MarkInv(m.(c := m.c[t := Gray], grayagain := [t] + m.grayagain), stale + {t}, rs)
  {
    hide Points;
    hide StrongPoints;
    var m1 := m.(c := m.c[t := Gray], grayagain := [t] + m.grayagain);
    assert !OnList(m, t);
    assert forall y :: OnList(m1, y) <==> OnList(m, y) || y == t;
    NoDupConcat([t], m.grayagain);
    assert Lists(m1) && Shades(m1);
    assert forall y :: NonWhite(m1.c, y) <==> NonWhite(m.c, y);
    forall y | NonWhite(m1.c, y) && y !in m1.gray && y !in stale + {t}
      ensures TraversedOne(m1, y)
    {
      assert TraversedOne(m, y);
    }
  }

  lemma BarredBackInv(s: State, t: Id)
    requires Inv(s, s.m.h.Keys) && t in s.m.h && s.m.h[t].Table? && t in s.m.c && s.m.c[t] == Black
    ensures Inv(BarredBack(s, t), s.m.h.Keys)
    ensures s.phase == Propagate ==> t in Stale(BarredBack(s, t))
    ensures forall y :: Live(BarredBack(s, t).Sw(), y) <==> Live(s.Sw(), y)
  {
    hide Points;
    hide Linked;
    hide MarkInv;
    var s1 := BarredBack(s, t);
    assert Roots(s1) == Roots(s);
    assert forall y :: Live(s1.Sw(), y) <==> Live(s.Sw(), y);
    if s.phase == Propagate {
      BarredBackMarkInv(s.m, Stale(s), s.m.h.Keys, t);
      assert Stale(s1) == Stale(s) + {t};
    } else {
      NotSweptBlack(s, t);
    }
  }

  lemma NotSweptBlack(s: State, t: Id)
    requires Basic(s) && t in s.m.h && s.m.h[t].Table? && t in s.m.c && s.m.c[t] == Black
    ensures var s1 := BarredBack(s, t);
      && (SweepingStrings(s) ==> SweepingStrings(s1)) && (SweepingObjects(s) ==> SweepingObjects(s1)) && !Resting(s)
  {
    hide Bucket;
    hide Linked;
    TableNotUdata(s, t);
    if SweepingObjects(s) {
      var done := (s.l.rootgc + s.l.udata)[..s.sweepgc];
      forall y | y in done && y in s.m.c
        ensures y != t && ThreadSwept(s.m.h, s.m.c[t := Gray], s.cw, y)
      {
        assert ThreadSwept(s.m.h, s.m.c, s.cw, y);
      }
    }
  }

  lemma TableNotUdata(s: State, t: Id)
    requires Basic(s) && t in s.m.h && s.m.h[t].Table?
    ensures t !in s.l.tmudata
  {
  }

  lemma WrittenClosed(s: State, x: Id, ob: Object, h1: Heap)
    requires Inv(s, s.m.h.Keys) && s.phase == Propagate && Writes1(s.m.h, x, ob, h1)
    requires forall r :: Adds(s.m.h, h1, x, r) ==> r in s.m.h
    ensures ClosedUnder(h1, s.m.h.Keys)
  {
    hide Points;
    hide Linked;
    hide MarkInv;
    hide Adds;
    AllLive(s, s.m.h.Keys);
    hide Live;
    WriteSafe(s, x, ob, h1);
    assert h1.Keys == s.m.h.Keys;
    AllClosed(s.(m := s.m.(h := h1)));
  }

  /** A write into a black object followed by the forward barrier, during propagation. */
  lemma ForwardMarked(s: State, x: Id, ob: Object, h1: Heap, v: Id, s2: State, added: seq<Id>)
    requires Inv(s, s.m.h.Keys) && s.phase == Propagate && Writes1(s.m.h, x, ob, h1)
    requires forall r :: Adds(s.m.h, h1, x, r) ==> r == v
    requires x in s.m.c && s.m.c[x] == Black && x !in s.l.tmudata && v in s.m.h
    requires MarkEffect(h1, s.m.h.Keys, s.m.c, s2.m.c, added) && NonWhite(s2.m.c, v)
    requires s2 == s.(m := s.m.(h := h1, c := s2.m.c, gray := added + s.m.gray))
    ensures MarkInv(s2.m, Stale(s2), h1.Keys)
  {
    hide Points;
    hide StrongPoints;
    hide MarkEffect;
    hide Linked;
    hide Lists;
    hide Shades;
    hide Traversed;
    var rs, stale := s.m.h.Keys, Stale(s) + {x};
    StaleMono(s.m, Stale(s), stale, rs);
    WrittenClosed(s, x, ob, h1);
    WriteMarkInv(s.m, stale, rs, x, ob, h1);
    MarkStepKeeps(s.m.(h := h1), stale, rs, s2.m.c, added);
    MarkEffectFacts(s.m.(h := h1), rs, s2.m.c, added, s.cw);
    BlackSettled(s, x);
    forall r | Points(h1, x, r)
      ensures NonWhite(s2.m.c, r)
    {
      if !Points(s.m.h, x, r) {
        assert Adds(s.m.h, h1, x, r);
      }
    }
    assert Stale(s2) == Stale(s);
    NoLongerStale(s2.m, Stale(s2), rs, x);
  }

  /** During propagation a black object refers to no white one, unless it waits for a finalizer of the previous
      cycle; it is on no list and will not be visited again. */
  lemma BlackSettled(s: State, x: Id)
    requires Inv(s, s.m.h.Keys) && s.phase == Propagate
    requires x in s.m.c && s.m.c[x] == Black && x !in s.l.tmudata
    ensures Settled(s.m.h, s.m.c, x) && x !in s.m.weak && x !in Stale(s)
  {
    hide Points;
    hide StrongPoints;
    hide MarkInv;
    PropagatingMarked(s, s.m.h.Keys);
    BlackOnNoList(s.m, Stale(s), s.m.h.Keys, x);
    assert x !in Stale(s);
    TraversedIn(s.m, Stale(s), s.m.h.Keys, x);
  }

  /** While marking, the mark invariant holds, and the list of open upvalues holds just these. */
  lemma PropagatingMarked(s: State, rs: set<Id>)
    requires Inv(s, rs) && s.phase == Propagate
    ensures MarkInv(s.m, Stale(s), rs)
    ensures forall x :: x in s.l.uvhead ==> x in s.m.h && IsOpen(s.m.h[x])
  {
    hide MarkInv;
    hide Live;
    InvLinked(s, rs);
  }

  lemma TraversedIn(m: MarkState, stale: set<Id>, rs: set<Id>, x: Id)
    requires MarkInv(m, stale, rs) && NonWhite(m.c, x) && x !in m.gray && x !in stale
    ensures TraversedOne(m, x)
  {
    hide TraversedOne;
  }

  lemma BlackOnNoList(m: MarkState, stale: set<Id>, rs: set<Id>, x: Id)
    requires MarkInv(m, stale, rs) && x in m.c && m.c[x] == Black
    ensures x in m.h && !OnList(m, x) && x !in m.gray && x !in m.grayagain && x !in m.weak && !IsOpen(m.h[x])
  {
    hide Points;
    hide StrongPoints;
    assert forall y :: OnList(m, y) ==> y in m.c && m.c[y] == Gray;
  }

  lemma ForwardInv(s: State, x: Id, ob: Object, h1: Heap, v: Id, s2: State, added: seq<Id>)
    requires Inv(s, s.m.h.Keys) && s.phase == Propagate && Writes1(s.m.h, x, ob, h1)
    requires forall r :: Adds(s.m.h, h1, x, r) ==> r == v
    requires x in s.m.c && s.m.c[x] == Black && x !in s.l.tmudata && v in s.m.h
    requires MarkEffect(h1, s.m.h.Keys, s.m.c, s2.m.c, added) && NonWhite(s2.m.c, v)
    requires s2 == s.(m := s.m.(h := h1, c := s2.m.c, gray := added + s.m.gray))
    ensures Inv(s2, h1.Keys)
  {
    hide Points;
    hide Linked;
    hide MarkInv;
    hide MarkEffect;
    hide Adds;
    ForwardMarked(s, x, ob, h1, v, s2, added);
    MarkInvFits(s2.m, Stale(s2), h1.Keys);
    MarkEffectFacts(s.m.(h := h1), s.m.h.Keys, s2.m.c, added, s.cw);
    AllLive(s, s.m.h.Keys);
    WriteSafe(s, x, ob, h1);
    WriteBasic(s, x, ob, h1);
    ForwardSafe(s, h1, s2);
  }

  lemma ForwardSafe(s: State, h1: Heap, s2: State)
    requires Safe(s.(m := s.m.(h := h1)).Sw()) && RootsLive(s.(m := s.m.(h := h1))) && Basic(s.(m := s.m.(h := h1)))
    requires s2 == s.(m := s2.m) && s2.m.h == h1 && Grows(s.m.c, s2.m.c)
    requires NoOtherWhite(s2.m.c, s.cw) && ColorsFit(s2.m.h, s2.m.c) && h1.Keys == s.m.h.Keys
    requires forall r :: r in h1 ==> Live(s.Sw(), r)
    ensures Basic(s2) && Safe(s2.Sw()) && RootsLive(s2)
  {
    hide Points;
    hide Linked;
    hide ColorsFit;
    var s1 := s.(m := s.m.(h := h1));
    assert Roots(s2) == Roots(s1);
    assert forall y :: Live(s2.Sw(), y) <==> y in h1;
    assert forall y :: Live(s1.Sw(), y) ==> y in h1;
    assert forall y :: y in h1 ==> Live(s1.Sw(), y);
  }

  /** Outside propagation the forward barrier whitens the owner. */
  lemma WhitenedOwnerInv(s: State, x: Id)
    requires Inv(s, s.m.h.Keys) && s.phase != Propagate && x in s.m.h && Live(s.Sw(), x)
    ensures Inv(Whitened(s, x), s.m.h.Keys)
    ensures forall y :: Live(Whitened(s, x).Sw(), y) <==> Live(s.Sw(), y)
  {
    hide Points;
    hide Linked;
    hide Basic;
    InvBasic(s, s.m.h.Keys);
    Whiten(s, x);
    KeptFacts(s, Whitened(s, x));
    if s.phase == SweepString || s.phase == Sweep {
      WhitenInv(s, x, s.m.h.Keys);
    } else {
      KeptSafe(s, Whitened(s, x));
    }
  }

  /** luaC_link: a new object gets the current white and goes in front of the list of all objects. */
  ghost function LinkedNew(s: State, id: Id, ob: Object): State {
    s.(m := s.m.(h := s.m.h[id := ob], c := s.m.c[id := White(s.cw)]),
       l := s.l.(rootgc := [id] + s.l.rootgc),
       sweepgc := if s.sweepgc > 0 then s.sweepgc + 1 else 0)
  }

  ghost function LinkedUdata(s: State, id: Id, ob: Object): State {
    s.(m := s.m.(h := s.m.h[id := ob], c := s.m.c[id := White(s.cw)]),
       l := s.l.(udata := [id] + s.l.udata),
       sweepgc := if s.sweepgc > |s.l.rootgc| then s.sweepgc + 1 else s.sweepgc)
  }

  ghost function LinkedString(s: State, id: Id, hash: nat): State
    requires |s.l.strt| > 0
  {
    var b := Bucket(hash, |s.l.strt|);
    s.(m := s.m.(h := s.m.h[id := String(hash)], c := s.m.c[id := White(s.cw)]),
       l := s.l.(strt := s.l.strt[b := [id] + s.l.strt[b]]))
  }

  /** A new open upvalue is linked into the open list of its thread at position `i` and into the global one. */
  ghost function LinkedOpen(s: State, id: Id, t: Id, slot: nat, i: nat): State
    requires t in s.m.h && s.m.h[t].Thread? && i <= |s.m.h[t].openupval|
  {
    var os := s.m.h[t].openupval;
    s.(m := s.m.(h := s.m.h[t := s.m.h[t].(openupval := os[..i] + [id] + os[i..])][id := UpVal(Open(t, slot))], c := s.m.c[id := White(s.cw)]),
       l := s.l.(uvhead := [id] + s.l.uvhead))
  }

  /** What every kind of allocation does to the heap: all else is as it was. */
  ghost predicate Allocates(h: Heap, id: Id, h1: Heap) {
    && id !in h && h1.Keys == h.Keys + {id}
    && (forall x, r :: x in h ==> (Points(h1, x, r) <==> Points(h, x, r)))
    && (forall x, r :: x in h && h[x].Table? ==> (StrongPoints(h1, x, r) <==> StrongPoints(h, x, r)))
    && (forall x :: x in h && !h[x].Thread? ==> h1[x] == h[x])
    && (forall x :: x in h && h[x].Thread? ==> h1[x].Thread? && h1[x].stack == h[x].stack && h1[x].gt == h[x].gt)
  }

  lemma OpenThreads(h: Heap, l: Links)
    requires Linked(h, l)
    ensures forall x :: x in h && IsOpen(h[x]) ==> h[x].cell.th in h
  {
    hide StringsLinked;
  }

  lemma PlainAllocates(h: Heap, l: Links, id: Id, ob: Object)
    requires Linked(h, l) && id !in h
    ensures Allocates(h, id, h[id := ob])
  {
    OpenThreads(h, l);
    hide Linked;
    var h1 := h[id := ob];
    forall x, r | x in h
      ensures Points(h1, x, r) <==> Points(h, x, r)
    {
      if IsOpen(h[x]) {
        assert CellValue(h1, h[x].cell) == CellValue(h, h[x].cell);
      }
    }
  }

  lemma OpenAllocates(h: Heap, l: Links, id: Id, t: Id, slot: nat, os: seq<Id>)
    requires Linked(h, l) && id !in h && t in h && h[t].Thread?
    ensures Allocates(h, id, h[t := h[t].(openupval := os)][id := UpVal(Open(t, slot))])
  {
    var h1 := h[t := h[t].(openupval := os)][id := UpVal(Open(t, slot))];
    forall x, r | x in h
      ensures Points(h1, x, r) <==> Points(h, x, r)
    {
      if IsOpen(h[x]) {
        assert CellValue(h1, h[x].cell) == CellValue(h, h[x].cell);
      }
    }
  }

  lemma AllocLists(m: MarkState, id: Id, h1: Heap, cw: WhiteBit)
    requires Lists(m) && Shades(m) && Allocates(m.h, id, h1)
    ensures var m1 := m.(h := h1, c := m.c[id := White(cw)]);
            Lists(m1) && Shades(m1) && forall y :: NonWhite(m1.c, y) <==> NonWhite(m.c, y) && y in m.h
  {
    hide Points;
    hide StrongPoints;
    var m1 := m.(h := h1, c := m.c[id := White(cw)]);
    assert forall y :: OnList(m, y) <==> OnList(m1, y);
  }

  lemma AllocMarkInv(m: MarkState, stale: set<Id>, id: Id, h1: Heap, cw: WhiteBit)
    requires MarkInv(m, stale, m.h.Keys) && Allocates(m.h, id, h1) && ClosedUnder(h1, h1.Keys)
    ensures MarkInv(m.(h := h1, c := m.c[id := White(cw)]), stale, h1.Keys)
  {
    hide Points;
    hide StrongPoints;
    var m1 := m.(h := h1, c := m.c[id := White(cw)]);
    AllocLists(m, id, h1, cw);
    hide Lists;
    hide Shades;
    forall y | NonWhite(m1.c, y) && y !in m1.gray && y !in stale
      ensures TraversedOne(m1, y)
    {
      assert TraversedOne(m, y);
      assert y in m.h;
    }
  }

  lemma AllocSafe(s: State, id: Id, s1: State)
    requires Safe(s.Sw()) && RootsLive(s) && s.m.c.Keys == s.m.h.Keys && id !in s.fixed
    requires Allocates(s.m.h, id, s1.m.h) && s1.m.c == s.m.c[id := White(s.cw)]
    requires s1.cw == s.cw && s1.fixed == s.fixed && Roots(s1) == Roots(s)
    requires forall r :: Points(s1.m.h, id, r) ==> Live(s1.Sw(), r)
    ensures Safe(s1.Sw()) && RootsLive(s1) && Live(s1.Sw(), id)
    ensures forall x :: Live(s.Sw(), x) ==> Live(s1.Sw(), x)
  {
    hide Points;
    hide StrongPoints;
    assert forall x :: Live(s1.Sw(), x) <==> Live(s.Sw(), x) || x == id;
  }

  ghost predicate NewRefsLive(s: State, h1: Heap, id: Id) {
    forall r :: Points(h1, id, r) ==> Live(s.Sw(), r)
  }

  /** What an allocation leaves to be checked: where the new object is linked. */
  lemma AllocInv(s: State, id: Id, s1: State)
    requires Inv(s, s.m.h.Keys) && Allocates(s.m.h, id, s1.m.h) && NewRefsLive(s, s1.m.h, id)
    requires s1 == s.(m := s.m.(h := s1.m.h, c := s.m.c[id := White(s.cw)]), l := s1.l, sweepgc := s1.sweepgc)
    requires Linked(s1.m.h, s1.l) && s1.l.tmudata == s.l.tmudata && |s1.l.strt| == |s.l.strt|
    requires forall x :: x in s.l.uvhead ==> x in s1.l.uvhead
    requires s.phase == SweepString ==> SweepingStrings(s1)
    requires s.phase == Sweep ==> SweepingObjects(s1)
    ensures Inv(s1, s1.m.h.Keys) && Live(s1.Sw(), id)
    ensures forall x :: Live(s.Sw(), x) ==> Live(s1.Sw(), x)
  {
    hide Points;
    hide StrongPoints;
    hide Linked;
    hide MarkInv;
    hide SweepingStrings;
    hide SweepingObjects;
    hide Adds;
    InvBasic(s, s.m.h.Keys);
    assert Roots(s1) == Roots(s);
    LiveIn(s);
    NewRefsLiveLater(s, s1, id);
    AllocSafe(s, id, s1);
    AllocFits(s, id, s1);
    if s.phase == Propagate {
      AllClosed(s1);
      AllocPropagating(s, id, s1);
    }
    hide Live;
    hide Safe;
    hide RootsLive;
    hide ColorsFit;
    hide Propagating;
  }

  lemma AllocPropagating(s: State, id: Id, s1: State)
    requires Propagating(s, s.m.h.Keys) && Allocates(s.m.h, id, s1.m.h)
    requires ClosedUnder(s1.m.h, s1.m.h.Keys)
    requires s1 == s.(m := s.m.(h := s1.m.h, c := s.m.c[id := White(s.cw)]), l := s1.l, sweepgc := s1.sweepgc)
    requires s1.l.tmudata == s.l.tmudata && forall x :: x in s.l.uvhead ==> x in s1.l.uvhead
    ensures Propagating(s1, s1.m.h.Keys)
  {
    hide Points;
    hide StrongPoints;
    MarkedIn(s.m, Stale(s));
    hide MarkInv;
    AllocMarkInv(s.m, Stale(s), id, s1.m.h, s.cw);
    assert Stale(s) <= Stale(s1);
    StaleMono(s1.m, Stale(s), Stale(s1), s1.m.h.Keys);
    hide Allocates;
  }

  lemma MarkedIn(m: MarkState, stale: set<Id>)
    requires MarkInv(m, stale, m.h.Keys)
    ensures forall x :: NonWhite(m.c, x) ==> x in m.h
  {
  }

  lemma NewRefsLiveLater(s: State, s1: State, id: Id)
    requires NewRefsLive(s, s1.m.h, id) && id !in s.m.h && s.m.c.Keys == s.m.h.Keys
    requires s1.m.c == s.m.c[id := White(s.cw)] && s1.cw == s.cw && s1.fixed == s.fixed && s1.m.h.Keys == s.m.h.Keys + {id}
    ensures forall r :: Points(s1.m.h, id, r) ==> Live(s1.Sw(), r) && r in s1.m.h
  {
    hide Points;
  }

  lemma AllocFits(s: State, id: Id, s1: State)
    requires ColorsFit(s.m.h, s.m.c) && Allocates(s.m.h, id, s1.m.h) && s1.m.c == s.m.c[id := White(s.cw)]
    ensures ColorsFit(s1.m.h, s1.m.c)
  {
    hide Points;
    hide StrongPoints;
  }

  lemma LinkedNewInv(s: State, id: Id, ob: Object)
    requires Inv(s, s.m.h.Keys) && id !in s.m.h && !ob.String? && !ob.Userdata? && !ob.UpVal?
    requires ob.Thread? ==> ob.openupval == []
    requires NewRefsLive(s, s.m.h[id := ob], id)
    ensures Inv(LinkedNew(s, id, ob), LinkedNew(s, id, ob).m.h.Keys) && Live(LinkedNew(s, id, ob).Sw(), id)
    ensures forall x :: Live(s.Sw(), x) ==> Live(LinkedNew(s, id, ob).Sw(), x)
  {
    hide Points;
    hide StrongPoints;
    hide MarkInv;
    hide Inv;
    hide Allocates;
    var s1 := LinkedNew(s, id, ob);
    InvBasic(s, s.m.h.Keys);
    BasicLinked(s);
    PlainAllocates(s.m.h, s.l, id, ob);
    LinkedNewLinked(s.m.h, s.l, id, ob);
    NewSweeps(s, id, ob);
    AllocInv(s, id, s1);
  }

  lemma LinkedNewLinked(h: Heap, l: Links, id: Id, ob: Object)
    requires Linked(h, l) && id !in h && !ob.String? && !ob.Userdata? && !ob.UpVal?
    requires ob.Thread? ==> ob.openupval == []
    ensures Linked(h[id := ob], l.(rootgc := [id] + l.rootgc))
  {
    hide StringsLinked;
    NoDupConcat([id], l.rootgc);
    var h1 := h[id := ob];
    StringsSame(h, h1, l.strt);
    NewOpenLists(h, id, ob);
  }

  lemma NewOpenLists(h: Heap, id: Id, ob: Object)
    requires OpenLists(h) && id !in h && !IsOpen(ob) && (ob.Thread? ==> ob.openupval == [])
    ensures OpenLists(h[id := ob])
  {
    var h1 := h[id := ob];
    assert forall x :: x in h ==> h1[x] == h[x];
  }

  lemma NewSweeps(s: State, id: Id, ob: Object)
    requires Inv(s, s.m.h.Keys) && id !in s.m.h && !ob.String? && (ob.Thread? ==> ob.openupval == [])
    ensures var s1 := LinkedNew(s, id, ob);
      && (s.phase == SweepString ==> SweepingStrings(s1)) && (s.phase == Sweep ==> SweepingObjects(s1))
  {
    hide Bucket;
    hide Linked;
    hide MarkInv;
    hide Points;
    var s1 := LinkedNew(s, id, ob);
    if s.phase == Sweep {
      var all, all1 := s.l.rootgc + s.l.udata, s1.l.rootgc + s1.l.udata;
      assert all1 == [id] + all;
      var done, done1 := all[..s.sweepgc], all1[..s1.sweepgc];
      assert s.sweepgc > 0 ==> done1 == [id] + done;
      NewStillSwept(s, id, ob, done);
    }
  }

  lemma NewStillSwept(s: State, id: Id, ob: Object, done: seq<Id>)
    requires ObjectsSwept(s.m.h, s.m.c, s.cw, done) && id !in s.m.h && s.m.c.Keys == s.m.h.Keys
    requires ob.Thread? ==> ob.openupval == []
    ensures ObjectsSwept(s.m.h[id := ob], s.m.c[id := White(s.cw)], s.cw, done)
    ensures ObjectsSwept(s.m.h[id := ob], s.m.c[id := White(s.cw)], s.cw, [id] + done)
  {
    var h1, c1 := s.m.h[id := ob], s.m.c[id := White(s.cw)];
    forall y | y in done && y in c1
      ensures c1[y] == White(s.cw) && ThreadSwept(h1, c1, s.cw, y)
    {
      if y != id {
        assert ThreadSwept(s.m.h, s.m.c, s.cw, y);
      }
    }
  }

  lemma LinkedUdataInv(s: State, id: Id, ob: Object)
    requires Inv(s, s.m.h.Keys) && id !in s.m.h && ob.Userdata?
    requires NewRefsLive(s, s.m.h[id := ob], id)
    ensures Inv(LinkedUdata(s, id, ob), LinkedUdata(s, id, ob).m.h.Keys) && Live(LinkedUdata(s, id, ob).Sw(), id)
    ensures forall x :: Live(s.Sw(), x) ==> Live(LinkedUdata(s, id, ob).Sw(), x)
  {
    hide Points;
    hide StrongPoints;
    hide MarkInv;
    hide Inv;
    hide Allocates;
    InvBasic(s, s.m.h.Keys);
    BasicLinked(s);
    PlainAllocates(s.m.h, s.l, id, ob);
    LinkedUdataLinked(s.m.h, s.l, id, ob);
    UdataSweeps(s, id, ob);
    AllocInv(s, id, LinkedUdata(s, id, ob));
  }

  lemma LinkedUdataLinked(h: Heap, l: Links, id: Id, ob: Object)
    requires Linked(h, l) && id !in h && ob.Userdata?
    ensures Linked(h[id := ob], l.(udata := [id] + l.udata))
  {
    hide StringsLinked;
    NoDupConcat([id], l.udata);
    StringsSame(h, h[id := ob], l.strt);
    NewOpenLists(h, id, ob);
  }

  lemma UdataSweeps(s: State, id: Id, ob: Object)
    requires Inv(s, s.m.h.Keys) && id !in s.m.h && ob.Userdata?
    ensures var s1 := LinkedUdata(s, id, ob);
      && (s.phase == SweepString ==> SweepingStrings(s1)) && (s.phase == Sweep ==> SweepingObjects(s1))
  {
    hide Bucket;
    hide Linked;
    hide MarkInv;
    hide Points;
    var s1 := LinkedUdata(s, id, ob);
    if s.phase == Sweep {
      var all, all1, n := s.l.rootgc + s.l.udata, s1.l.rootgc + s1.l.udata, |s.l.rootgc|;
      var done, done1 := all[..s.sweepgc], all1[..s1.sweepgc];
      NewStillSwept(s, id, ob, done);
      assert forall y :: y in done1 ==> y in [id] + done by {
        forall k | 0 <= k < |done1|
          ensures done1[k] in [id] + done
        {
          if k < n {
            assert done1[k] == all[k] == done[k];
          } else if k > n {
            assert done1[k] == all[k - 1] == done[k - 1];
          }
        }
      }
    }
  }

  lemma LinkedStringInv(s: State, id: Id, hash: nat)
    requires Inv(s, s.m.h.Keys) && id !in s.m.h && |s.l.strt| > 0
    ensures Inv(LinkedString(s, id, hash), LinkedString(s, id, hash).m.h.Keys) && Live(LinkedString(s, id, hash).Sw(), id)
    ensures forall x :: Live(s.Sw(), x) ==> Live(LinkedString(s, id, hash).Sw(), x)
  {
    hide Points;
    hide StrongPoints;
    hide MarkInv;
    hide Inv;
    hide Allocates;
    hide Bucket;
    InvBasic(s, s.m.h.Keys);
    BasicLinked(s);
    PlainAllocates(s.m.h, s.l, id, String(hash));
    LinkedStringLinked(s.m.h, s.l, id, hash);
    StringSweeps(s, id, hash);
    NoStringPoints(s.m.h[id := String(hash)], id);
    AllocInv(s, id, LinkedString(s, id, hash));
  }

  lemma NoStringPoints(h: Heap, id: Id)
    requires id in h && h[id].String?
    ensures forall r :: !Points(h, id, r)
  {
  }

  lemma LinkedStringLinked(h: Heap, l: Links, id: Id, hash: nat)
    requires Linked(h, l) && id !in h
    ensures var b := Bucket(hash, |l.strt|);
      Linked(h[id := String(hash)], l.(strt := l.strt[b := [id] + l.strt[b]]))
  {
    hide Bucket;
    var b := Bucket(hash, |l.strt|);
    NewOpenLists(h, id, String(hash));
    hide OpenLists;
    NewStringLinked(h, l.strt, id, hash);
  }

  lemma NewStringLinked(h: Heap, strt: seq<seq<Id>>, id: Id, hash: nat)
    requires StringsLinked(h, strt) && id !in h
    ensures var b := Bucket(hash, |strt|); StringsLinked(h[id := String(hash)], strt[b := [id] + strt[b]])
  {
    hide Bucket;
    var b := Bucket(hash, |strt|);
    NoDupConcat([id], strt[b]);
    var h1, strt1 := h[id := String(hash)], strt[b := [id] + strt[b]];
    forall b1, y | 0 <= b1 < |strt1| && y in strt1[b1]
      ensures y in h1 && h1[y].String? && Bucket(h1[y].hash, |strt1|) == b1
    {
      if y != id {
        assert y in strt[b1];
      }
    }
    forall y | y in h1 && h1[y].String?
      ensures y in strt1[Bucket(h1[y].hash, |strt1|)]
    {
      if y != id {
        assert y in strt[Bucket(h[y].hash, |strt|)];
      }
    }
  }

  lemma StringSweeps(s: State, id: Id, hash: nat)
    requires Inv(s, s.m.h.Keys) && id !in s.m.h && |s.l.strt| > 0
    ensures var s1 := LinkedString(s, id, hash);
      && (s.phase == SweepString ==> SweepingStrings(s1)) && (s.phase == Sweep ==> SweepingObjects(s1))
  {
    hide Bucket;
    hide Linked;
    hide MarkInv;
    hide Points;
    if s.phase == Sweep {
      NewStillSwept(s, id, String(hash), (s.l.rootgc + s.l.udata)[..s.sweepgc]);
    }
  }

  lemma LinkedOpenInv(s: State, id: Id, t: Id, slot: nat, i: nat)
    requires Inv(s, s.m.h.Keys) && id !in s.m.h && t in s.m.h && s.m.h[t].Thread? && i <= |s.m.h[t].openupval|
    requires Live(s.Sw(), t)
    ensures Inv(LinkedOpen(s, id, t, slot, i), LinkedOpen(s, id, t, slot, i).m.h.Keys) && Live(LinkedOpen(s, id, t, slot, i).Sw(), id)
    ensures forall x :: Live(s.Sw(), x) ==> Live(LinkedOpen(s, id, t, slot, i).Sw(), x)
  {
    hide Points;
    hide StrongPoints;
    hide MarkInv;
    hide Inv;
    hide Allocates;
    var s1 := LinkedOpen(s, id, t, slot, i);
    InvBasic(s, s.m.h.Keys);
    BasicLinked(s);
    var os := s.m.h[t].openupval;
    OpenAllocates(s.m.h, s.l, id, t, slot, os[..i] + [id] + os[i..]);
    LinkedOpenLinked(s.m.h, s.l, id, t, slot, i);
    OpenSweeps(s, id, t, slot, i);
    OpenReadsStack(s.m.h, s1.m.h, id, t);
    AllocInv(s, id, s1);
  }

  /** What a new open upvalue refers to is what the stack slot refers to. */
  lemma OpenReadsStack(h: Heap, h1: Heap, id: Id, t: Id)
    requires t in h && h[t].Thread? && t in h1 && h1[t].Thread? && h1[t].stack == h[t].stack
    requires id in h1 && h1[id].UpVal? && h1[id].cell.Open? && h1[id].cell.th == t
    ensures forall r :: Points(h1, id, r) ==> Points(h, t, r)
  {
  }

  lemma InsertAt(os: seq<Id>, id: Id, i: nat)
    requires i <= |os| && NoDup(os) && id !in os
    ensures NoDup(os[..i] + [id] + os[i..])
    ensures forall y :: y in os[..i] + [id] + os[i..] <==> y in os || y == id
  {
    assert os == os[..i] + os[i..];
    assert forall x :: x in os[..i] ==> x in os;
    assert forall x :: x in os[i..] ==> x in os;
    NoDupConcat(os[..i], [id]);
    NoDupConcat(os[..i] + [id], os[i..]);
  }

  lemma LinkedOpenLinked(h: Heap, l: Links, id: Id, t: Id, slot: nat, i: nat)
    requires Linked(h, l) && id !in h && t in h && h[t].Thread? && i <= |h[t].openupval|
    ensures var os := h[t].openupval;
      Linked(h[t := h[t].(openupval := os[..i] + [id] + os[i..])][id := UpVal(Open(t, slot))], l.(uvhead := [id] + l.uvhead))
  {
    hide StringsLinked;
    hide OpenLists;
    var os := h[t].openupval;
    var h1 := h[t := h[t].(openupval := os[..i] + [id] + os[i..])][id := UpVal(Open(t, slot))];
    NoDupConcat([id], l.uvhead);
    StringsSame(h, h1, l.strt);
    OpenedLists(h, id, t, slot, i);
    assert forall x :: x in h && x != t ==> h1[x] == h[x];
  }

  lemma OpenedLists(h: Heap, id: Id, t: Id, slot: nat, i: nat)
    requires OpenLists(h) && id !in h && t in h && h[t].Thread? && i <= |h[t].openupval|
    ensures var os := h[t].openupval;
      OpenLists(h[t := h[t].(openupval := os[..i] + [id] + os[i..])][id := UpVal(Open(t, slot))])
  {
    var os := h[t].openupval;
    var os1 := os[..i] + [id] + os[i..];
    assert id !in os;
    InsertAt(os, id, i);
    hide NoDup;
    var h1 := h[t := h[t].(openupval := os1)][id := UpVal(Open(t, slot))];
    assert h1[t].openupval == os1;
    forall x | x in h1 && IsOpen(h1[x])
      ensures h1[x].cell.th in h1 && h1[h1[x].cell.th].Thread? && x in h1[h1[x].cell.th].openupval
    {
      if x != id {
        assert x != t && h1[x] == h[x];
        assert h[x].cell.th == t ==> x in os;
      }
    }
    forall t1, y | t1 in h1 && h1[t1].Thread? && y in h1[t1].openupval
      ensures y in h1 && IsOpen(h1[y]) && h1[y].cell.th == t1
    {
      if t1 == t {
        assert y != id ==> y in os && h1[y] == h[y];
      } else {
        assert h1[t1] == h[t1] && y in h[t1].openupval;
      }
    }
  }

  lemma OpenSweeps(s: State, id: Id, t: Id, slot: nat, i: nat)
    requires Inv(s, s.m.h.Keys) && id !in s.m.h && t in s.m.h && s.m.h[t].Thread? && i <= |s.m.h[t].openupval|
    ensures var s1 := LinkedOpen(s, id, t, slot, i);
      && (s.phase == SweepString ==> SweepingStrings(s1)) && (s.phase == Sweep ==> SweepingObjects(s1))
  {
    hide Bucket;
    hide Linked;
    hide MarkInv;
    hide Points;
    var s1 := LinkedOpen(s, id, t, slot, i);
    if s.phase == Sweep {
      var done := (s.l.rootgc + s.l.udata)[..s.sweepgc];
      forall y | y in done && y in s1.m.c
        ensures s1.m.c[y] == White(s.cw) && ThreadSwept(s1.m.h, s1.m.c, s.cw, y)
      {
        assert y in s.m.c ==> ThreadSwept(s.m.h, s.m.c, s.cw, y);
        assert y != t && y != id && y in s1.m.h ==> s1.m.h[y] == s.m.h[y];
      }
    }
  }

  /** Resurrection: a dead string or a dead open upvalue that the program finds again gets the other white.
      Whatever it refers to must be live already. */
  lemma ResurrectInv(s: State, x: Id)
    requires Inv(s, s.m.h.Keys) && x in s.m.h && x in s.m.c && s.m.c[x] == White(Other(s.cw))
    requires forall r :: Points(s.m.h, x, r) ==> Live(s.Sw(), r)
    ensures Inv(Whitened(s, x), s.m.h.Keys) && Live(Whitened(s, x).Sw(), x)
    ensures forall y :: Live(s.Sw(), y) ==> Live(Whitened(s, x).Sw(), y)
  {
    hide Points;
    hide Linked;
    hide MarkInv;
    hide ColorsFit;
    hide Resting;
    hide SweepingStrings;
    hide SweepingObjects;
    var s1 := Whitened(s, x);
    ResurrectFits(s, x);
    hide Live;
    assert Roots(s1) == Roots(s);
    NotOtherWhite(s, x);
    ResurrectSwept(s, x);
  }

  lemma ResurrectFits(s: State, x: Id)
    requires ColorsFit(s.m.h, s.m.c) && s.m.c.Keys == s.m.h.Keys && x in s.m.h && s.m.c[x] == White(Other(s.cw))
    ensures ColorsFit(s.m.h, Whitened(s, x).m.c) && Whitened(s, x).m.c.Keys == s.m.h.Keys
    ensures forall y :: Live(Whitened(s, x).Sw(), y) <==> Live(s.Sw(), y) || y == x
  {
  }

  lemma NotOtherWhite(s: State, x: Id)
    requires Inv(s, s.m.h.Keys) && x in s.m.h && x in s.m.c && s.m.c[x] == White(Other(s.cw))
    ensures s.phase != Propagate
    ensures s.phase == Pause || s.phase == Finalize ==> x in s.l.tmudata
  {
    hide Points;
    hide Linked;
    hide MarkInv;
  }

  lemma ResurrectSwept(s: State, x: Id)
    requires x in s.m.c
    ensures var s1 := Whitened(s, x);
      && (SweepingStrings(s) ==> SweepingStrings(s1)) && (SweepingObjects(s) ==> SweepingObjects(s1)) && (Resting(s) ==> Resting(s1))
  {
    hide Bucket;
    if SweepingObjects(s) {
      var done := (s.l.rootgc + s.l.udata)[..s.sweepgc];
      forall y | y in done && y in s.m.c
        ensures ThreadSwept(s.m.h, s.m.c[x := White(s.cw)], s.cw, y)
      {
        assert ThreadSwept(s.m.h, s.m.c, s.cw, y);
      }
    }
  }

  /** The program may change what the roots are, as long as they are live. */
  lemma RootsInv(s: State, s1: State)
    requires Inv(s, s.m.h.Keys)
    requires s1 == s.(running := s1.running, mt := s1.mt)
    requires s1.running in s.m.h && s.m.h[s1.running].Thread?
    requires forall r :: r in Roots(s1) ==> Live(s.Sw(), r)
    ensures Inv(s1, s1.m.h.Keys)
  {
    hide Points;
    hide Linked;
    hide MarkInv;
    hide Live;
    assert Stale(s1) == Stale(s);
  }

  /** luaS_fix. */
  lemma FixInv(s: State, x: Id)
    requires Inv(s, s.m.h.Keys) && x in s.m.h && s.m.h[x].String?
    ensures Inv(s.(fixed := s.fixed + {x}), s.m.h.Keys)
  {
    hide Linked;
    hide MarkInv;
    var s1 := s.(fixed := s.fixed + {x});
    assert forall y :: Live(s1.Sw(), y) <==> Live(s.Sw(), y) || (y == x && y in s.m.c);
    assert Roots(s1) == Roots(s);
    assert Stale(s1) == Stale(s);
    NoStringPoints(s.m.h, x);
    hide Points;
  }

  /** What a live object refers to is live. */
  lemma RefLive(s: State, x: Id, r: Id)
    requires Inv(s, s.m.h.Keys) && Live(s.Sw(), x) && Points(s.m.h, x, r)
    ensures Live(s.Sw(), r) && r in s.m.h
  {
    InvBasic(s, s.m.h.Keys);
  }

  lemma RunningLive(s: State)
    requires Inv(s, s.m.h.Keys)
    ensures s.running in s.m.h && s.m.h[s.running].Thread? && Live(s.Sw(), s.running)
    ensures forall r :: Ref(r) in s.m.h[s.running].stack ==> Live(s.Sw(), r) && r in s.m.h && r in s.m.c
    ensures s.m.c.Keys == s.m.h.Keys && |s.l.strt| > 0
  {
    hide MarkInv;
    InvBasic(s, s.m.h.Keys);
    InvLinked(s, s.m.h.Keys);
    assert s.running in Roots(s);
    forall r | Ref(r) in s.m.h[s.running].stack
      ensures Live(s.Sw(), r)
    {
      assert Points(s.m.h, s.running, r);
    }
  }

  lemma LinkedNewIs(s: State, id: Id, ob: Object, s1: State)
    requires s1 == s.(m := s1.m, l := s1.l, sweepgc := s1.sweepgc) && s1.m == s.m.(h := s1.m.h, c := s1.m.c)
    requires s1.m.h == s.m.h[id := ob] && s1.m.c == s.m.c[id := White(s.cw)]
    requires s1.l == s.l.(rootgc := [id] + s.l.rootgc) && s1.sweepgc == if s.sweepgc > 0 then s.sweepgc + 1 else 0
    ensures s1 == LinkedNew(s, id, ob)
  {
  }

  lemma LinkedUdataIs(s: State, id: Id, ob: Object, s1: State)
    requires s1 == s.(m := s1.m, l := s1.l, sweepgc := s1.sweepgc) && s1.m == s.m.(h := s1.m.h, c := s1.m.c)
    requires s1.m.h == s.m.h[id := ob] && s1.m.c == s.m.c[id := White(s.cw)]
    requires s1.l == s.l.(udata := [id] + s.l.udata) && s1.sweepgc == if s.sweepgc > |s.l.rootgc| then s.sweepgc + 1 else s.sweepgc
    ensures s1 == LinkedUdata(s, id, ob)
  {
  }

  lemma LinkedStringIs(s: State, id: Id, hash: nat)
    requires |s.l.strt| > 0
    ensures Bucket(hash, |s.l.strt|) < |s.l.strt|
    ensures var b := Bucket(hash, |s.l.strt|);
      LinkedString(s, id, hash) == s.(m := s.m.(h := s.m.h[id := String(hash)], c := s.m.c[id := White(s.cw)]),
        l := s.l.(strt := s.l.strt[b := [id] + s.l.strt[b]]))
  {
  }

  lemma NotDeadLive(s: State, x: Id)
    requires x in s.m.h && x in s.m.c && s.m.c[x] != White(Other(s.cw))
    ensures Live(s.Sw(), x)
  {
  }

  /** The write adds no reference but the one that is passed to the barrier. */
  ghost predicate AddsOnly(h: Heap, x: Id, ob: Object, v: Value) {
    forall r :: Adds(h, h[x := ob], x, r) ==> v == Ref(r)
  }

  lemma AddsOnlyIs(h: Heap, x: Id, ob: Object, v: Value, h1: Heap)
    requires AddsOnly(h, x, ob, v) && h1 == h[x := ob]
    ensures forall r :: Adds(h, h1, x, r) ==> v == Ref(r)
  {
    forall r | Adds(h, h1, x, r)
      ensures v == Ref(r)
    {
      assert Adds(h, h[x := ob], x, r);
    }
  }

  lemma WriteReady(s: State, x: Id, ob: Object, v: Value)
    requires Inv(s, s.m.h.Keys) && Live(s.Sw(), x)
    requires Writes1(s.m.h, x, ob, s.m.h[x := ob]) && AddsOnly(s.m.h, x, ob, v)
    requires v.Ref? ==> Live(s.Sw(), v.id)
    ensures x in s.m.h && x in s.m.c && s.m.h[x := ob].Keys == s.m.h.Keys && s.m.c.Keys == s.m.h.Keys
    ensures v.Ref? ==> v.id in s.m.h && v.id in s.m.c
    ensures s.phase == Propagate ==> ClosedUnder(s.m.h[x := ob], s.m.h.Keys)
  {
    hide Points;
    hide Linked;
    InvBasic(s, s.m.h.Keys);
    if s.phase == Propagate {
      var h1 := s.m.h[x := ob];
      AddsOnlyIs(s.m.h, x, ob, v, h1);
      LiveIn(s);
      hide Live;
      WrittenClosed(s, x, ob, h1);
    }
  }

  lemma WriteNoBarrier(s: State, x: Id, ob: Object, v: Value)
    requires Inv(s, s.m.h.Keys) && Live(s.Sw(), x)
    requires Writes1(s.m.h, x, ob, s.m.h[x := ob]) && AddsOnly(s.m.h, x, ob, v)
    requires v.Ref? ==> Live(s.Sw(), v.id)
    requires !(v.Ref? && v.id in s.m.c && s.m.c[v.id].White? && x in s.m.c && s.m.c[x] == Black)
    ensures Inv(s.(m := s.m.(h := s.m.h[x := ob])), s.m.h.Keys)
  {
    hide Points;
    hide Linked;
    hide Inv;
    hide Adds;
    InvBasic(s, s.m.h.Keys);
    if s.phase == Propagate {
      GrayIsQueued(s, x);
    }
    var h1 := s.m.h[x := ob];
    assert h1.Keys == s.m.h.Keys;
    AddsOnlyIs(s.m.h, x, ob, v, h1);
    WriteInv(s, x, ob, h1);
  }

  /** During propagation every gray object is queued, now or for the atomic step. */
  lemma GrayIsQueued(s: State, x: Id)
    requires Inv(s, s.m.h.Keys) && s.phase == Propagate && x in s.m.h && !s.m.h[x].String?
    ensures x in s.m.c && (s.m.c[x] == Gray ==> x in s.m.gray || x in Stale(s))
  {
    hide Points;
    hide StrongPoints;
    hide Traversed;
    OpenStale(s, s.m.h.Keys);
    assert s.m.c[x] == Gray && Greyable(s.m.h[x]) ==> OnList(s.m, x);
  }

  /** Which colours and lists go together during propagation: what is black is on no list and is neither a
      thread nor an open upvalue, and what is gray and has to be traversed is on exactly one list, once. */
  lemma ColorsAndLists(s: State, x: Id)
    requires Inv(s, s.m.h.Keys) && s.phase == Propagate && x in s.m.h
    ensures x in s.m.c
    ensures s.m.c[x] == Black ==> !s.m.h[x].Thread? && !IsOpen(s.m.h[x]) && !OnList(s.m, x)
    ensures s.m.c[x] == Gray && Greyable(s.m.h[x]) ==>
              multiset(s.m.gray)[x] + multiset(s.m.grayagain)[x] + multiset(s.m.weak)[x] == 1
  {
    hide Points;
    hide StrongPoints;
    hide Traversed;
    var m := s.m;
    assert x !in m.gray ==> multiset(m.gray)[x] == 0;
    assert x !in m.grayagain ==> multiset(m.grayagain)[x] == 0;
    assert x !in m.weak ==> multiset(m.weak)[x] == 0;
    assert OnList(m, x) ==> m.c[x] == Gray;
    if m.c[x] == Gray && Greyable(m.h[x]) {
      assert OnList(m, x);
      if x in m.gray {
        OnceIn(m.gray, x);
      } else if x in m.grayagain {
        OnceIn(m.grayagain, x);
      } else {
        OnceIn(m.weak, x);
      }
    }
  }

  lemma {:induction false} OnceIn(l: seq<Id>, x: Id)
    requires NoDup(l) && x in l
    ensures multiset(l)[x] == 1
  {
    assert l == [l[0]] + l[1..];
    if l[0] == x {
      assert x !in l[1..];
    } else {
      OnceIn(l[1..], x);
    }
  }

  lemma BarrierDone(s: State, x: Id, ob: Object, v: Id, s2: State, added: seq<Id>)
    requires Inv(s, s.m.h.Keys) && Live(s.Sw(), x) && Live(s.Sw(), v)
    requires Writes1(s.m.h, x, ob, s.m.h[x := ob]) && AddsOnly(s.m.h, x, ob, Ref(v))
    requires x in s.m.c && s.m.c[x] == Black
    requires s2 == s.(m := s.m.(h := s.m.h[x := ob], c := s2.m.c, gray := added + s.m.gray))
    requires s.phase == Propagate ==> MarkStep(s.m.h[x := ob], s.m.h.Keys, s.m.c, s2.m.c, added) && NonWhite(s2.m.c, v)
    requires s.phase != Propagate ==> added == [] && s2.m.c == s.m.c[x := White(s.cw)]
    ensures Inv(s2, s2.m.h.Keys)
  {
    hide Points;
    hide Linked;
    hide Inv;
    hide Adds;
    hide MarkEffect;
    var h1 := s.m.h[x := ob];
    assert h1.Keys == s.m.h.Keys;
    LiveIn(s);
    AddsOnlyIs(s.m.h, x, ob, Ref(v), h1);
    if s.phase == Propagate {
      if x in s.l.tmudata {
        BarrierOnFinalized(s, x, ob, v, s2, added);
      } else {
        ForwardInv(s, x, ob, h1, v, s2, added);
      }
    } else {
      assert added + s.m.gray == s.m.gray;
      WriteInv(s, x, ob, h1);
      var s1 := s.(m := s.m.(h := h1));
      InvBasic(s, s.m.h.Keys);
      WriteSafe(s, x, ob, h1);
      WhitenedOwnerInv(s1, x);
    }
  }

  /** A userdata left from the previous cycle is stale anyway; the barrier marks its new reference early. */
  lemma BarrierOnFinalized(s: State, x: Id, ob: Object, v: Id, s2: State, added: seq<Id>)
    requires Inv(s, s.m.h.Keys) && s.phase == Propagate && x in s.l.tmudata && x in s.m.c && Live(s.Sw(), v)
    requires Writes1(s.m.h, x, ob, s.m.h[x := ob]) && AddsOnly(s.m.h, x, ob, Ref(v))
    requires s2 == s.(m := s.m.(h := s.m.h[x := ob], c := s2.m.c, gray := added + s.m.gray))
    requires MarkStep(s.m.h[x := ob], s.m.h.Keys, s.m.c, s2.m.c, added)
    ensures Inv(s2, s2.m.h.Keys)
  {
    hide Points;
    hide Linked;
    hide Adds;
    hide MarkEffect;
    hide MarkInv;
    var h1 := s.m.h[x := ob];
    var s1 := s.(m := s.m.(h := h1));
    assert h1.Keys == s.m.h.Keys;
    AddsOnlyIs(s.m.h, x, ob, Ref(v), h1);
    WriteInv(s, x, ob, h1);
    MarkStepKeeps(s1.m, Stale(s1), h1.Keys, s2.m.c, added);
    MarkEffectFacts(s1.m, h1.Keys, s2.m.c, added, s.cw);
    assert Stale(s2) == Stale(s1);
    MarkInvFits(s2.m, Stale(s2), h1.Keys);
    AllLive(s, s.m.h.Keys);
    ForwardSafe(s, h1, s2);
  }

  lemma TableBarred(s: State, t: Id, ob: Object, v: Value, s1: State, s2: State)
    requires Inv(s, s.m.h.Keys) && Live(s.Sw(), t)
    requires Writes1(s.m.h, t, ob, s.m.h[t := ob]) && ob.Table? && AddsOnly(s.m.h, t, ob, v)
    requires v.Ref? ==> Live(s.Sw(), v.id)
    requires t in s.m.c && s.m.c[t] == Black
    requires s1 == s.(m := s.m.(h := s.m.h[t := ob])) && s2 == BarredBack(s1, t)
    ensures Inv(s2, s2.m.h.Keys) && s2.l == s.l && forall x :: Live(s2.Sw(), x) <==> Live(s.Sw(), x)
  {
    hide Points;
    hide Linked;
    hide Inv;
    hide Adds;
    var h1 := s.m.h[t := ob];
    assert h1.Keys == s.m.h.Keys;
    AddsOnlyIs(s.m.h, t, ob, v, h1);
    BarredBackInv(s, t);
    var s3 := BarredBack(s, t);
    WriteInv(s3, t, ob, h1);
    assert s2 == s3.(m := s3.m.(h := h1));
    InvBasic(s3, s.m.h.Keys);
    WriteSafe(s3, t, ob, h1);
  }

  lemma WrittenLive(s: State, x: Id, ob: Object, s1: State)
    requires x in s.m.h && s1 == s.(m := s.m.(h := s.m.h[x := ob]))
    ensures s1.l == s.l && forall y :: Live(s1.Sw(), y) <==> Live(s.Sw(), y)
  {
  }

  lemma OpenListKnown(s: State, t: Id)
    requires Inv(s, s.m.h.Keys) && t in s.m.h && s.m.h[t].Thread?
    ensures forall i :: 0 <= i < |s.m.h[t].openupval| ==>
      var u := s.m.h[t].openupval[i];
      u in s.m.h && u in s.m.c && s.m.h[u].UpVal? && s.m.h[u].cell.Open? && s.m.h[u].cell.th == t
  {
    hide MarkInv;
    hide Points;
    InvBasic(s, s.m.h.Keys);
    forall i | 0 <= i < |s.m.h[t].openupval|
      ensures var u := s.m.h[t].openupval[i];
        u in s.m.h && u in s.m.c && s.m.h[u].UpVal? && s.m.h[u].cell.Open? && s.m.h[u].cell.th == t
    {
      assert s.m.h[t].openupval[i] in s.m.h[t].openupval;
    }
  }

  /** What an open upvalue of the running thread refers to is on its stack. */
  lemma FoundUpval(s: State, t: Id, i: nat)
    requires Inv(s, s.m.h.Keys) && t == s.running && t in s.m.h && s.m.h[t].Thread? && i < |s.m.h[t].openupval|
    ensures var u := s.m.h[t].openupval[i];
      u in s.m.h && u in s.m.c && IsOpen(s.m.h[u]) && s.m.h[u].cell.th == t
      && forall r :: Points(s.m.h, u, r) ==> Live(s.Sw(), r)
  {
    hide Inv;
    OpenListKnown(s, t);
    RunningLive(s);
    OpenReadsStack(s.m.h, s.m.h, s.m.h[t].openupval[i], t);
    hide Live;
    forall r | Points(s.m.h, s.m.h[t].openupval[i], r)
      ensures Live(s.Sw(), r)
    {
      assert Points(s.m.h, t, r);
      RefLive(s, t, r);
    }
  }

  lemma LinkedOpenIs(s: State, id: Id, t: Id, slot: nat, i: nat)
    requires t in s.m.h && s.m.h[t].Thread? && i <= |s.m.h[t].openupval|
    ensures var os := s.m.h[t].openupval;
      LinkedOpen(s, id, t, slot, i) == s.(m := s.m.(h := s.m.h[t := s.m.h[t].(openupval := os[..i] + [id] + os[i..])][id := UpVal(Open(t, slot))],
        c := s.m.c[id := White(s.cw)]), l := s.l.(uvhead := [id] + s.l.uvhead))
    ensures LinkedOpen(s, id, t, slot, i).m.h.Keys == s.m.h.Keys + {id}
  {
  }

  /** The state that lua_newstate makes. */
  lemma InitialInv(s: State, main: Id, buckets: nat)
    requires buckets > 0 && s.m.h == map[main := Thread(Nil, [], [])] && s.m.c == map[main := White(s.cw)]
    requires s.l == Links([main], [], seq(buckets, _ => []), [], []) && s.m.gray == s.m.grayagain == s.m.weak == []
    requires s.phase == Pause && s.mainthread == s.running == main && s.fixed == {main}
    requires s.registry == Nil && forall i :: 0 <= i < |s.mt| ==> s.mt[i] == Nil
    ensures Inv(s, s.m.h.Keys)
  {
    hide Bucket;
    assert Linked(s.m.h, s.l);
    assert Roots(s) == {main};
  }
}
