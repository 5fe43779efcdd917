/** What the elementary actions of a sweep do to the heap: whitening, freeing, and closing upvalues. */
module Sweeps {
  import opened LuaObjects
  import opened Marking
  import opened Places
  import opened States

  /** `list` after `x` was unlinked from it. */
  function Without(list: seq<Id>, x: Id): seq<Id> {
    if list == [] then [] else if list[0] == x then list[1..] else [list[0]] + Without(list[1..], x)
  }

  lemma {:induction false} WithoutMembers(list: seq<Id>, x: Id)
    requires NoDup(list)
    ensures NoDup(Without(list, x))
    ensures |Without(list, x)| == if x in list then |list| - 1 else |list|
    ensures forall y :: y in Without(list, x) <==> y in list && y != x
  {
    if list != [] {
      var rest := list[1..];
      assert list == [list[0]] + rest;
      assert forall y :: y in list <==> y == list[0] || y in rest;
      WithoutMembers(rest, x);
      if list[0] != x {
        NoDupConcat([list[0]], Without(rest, x));
      }
    }
  }

  function RemoveAt(list: seq<Id>, i: nat): seq<Id>
    requires i < |list|
  {
    list[..i] + list[i + 1..]
  }

  lemma RemoveAtMembers(list: seq<Id>, i: nat)
    requires i < |list| && NoDup(list)
    ensures NoDup(RemoveAt(list, i))
    ensures forall y :: y in RemoveAt(list, i) <==> y in list && y != list[i]
  {
    assert list == list[..i] + [list[i]] + list[i + 1..];
    forall y | y in list && y != list[i]
      ensures y in RemoveAt(list, i)
    {
      var k :| 0 <= k < |list| && list[k] == y;
      assert k < i ==> RemoveAt(list, i)[k] == y;
      assert k > i ==> RemoveAt(list, i)[k - 1] == y;
    }
  }

  lemma RemoveAtOrder(list: seq<Id>, i: nat)
    requires i < |list|
    ensures SameOrder(list, RemoveAt(list, i))
  {
    var part := RemoveAt(list, i);
    forall x | x in part
      ensures x in list
    {
      var k :| 0 <= k < |part| && part[k] == x;
      assert list[if k < i then k else k + 1] == x;
    }
    forall a, b | 0 <= a < b < |part|
      ensures Before(list, part[a], part[b])
    {
      assert list[if a < i then a else a + 1] == part[a] && list[if b < i then b else b + 1] == part[b];
    }
  }

  /** No userdata is added, and what is left stays in order. */
  ghost predicate UdataKept(l0: seq<Id>, l: seq<Id>) {
    l == l0 || SameOrder(l0, l)
  }

  lemma BeforeIn(l0: seq<Id>, l: seq<Id>, x: Id, y: Id)
    requires SameOrder(l0, l) && Before(l, x, y)
    ensures Before(l0, x, y)
  {
    var p, q {:trigger l[p], l[q]} :| 0 <= p < q < |l| && l[p] == x && l[q] == y;
    assert Before(l0, l[p], l[q]);
  }

  lemma UdataKeptTrans(l0: seq<Id>, l1: seq<Id>, l2: seq<Id>)
    requires UdataKept(l0, l1) && UdataKept(l1, l2)
    ensures UdataKept(l0, l2)
  {
    hide Before;
    if l1 != l0 && l2 != l1 {
      forall i, j | 0 <= i < j < |l2|
        ensures Before(l0, l2[i], l2[j])
      {
        BeforeIn(l0, l1, l2[i], l2[j]);
      }
    }
  }

  /** A sweep frees objects that are not live and closes upvalues of freed threads; what is live stays
      live, and what live objects refer to stays the same. */
  ghost predicate SweepRel(s0: State, s: State) {
    Kept(s0, s) && ShadesKept(s0, s)
  }

  ghost predicate Kept(s0: State, s: State) {
    && s == s0.(m := s.m, l := s.l, sweepgc := s.sweepgc)
    && s.l.tmudata == s0.l.tmudata && |s.l.strt| == |s0.l.strt| && UdataKept(s0.l.udata, s.l.udata)
    && Basic(s)
    && s.m.h.Keys <= s0.m.h.Keys
    && (forall x :: Live(s.Sw(), x) <==> Live(s0.Sw(), x))
    && (forall x, r :: Live(s0.Sw(), x) ==> (Points(s.m.h, x, r) <==> Points(s0.m.h, x, r)))
    && ContentsKept(s0.m.h, s.m.h)
  }

  /** No table becomes black, and no userdata that waits for its finalizer stops being black. */
  ghost predicate ShadesKept(s0: State, s: State) {
    && (forall x :: x in s.m.h && s.m.h[x].Table? && x in s.m.c && s.m.c[x] == Black ==> x in s0.m.c && s0.m.c[x] == Black)
    && (forall u :: u in s0.l.tmudata && u in s0.m.c && s0.m.c[u] == Black ==> u in s.m.c && s.m.c[u] == Black)
  }

  /** What is left holds what it held: sweeping only moves the value of an upvalue from the stack to the upvalue. */
  ghost predicate ContentsKept(h0: Heap, h: Heap) {
    forall x :: x in h ==> x in h0 && SameContents(h0, h, x)
  }

  ghost predicate SameContents(h0: Heap, h: Heap, x: Id)
    requires x in h && x in h0
  {
    match h[x]
    case UpVal(c) => h0[x].UpVal? && CellValue(h, c) == CellValue(h0, h0[x].cell)
    case Thread(gt, stack, _) => h0[x].Thread? && gt == h0[x].gt && stack == h0[x].stack
    case _ => h[x] == h0[x]
  }

  lemma SweepRelTrans(s0: State, s1: State, s2: State)
    requires SweepRel(s0, s1) && SweepRel(s1, s2)
    ensures SweepRel(s0, s2)
  {
    KeptTrans(s0, s1, s2);
    ShadesKeptTrans(s0, s1, s2);
    hide Kept;
    hide ShadesKept;
  }

  lemma KeptTrans(s0: State, s1: State, s2: State)
    requires Kept(s0, s1) && Kept(s1, s2)
    ensures Kept(s0, s2)
  {
    UdataKeptTrans(s0.l.udata, s1.l.udata, s2.l.udata);
    ContentsKeptTrans(s0.m.h, s1.m.h, s2.m.h);
    hide UdataKept;
    hide ContentsKept;
    hide Points;
    hide Basic;
    hide Live;
  }

  lemma ShadesKeptTrans(s0: State, s1: State, s2: State)
    requires ShadesKept(s0, s1) && ShadesKept(s1, s2) && Kept(s0, s1) && Kept(s1, s2)
    ensures ShadesKept(s0, s2)
  {
    hide UdataKept;
    hide CellValue;
    hide Points;
    hide Basic;
    hide Live;
  }

  lemma ContentsKeptTrans(h0: Heap, h1: Heap, h2: Heap)
    requires ContentsKept(h0, h1) && ContentsKept(h1, h2)
    ensures ContentsKept(h0, h2)
  {
    hide CellValue;
  }

  lemma SweepRelRefl(s: State)
    requires Basic(s)
    ensures SweepRel(s, s)
  {
  }

  lemma SweepKeepsSafe(s0: State, s: State)
    requires SweepRel(s0, s) && Safe(s0.Sw()) && RootsLive(s0)
    ensures Safe(s.Sw()) && RootsLive(s)
  {
    KeptSafe(s0, s);
  }

  lemma KeptSafe(s0: State, s: State)
    requires Kept(s0, s) && Safe(s0.Sw()) && RootsLive(s0)
    ensures Safe(s.Sw()) && RootsLive(s)
  {
    hide Points;
    hide Basic;
    hide Live;
    assert Roots(s) == Roots(s0);
    forall x, r | Live(s.Sw(), x) && Points(s.m.h, x, r)
      ensures Live(s.Sw(), r)
    {
      assert Points(s0.m.h, x, r);
    }
  }

  /** Giving a live object the current white. */
  lemma Whiten(s: State, x: Id)
    requires Basic(s) && Live(s.Sw(), x)
    ensures Kept(s, s.(m := s.m.(c := s.m.c[x := White(s.cw)])))
    ensures x !in s.l.tmudata ==> SweepRel(s, s.(m := s.m.(c := s.m.c[x := White(s.cw)])))
  {
    hide Linked;
    hide Points;
  }

  ghost predicate NobodyReadsThrough(h: Heap, t: Id) {
    forall y :: y in h && IsOpen(h[y]) ==> h[y].cell.th != t
  }

  /** Removing an object whose stack no open upvalue points into changes no other object. */
  lemma FreePoints(h: Heap, x: Id)
    requires NobodyReadsThrough(h, x)
    ensures forall y, r :: y != x ==> (Points(h - {x}, y, r) <==> Points(h, y, r))
  {
    forall y, r | y != x
      ensures Points(h - {x}, y, r) <==> Points(h, y, r)
    {
    }
  }

  lemma FreeRel(s: State, x: Id, l: Links, sweepgc: nat)
    requires Basic(s) && x in s.m.h && !Live(s.Sw(), x) && NobodyReadsThrough(s.m.h, x)
    requires RootsLive(s)
    requires Linked(s.m.h - {x}, l) && l.tmudata == s.l.tmudata && |l.strt| == |s.l.strt| && UdataKept(s.l.udata, l.udata)
    ensures SweepRel(s, s.(m := s.m.(h := s.m.h - {x}, c := s.m.c - {x}), l := l, sweepgc := sweepgc))
  {
    hide Points;
    hide Linked;
    FreePoints(s.m.h, x);
    assert s.mainthread in Roots(s) && s.running in Roots(s);
    var s1 := s.(m := s.m.(h := s.m.h - {x}, c := s.m.c - {x}), l := l, sweepgc := sweepgc);
    assert forall y :: Live(s1.Sw(), y) <==> Live(s.Sw(), y);
    assert x !in s.fixed;
  }

  lemma StringsSame(h: Heap, h1: Heap, strt: seq<seq<Id>>)
    requires StringsLinked(h, strt)
    requires forall x :: x in h && h[x].String? ==> x in h1 && h1[x] == h[x]
    requires forall x :: x in h1 && h1[x].String? ==> x in h && h[x] == h1[x]
    ensures StringsLinked(h1, strt)
  {
    hide Bucket;
  }

  predicate StackObject(o: Object) {
    o.Thread? || IsOpen(o)
  }

  lemma UpValsSame(h: Heap, h1: Heap, uvhead: seq<Id>)
    requires UpValsLinked(h, uvhead)
    requires forall x :: x in h && StackObject(h[x]) ==> x in h1 && h1[x] == h[x]
    requires forall x :: x in h1 && StackObject(h1[x]) ==> x in h && h[x] == h1[x]
    ensures UpValsLinked(h1, uvhead)
  {
  }

  lemma UnlinkString(h: Heap, strt: seq<seq<Id>>, b: nat, i: nat)
    requires StringsLinked(h, strt) && b < |strt| && i < |strt[b]|
    ensures strt[b][i] in h && h[strt[b][i]].String?
    ensures StringsLinked(h - {strt[b][i]}, strt[b := RemoveAt(strt[b], i)])
  {
    hide Bucket;
    var x := strt[b][i];
    assert x in strt[b];
    RemoveAtMembers(strt[b], i);
    var strt1 := strt[b := RemoveAt(strt[b], i)];
    forall b1, y | 0 <= b1 < |strt1| && y in strt1[b1]
      ensures y in h - {x} && h[y].String? && Bucket(h[y].hash, |strt1|) == b1
    {
      assert y in strt[b1];
    }
  }

  lemma UnlinkThread(h: Heap, uvhead: seq<Id>, x: Id)
    requires UpValsLinked(h, uvhead) && x in h && !IsOpen(h[x])
    requires h[x].Thread? ==> h[x].openupval == []
    ensures NobodyReadsThrough(h, x)
    ensures UpValsLinked(h - {x}, uvhead)
  {
    assert NobodyReadsThrough(h, x);
  }

  /** A string is unlinked from its bucket and freed. */
  lemma FreeStringLinked(h: Heap, l: Links, b: nat, i: nat)
    requires Linked(h, l) && b < |l.strt| && i < |l.strt[b]|
    ensures var x := l.strt[b][i];
      x in h && h[x].String? && NobodyReadsThrough(h, x)
      && Linked(h - {x}, l.(strt := l.strt[b := RemoveAt(l.strt[b], i)]))
  {
    hide StringsLinked;
    hide UpValsLinked;
    hide NobodyReadsThrough;
    UnlinkString(h, l.strt, b, i);
    UnlinkThread(h, l.uvhead, l.strt[b][i]);
  }

  /** An object of the `rootgc` list is unlinked and freed; a thread must have no open upvalue left. */
  lemma FreeRootLinked(h: Heap, l: Links, i: nat)
    requires Linked(h, l) && i < |l.rootgc|
    requires l.rootgc[i] in h && (h[l.rootgc[i]].Thread? ==> h[l.rootgc[i]].openupval == [])
    ensures NobodyReadsThrough(h, l.rootgc[i])
    ensures Linked(h - {l.rootgc[i]}, l.(rootgc := RemoveAt(l.rootgc, i)))
  {
    hide StringsLinked;
    hide UpValsLinked;
    hide NobodyReadsThrough;
    hide RemoveAt;
    var x := l.rootgc[i];
    assert x in l.rootgc;
    RemoveAtMembers(l.rootgc, i);
    UnlinkThread(h, l.uvhead, x);
    StringsSame(h, h - {x}, l.strt);
  }

  lemma FreeUdataLinked(h: Heap, l: Links, i: nat)
    requires Linked(h, l) && i < |l.udata|
    ensures var x := l.udata[i];
      x in h && NobodyReadsThrough(h, x) && Linked(h - {x}, l.(udata := RemoveAt(l.udata, i)))
  {
    hide StringsLinked;
    hide UpValsLinked;
    hide NobodyReadsThrough;
    hide RemoveAt;
    var x := l.udata[i];
    assert x in l.udata;
    RemoveAtMembers(l.udata, i);
    UnlinkThread(h, l.uvhead, x);
    StringsSame(h, h - {x}, l.strt);
  }

  /** `h` after the upvalue at position `j` was taken off the open list of thread `t`. */
  function Unlinked(h: Heap, t: Id, j: nat): Heap
    requires t in h && h[t].Thread? && j < |h[t].openupval|
  {
    h[t := h[t].(openupval := RemoveAt(h[t].openupval, j))]
  }

  lemma UnlinkUpVal(h: Heap, uvhead: seq<Id>, t: Id, j: nat)
    requires UpValsLinked(h, uvhead) && t in h && h[t].Thread? && j < |h[t].openupval|
    ensures var u := h[t].openupval[j];
      u in h && u != t && IsOpen(h[u]) && NobodyReadsThrough(Unlinked(h, t, j), u)
      && UpValsLinked(Unlinked(h, t, j) - {u}, Without(uvhead, u))
  {
    var u := h[t].openupval[j];
    assert u in h[t].openupval;
    WithoutMembers(uvhead, u);
    UnlinkOpenLists(h, t, j);
  }

  lemma UnlinkOpenLists(h: Heap, t: Id, j: nat)
    requires OpenLists(h) && t in h && h[t].Thread? && j < |h[t].openupval|
    ensures h[t].openupval[j] in h && IsOpen(h[h[t].openupval[j]])
    ensures OpenLists(Unlinked(h, t, j) - {h[t].openupval[j]})
  {
    var os := h[t].openupval;
    var u := os[j];
    assert u in os;
    RemoveAtMembers(os, j);
    hide RemoveAt;
    var h1 := Unlinked(h, t, j) - {u};
    assert forall x :: x in h1 && x != t ==> h1[x] == h[x];
    assert h1[t] == h[t].(openupval := RemoveAt(os, j));
  }

  /** A dead open upvalue is unlinked from its thread and from the list of all open upvalues, and freed. */
  lemma FreeUpValLinked(h: Heap, l: Links, t: Id, j: nat)
    requires Linked(h, l) && t in h && h[t].Thread? && j < |h[t].openupval|
    ensures var u := h[t].openupval[j];
      u in h && u != t && IsOpen(h[u]) && NobodyReadsThrough(Unlinked(h, t, j), u)
      && Linked(Unlinked(h, t, j) - {u}, l.(uvhead := Without(l.uvhead, u)))
  {
    hide NobodyReadsThrough;
    hide StringsLinked;
    hide UpValsLinked;
    var u := h[t].openupval[j];
    UnlinkUpVal(h, l.uvhead, t, j);
    assert forall x :: x in h && x != u && x != t ==> x in Unlinked(h, t, j) && Unlinked(h, t, j)[x] == h[x];
    StringsSame(h, Unlinked(h, t, j) - {u}, l.strt);
  }

  /** `h` after the first open upvalue of thread `t` was closed. */
  function ClosedFirst(h: Heap, t: Id): Heap
    requires t in h && h[t].Thread? && h[t].openupval != [] && h[t].openupval[0] in h && IsOpen(h[h[t].openupval[0]])
  {
    var u := h[t].openupval[0];
    h[t := h[t].(openupval := h[t].openupval[1..])][u := UpVal(Closed(CellValue(h, h[u].cell)))]
  }

  lemma CloseUpValLinked(h: Heap, uvhead: seq<Id>, t: Id)
    requires UpValsLinked(h, uvhead) && t in h && h[t].Thread? && h[t].openupval != []
    ensures var u := h[t].openupval[0];
      u in h && u != t && IsOpen(h[u]) && h[u].cell.th == t && u in uvhead
      && UpValsLinked(ClosedFirst(h, t), Without(uvhead, u))
  {
    var u := h[t].openupval[0];
    assert u in h[t].openupval;
    WithoutMembers(uvhead, u);
    CloseOpenLists(h, t);
  }

  lemma CloseOpenLists(h: Heap, t: Id)
    requires OpenLists(h) && t in h && h[t].Thread? && h[t].openupval != []
    ensures h[t].openupval[0] in h && IsOpen(h[h[t].openupval[0]])
    ensures OpenLists(ClosedFirst(h, t))
  {
    var os, rest := h[t].openupval, h[t].openupval[1..];
    var u := os[0];
    assert u in os && os == [u] + rest;
    var h1 := ClosedFirst(h, t);
    assert u != t;
    assert h1[t] == h[t].(openupval := rest) && h1[u].UpVal? && h1[u].cell.Closed?;
    OpenListsOne(h, h1, t, u, rest);
  }

  /** Taking one upvalue off one open list, when that upvalue is open no longer. */
  lemma OpenListsOne(h: Heap, h1: Heap, t: Id, u: Id, rest: seq<Id>)
    requires OpenLists(h) && t in h && h[t].Thread? && u in h && h1.Keys == h.Keys
    requires h[t].openupval == [u] + rest && h1[t] == h[t].(openupval := rest)
    requires h1[u].UpVal? && !IsOpen(h1[u])
    requires forall x :: x in h && x != t && x != u ==> h1[x] == h[x]
    ensures OpenLists(h1)
  {
    hide NoDup;
    var os := h[t].openupval;
    NoDupTail(os);
    assert os[1..] == rest;
    forall x | x in h1 && IsOpen(h1[x])
      ensures h1[x].cell.th in h1 && h1[h1[x].cell.th].Thread? && x in h1[h1[x].cell.th].openupval
    {
      assert x != u && x != t && h1[x] == h[x];
      assert h[x].cell.th == t ==> x in os;
    }
    forall t1, y | t1 in h1 && h1[t1].Thread? && y in h1[t1].openupval
      ensures y in h1 && IsOpen(h1[y]) && h1[y].cell.th == t1
    {
      if t1 == t {
        assert y in os && y != u;
      } else {
        assert h1[t1] == h[t1];
      }
    }
  }

  lemma NoDupTail(list: seq<Id>)
    requires NoDup(list) && list != []
    ensures NoDup(list[1..]) && list[0] !in list[1..]
    ensures forall x :: x in list <==> x == list[0] || x in list[1..]
  {
    assert list == [list[0]] + list[1..];
  }

  lemma CloseLinked(h: Heap, l: Links, t: Id)
    requires Linked(h, l) && t in h && h[t].Thread? && h[t].openupval != []
    ensures var u := h[t].openupval[0];
      u in h && u != t && IsOpen(h[u]) && h[u].cell.th == t && u in l.uvhead
      && Linked(ClosedFirst(h, t), l.(rootgc := [u] + l.rootgc, uvhead := Without(l.uvhead, u)))
  {
    hide StringsLinked;
    hide UpValsLinked;
    var u := h[t].openupval[0];
    CloseUpValLinked(h, l.uvhead, t);
    NoDupConcat([u], l.rootgc);
    StringsSame(h, ClosedFirst(h, t), l.strt);
  }

  lemma ClosePoints(h: Heap, l: Links, t: Id)
    requires Linked(h, l) && t in h && h[t].Thread? && h[t].openupval != []
    ensures h[t].openupval[0] in h && IsOpen(h[h[t].openupval[0]]) && SamePoints(h, ClosedFirst(h, t))
  {
    var u := h[t].openupval[0];
    assert u in h[t].openupval;
    var h1 := ClosedFirst(h, t);
    forall x, r
      ensures Points(h1, x, r) <==> Points(h, x, r)
    {
      if x in h && x != t && x != u && h[x].UpVal? {
        assert CellValue(h1, h[x].cell) == CellValue(h, h[x].cell);
      }
    }
  }

  /** The state after the first open upvalue of `t` was closed and linked with the other objects. */
  ghost function ClosedState(s: State, t: Id): State
    requires t in s.m.h && s.m.h[t].Thread? && s.m.h[t].openupval != []
    requires s.m.h[t].openupval[0] in s.m.h && IsOpen(s.m.h[s.m.h[t].openupval[0]])
  {
    var u := s.m.h[t].openupval[0];
    s.(m := s.m.(h := ClosedFirst(s.m.h, t)),
       l := s.l.(rootgc := [u] + s.l.rootgc, uvhead := Without(s.l.uvhead, u)),
       sweepgc := if s.sweepgc > 0 then s.sweepgc + 1 else 0)
  }

  ghost predicate HasOpen(s: State, t: Id) {
    t in s.m.h && s.m.h[t].Thread? && s.m.h[t].openupval != []
    && s.m.h[t].openupval[0] in s.m.h && IsOpen(s.m.h[s.m.h[t].openupval[0]])
  }

  lemma FirstOpen(s: State, t: Id)
    requires Basic(s) && t in s.m.h && s.m.h[t].Thread? && s.m.h[t].openupval != []
    ensures HasOpen(s, t) && s.m.h[t].openupval[0] in s.m.c && s.m.c[s.m.h[t].openupval[0]] != Black
    ensures s.m.h[t].openupval[0] in s.l.uvhead && s.m.h[t].openupval[0] !in s.fixed && s.m.h[t].openupval[0] != t
    ensures s.m.h[t].openupval[0] !in s.l.tmudata
  {
    CloseLinked(s.m.h, s.l, t);
  }

  /** Closing an upvalue moves its value. */
  lemma ClosedContents(h: Heap, t: Id)
    requires t in h && h[t].Thread? && h[t].openupval != [] && h[t].openupval[0] in h && IsOpen(h[h[t].openupval[0]])
    requires h[h[t].openupval[0]].cell.th == t
    ensures ContentsKept(h, ClosedFirst(h, t))
  {
    var h1 := ClosedFirst(h, t);
    forall x | x in h1
      ensures x in h && SameContents(h, h1, x)
    {
      if h1[x].UpVal? && x != h[t].openupval[0] {
        assert h1[x] == h[x] && CellValue(h1, h1[x].cell) == CellValue(h, h[x].cell);
      }
    }
  }

  lemma ClosedStateRel(s: State, t: Id)
    requires Basic(s) && HasOpen(s, t)
    ensures SweepRel(s, ClosedState(s, t))
  {
    hide Points;
    hide Linked;
    hide ContentsKept;
    hide Bucket;
    CloseLinked(s.m.h, s.l, t);
    ClosedContents(s.m.h, t);
    ClosePoints(s.m.h, s.l, t);
  }

  /** Outside the propagate phase a closed upvalue that was marked becomes white. */
  ghost function ClosedWhite(s: State, t: Id): State
    requires HasOpen(s, t)
  {
    var u := s.m.h[t].openupval[0];
    var s1 := ClosedState(s, t);
    if u in s.m.c && s.m.c[u] == Gray then s1.(m := s1.m.(c := s1.m.c[u := White(s.cw)])) else s1
  }

  lemma ClosedWhiteRel(s: State, t: Id)
    requires Basic(s) && HasOpen(s, t) && Live(s.Sw(), s.m.h[t].openupval[0])
    ensures SweepRel(s, ClosedWhite(s, t))
    ensures var u := s.m.h[t].openupval[0]; u in ClosedWhite(s, t).m.c && ClosedWhite(s, t).m.c[u] == White(s.cw)
  {
    hide Points;
    hide Linked;
    hide SweepRel;
    var u := s.m.h[t].openupval[0];
    ClosedStateRel(s, t);
    FirstOpen(s, t);
    SweepRelFacts(s, ClosedState(s, t));
    if s.m.c[u] == Gray {
      Whiten(ClosedState(s, t), u);
      SweepRelTrans(s, ClosedState(s, t), ClosedWhite(s, t));
    }
  }

  lemma SweepRelFacts(s0: State, s: State)
    requires SweepRel(s0, s)
    ensures Basic(s) && s.m.c.Keys == s.m.h.Keys && s.m.h.Keys <= s0.m.h.Keys
    ensures forall x :: Live(s.Sw(), x) <==> Live(s0.Sw(), x)
    ensures s.cw == s0.cw && s.phase == s0.phase && s.fixed == s0.fixed && s.sweepstrgc == s0.sweepstrgc
    ensures s.l.tmudata == s0.l.tmudata && |s.l.strt| == |s0.l.strt|
    ensures s.mainthread == s0.mainthread && s.running == s0.running
  {
    KeptFacts(s0, s);
  }

  lemma KeptFacts(s0: State, s: State)
    requires Kept(s0, s)
    ensures Basic(s) && s.m.c.Keys == s.m.h.Keys && s.m.h.Keys <= s0.m.h.Keys
    ensures forall x :: Live(s.Sw(), x) <==> Live(s0.Sw(), x)
    ensures s.cw == s0.cw && s.phase == s0.phase && s.fixed == s0.fixed && s.sweepstrgc == s0.sweepstrgc
    ensures s.l.tmudata == s0.l.tmudata && |s.l.strt| == |s0.l.strt|
    ensures s.mainthread == s0.mainthread && s.running == s0.running
  {
    hide Points;
    hide Linked;
  }

  lemma ClosedWhiteInv(s: State, t: Id, rs: set<Id>)
    requires Inv(s, rs) && s.phase != Propagate
    requires t in s.m.h && s.m.h[t].Thread? && s.m.h[t].openupval != [] && HasOpen(s, t) && Live(s.Sw(), s.m.h[t].openupval[0])
    ensures Inv(ClosedWhite(s, t), rs) && SweepRel(s, ClosedWhite(s, t))
  {
    hide Points;
    hide Linked;
    hide Basic;
    var s1 := ClosedWhite(s, t);
    ClosedWhiteRel(s, t);
    SweepKeepsSafe(s, s1);
    var u := s.m.h[t].openupval[0];
    SweepRelFacts(s, s1);
    if s.phase == Sweep {
      ClosedWhiteSwept(s, t);
    }
  }

  lemma ClosedWhiteSwept(s: State, t: Id)
    requires Basic(s) && SweepingObjects(s) && HasOpen(s, t) && Live(s.Sw(), s.m.h[t].openupval[0])
    ensures SweepingObjects(ClosedWhite(s, t))
  {
    hide Points;
    hide Linked;
    hide Basic;
    var s1 := ClosedWhite(s, t);
    var u := s.m.h[t].openupval[0];
    ClosedWhiteRel(s, t);
    FirstOpen(s, t);
    var all, all1 := s.l.rootgc + s.l.udata, s1.l.rootgc + s1.l.udata;
    assert all1 == [u] + all;
    var done, done1 := all[..s.sweepgc], all1[..s1.sweepgc];
    assert s.sweepgc > 0 ==> done1 == [u] + done;
    forall x | x in done1 && x in s1.m.c
      ensures s1.m.c[x] == White(s.cw) && ThreadSwept(s1.m.h, s1.m.c, s.cw, x)
    {
      if x != u {
        assert x in done;
        assert ThreadSwept(s.m.h, s.m.c, s.cw, x);
        assert x in s1.m.h && x != t ==> s1.m.h[x] == s.m.h[x];
      }
    }
  }

  /** In the propagate phase a closed upvalue that was marked becomes black. */
  ghost function ClosedBlack(s: State, t: Id): State
    requires HasOpen(s, t)
  {
    var u := s.m.h[t].openupval[0];
    var s1 := ClosedState(s, t);
    if u in s.m.c && s.m.c[u] == Gray then s1.(m := s1.m.(c := s1.m.c[u := Black])) else s1
  }

  lemma ClosedBlackLists(m: MarkState, u: Id, t: Id, m1: MarkState)
    requires Lists(m) && Shades(m) && u in m.h && IsOpen(m.h[u]) && t in m.h && m.h[t].Thread?
    requires m1.h.Keys == m.h.Keys && forall x :: x in m.h && x != u && x != t ==> m1.h[x] == m.h[x]
    requires m1.h[t].Thread? && m1.h[u].UpVal? && m1.h[u].cell.Closed?
    requires m1 == m.(h := m1.h, c := if m.c[u] == Gray then m.c[u := Black] else m.c)
    ensures Lists(m1) && Shades(m1)
    ensures forall x :: NonWhite(m1.c, x) <==> NonWhite(m.c, x)
  {
    assert forall x :: OnList(m, x) <==> OnList(m1, x);
    assert !OnList(m, u);
  }

  lemma ClosedBlackMarkInv(s: State, t: Id, stale: set<Id>, rs: set<Id>)
    requires Basic(s) && HasOpen(s, t) && MarkInv(s.m, stale, rs) && s.m.h[t].openupval[0] in stale
    ensures MarkInv(ClosedBlack(s, t).m, stale, rs)
  {
    hide Points;
    hide StrongPoints;
    hide Linked;
    hide ColorsFit;
    hide Lists;
    hide Shades;
    hide Without;
    CloseLinked(s.m.h, s.l, t);
    ClosePoints(s.m.h, s.l, t);
    var u := s.m.h[t].openupval[0];
    var m, m1 := s.m, ClosedBlack(s, t).m;
    ClosedBlackLists(m, u, t, m1);
    MarkInvFits(m, stale, rs);
    forall x | NonWhite(m1.c, x) && x !in m1.gray && x !in stale
      ensures TraversedOne(m1, x)
    {
      assert TraversedOne(m, x);
      if x in m.weak {
        StrongSettledLater(m.h, m.c, m1.h, m.c, x);
        StrongSettledGrows(m1.h, m.c, m1.c, x);
      }
    }
  }

  lemma ClosedBlackMarked(s: State, t: Id, rs: set<Id>, s1: State, added: seq<Id>)
    requires Basic(s) && HasOpen(s, t) && MarkInv(s.m, Stale(s), rs)
    requires var m := ClosedBlack(s, t).m;
      MarkEffect(m.h, rs, m.c, s1.m.c, added) && s1 == ClosedBlack(s, t).(m := m.(c := s1.m.c, gray := added + m.gray))
    requires var u := s.m.h[t].openupval[0]; NonWhite(s1.m.c, u) ==> ValueMarked(s1.m.c, CellValue(s.m.h, s.m.h[u].cell))
    ensures MarkInv(s1.m, Stale(s1), rs)
  {
    hide Points;
    hide StrongPoints;
    hide Linked;
    hide MarkInv;
    hide MarkEffect;
    hide ColorsFit;
    hide Without;
    var u := s.m.h[t].openupval[0];
    FirstOpen(s, t);
    var stale := Stale(s);
    assert u in stale;
    ClosedBlackMarkInv(s, t, stale, rs);
    MarkStepKeeps(ClosedBlack(s, t).m, stale, rs, s1.m.c, added);
    MarkInvFits(s1.m, stale, rs);
    ClosedUpValSettled(s1.m, u);
    assert Stale(s1) + {u} == stale by { BasicUvhead(s); WithoutMembers(s.l.uvhead, u); }
    NoLongerStale(s1.m, Stale(s1), rs, u);
  }

  lemma BasicUvhead(s: State)
    requires Basic(s)
    ensures NoDup(s.l.uvhead)
  {
  }

  lemma ClosedBlackInv(s: State, t: Id, rs: set<Id>, s1: State, added: seq<Id>)
    requires Inv(s, rs) && s.phase == Propagate && HasOpen(s, t)
    requires var m := ClosedBlack(s, t).m;
      MarkEffect(m.h, rs, m.c, s1.m.c, added) && s1 == ClosedBlack(s, t).(m := m.(c := s1.m.c, gray := added + m.gray))
    requires var u := s.m.h[t].openupval[0]; NonWhite(s1.m.c, u) ==> ValueMarked(s1.m.c, CellValue(s.m.h, s.m.h[u].cell))
    ensures Inv(s1, rs) && SweepRel(s, s1)
  {
    hide Points;
    hide StrongPoints;
    hide Basic;
    hide MarkInv;
    hide MarkEffect;
    hide SweepRel;
    hide Live;
    ClosedBlackMarked(s, t, rs, s1, added);
    MarkInvFits(s1.m, Stale(s1), rs);
    ClosedBlackRel(s, t, rs, s1, added);
    SweepKeepsSafe(s, s1);
    SweepRelFacts(s, s1);
    MarkEffectFacts(ClosedBlack(s, t).m, rs, s1.m.c, added, s.cw);
  }

  lemma ClosedBlackRel(s: State, t: Id, rs: set<Id>, s1: State, added: seq<Id>)
    requires Basic(s) && NoOtherWhite(s.m.c, s.cw) && HasOpen(s, t)
    requires var m := ClosedBlack(s, t).m;
      MarkEffect(m.h, rs, m.c, s1.m.c, added) && s1 == ClosedBlack(s, t).(m := m.(c := s1.m.c, gray := added + m.gray))
    requires ColorsFit(s1.m.h, s1.m.c)
    ensures SweepRel(s, s1)
  {
    hide SweepRel;
    hide Points;
    hide Linked;
    hide ColorsFit;
    hide MarkEffect;
    var s2 := ClosedState(s, t);
    ClosedStateRel(s, t);
    SweepRelFacts(s, s2);
    FirstOpen(s, t);
    MarkEffectFacts(ClosedBlack(s, t).m, rs, s1.m.c, added, s.cw);
    RecolorRel(s2, s1.m.c, s1.m.gray);
    SweepRelTrans(s, s2, s1);
  }

  /** New colours that leave everything live. */
  lemma RecolorRel(s: State, c: Colors, gray: seq<Id>)
    requires Basic(s) && c.Keys == s.m.c.Keys && ColorsFit(s.m.h, c)
    requires NoOtherWhite(s.m.c, s.cw) && NoOtherWhite(c, s.cw)
    requires forall x :: x in s.m.c && c[x] == Black && x in s.m.h && s.m.h[x].Table? ==> s.m.c[x] == Black
    requires forall x :: x in s.m.c && s.m.c[x] == Black ==> c[x] == Black
    ensures SweepRel(s, s.(m := s.m.(c := c, gray := gray)))
  {
    hide Points;
    hide Linked;
    hide ColorsFit;
  }

  lemma MarkInvFits(m: MarkState, stale: set<Id>, rs: set<Id>)
    requires MarkInv(m, stale, rs)
    ensures ColorsFit(m.h, m.c)
    ensures forall x :: x in m.weak ==> x in m.h && m.h[x].Table?
  {
    forall x | x in m.weak
      ensures x in m.h && m.h[x].Table?
    {
      assert OnList(m, x);
    }
  }

  lemma MarkEffectFacts(m: MarkState, rs: set<Id>, c: Colors, added: seq<Id>, cw: WhiteBit)
    requires MarkEffect(m.h, rs, m.c, c, added)
    ensures Grows(m.c, c)
    ensures forall x :: NonWhite(m.c, x) ==> NonWhite(c, x)
    ensures NoOtherWhite(m.c, cw) ==> NoOtherWhite(c, cw)
    ensures c.Keys == m.c.Keys
    ensures forall x :: x in m.c && c[x] == Black && x in m.h && m.h[x].Table? ==> m.c[x] == Black
    ensures forall x :: x in m.c && m.c[x] == Black ==> c[x] == Black
  {
    assert forall x :: x in m.c && m.c[x].White? && !c[x].White? ==> Marked(m.h, c, added, x);
  }

  lemma ClosedUpValSettled(m: MarkState, u: Id)
    requires u in m.h && m.h[u].UpVal? && m.h[u].cell.Closed?
    requires NonWhite(m.c, u) ==> ValueMarked(m.c, m.h[u].cell.v)
    requires forall x :: x in m.weak ==> x in m.h && m.h[x].Table?
    ensures NonWhite(m.c, u) ==> TraversedOne(m, u)
  {
  }

  /** The state after the upvalue at position `j` of the open list of `t` was freed. */
  ghost function UpValFreed(s: State, t: Id, j: nat): State
    requires t in s.m.h && s.m.h[t].Thread? && j < |s.m.h[t].openupval|
  {
    var u := s.m.h[t].openupval[j];
    s.(m := s.m.(h := Unlinked(s.m.h, t, j) - {u}, c := s.m.c - {u}), l := s.l.(uvhead := Without(s.l.uvhead, u)))
  }

  lemma UnlinkedContents(h: Heap, t: Id, j: nat, u: Id)
    requires t in h && h[t].Thread? && j < |h[t].openupval| && u in h && IsOpen(h[u]) && u != t
    ensures ContentsKept(h, Unlinked(h, t, j) - {u})
  {
    var h1 := Unlinked(h, t, j) - {u};
    forall x | x in h1
      ensures x in h && SameContents(h, h1, x)
    {
      if h1[x].UpVal? {
        assert h1[x] == h[x] && (IsOpen(h[x]) ==> h[x].cell.th != u || !h[u].Thread?);
        assert CellValue(h1, h1[x].cell) == CellValue(h, h[x].cell);
      }
    }
  }

  lemma UpValFreedRel(s: State, t: Id, j: nat)
    requires Basic(s) && RootsLive(s) && t in s.m.h && s.m.h[t].Thread? && j < |s.m.h[t].openupval|
    requires !Live(s.Sw(), s.m.h[t].openupval[j])
    ensures SweepRel(s, UpValFreed(s, t, j))
  {
    hide *;
    FreedShades(s, t, j);
    FreedLive(s, t, j);
    FreedBasic(s, t, j);
    FreedSame(s, t, j);
    SweepRelNow(s, UpValFreed(s, t, j));
  }

  lemma SweepRelNow(s: State, s1: State)
    requires s1 == s.(m := s1.m, l := s1.l, sweepgc := s1.sweepgc) && s1.l.tmudata == s.l.tmudata && |s1.l.strt| == |s.l.strt|
    requires s1.l.udata == s.l.udata
    requires Basic(s1) && s1.m.h.Keys <= s.m.h.Keys && ContentsKept(s.m.h, s1.m.h) && ShadesKept(s, s1)
    requires forall x :: Live(s1.Sw(), x) <==> Live(s.Sw(), x)
    requires forall x, r :: Live(s.Sw(), x) ==> (Points(s1.m.h, x, r) <==> Points(s.m.h, x, r))
    ensures SweepRel(s, s1)
  {
    hide Points;
    hide Basic;
    hide Live;
    hide ContentsKept;
    hide ShadesKept;
  }

  lemma FreedSame(s: State, t: Id, j: nat)
    requires Basic(s) && t in s.m.h && s.m.h[t].Thread? && j < |s.m.h[t].openupval|
    requires !Live(s.Sw(), s.m.h[t].openupval[j])
    ensures var s1 := UpValFreed(s, t, j);
      && s1 == s.(m := s1.m, l := s1.l, sweepgc := s1.sweepgc) && s1.l.tmudata == s.l.tmudata && |s1.l.strt| == |s.l.strt|
      && s1.l.udata == s.l.udata
      && ContentsKept(s.m.h, s1.m.h)
      && forall x, r :: Live(s.Sw(), x) ==> (Points(s1.m.h, x, r) <==> Points(s.m.h, x, r))
  {
    hide Points;
    hide Linked;
    hide Live;
    BasicLinked(s);
    hide Basic;
    FreeUpValLinked(s.m.h, s.l, t, j);
    UnlinkedContents(s.m.h, t, j, s.m.h[t].openupval[j]);
    FreedPoints(s.m.h, t, j);
    hide ContentsKept;
    hide NobodyReadsThrough;
    hide Unlinked;
  }

  lemma FreedLive(s: State, t: Id, j: nat)
    requires Basic(s) && t in s.m.h && s.m.h[t].Thread? && j < |s.m.h[t].openupval|
    requires !Live(s.Sw(), s.m.h[t].openupval[j])
    ensures forall y :: Live(UpValFreed(s, t, j).Sw(), y) <==> Live(s.Sw(), y)
    ensures UpValFreed(s, t, j).m.h.Keys <= s.m.h.Keys
  {
    hide Linked;
    hide ColorsFit;
  }

  lemma FreedBasic(s: State, t: Id, j: nat)
    requires Basic(s) && RootsLive(s) && t in s.m.h && s.m.h[t].Thread? && j < |s.m.h[t].openupval|
    requires !Live(s.Sw(), s.m.h[t].openupval[j])
    ensures Basic(UpValFreed(s, t, j))
  {
    hide Points;
    hide Linked;
    hide ColorsFit;
    hide NobodyReadsThrough;
    FreeUpValLinked(s.m.h, s.l, t, j);
    assert s.mainthread in Roots(s) && s.running in Roots(s);
    FreedFits(s.m.h, s.m.c, t, j);
  }

  lemma FreedPoints(h: Heap, t: Id, j: nat)
    requires t in h && h[t].Thread? && j < |h[t].openupval| && NobodyReadsThrough(Unlinked(h, t, j), h[t].openupval[j])
    ensures var u := h[t].openupval[j]; forall y, r :: y != u ==> (Points(Unlinked(h, t, j) - {u}, y, r) <==> Points(h, y, r))
  {
    FreePoints(Unlinked(h, t, j), h[t].openupval[j]);
    hide Points;
  }

  lemma FreedShades(s: State, t: Id, j: nat)
    requires Basic(s) && t in s.m.h && s.m.h[t].Thread? && j < |s.m.h[t].openupval|
    requires !Live(s.Sw(), s.m.h[t].openupval[j])
    ensures ShadesKept(s, UpValFreed(s, t, j))
  {
    hide ColorsFit;
    OpenInHeap(s, t, j);
    hide Linked;
  }

  lemma OpenInHeap(s: State, t: Id, j: nat)
    requires Basic(s) && t in s.m.h && s.m.h[t].Thread? && j < |s.m.h[t].openupval|
    ensures s.m.h[t].openupval[j] in s.m.h
  {
    hide ColorsFit;
    hide StringsLinked;
  }

  lemma FreedFits(h: Heap, c: Colors, t: Id, j: nat)
    requires ColorsFit(h, c) && t in h && h[t].Thread? && j < |h[t].openupval|
    ensures var u := h[t].openupval[j]; ColorsFit(Unlinked(h, t, j) - {u}, c - {u})
  {
    var u := h[t].openupval[j];
    var h1 := Unlinked(h, t, j) - {u};
    assert forall x :: x in h1 && x != t ==> h1[x] == h[x];
  }

  lemma UpValFreedInv(s: State, t: Id, j: nat, rs: set<Id>)
    requires Inv(s, rs) && t in s.m.h && s.m.h[t].Thread? && j < |s.m.h[t].openupval|
    requires !Live(s.Sw(), s.m.h[t].openupval[j])
    ensures Inv(UpValFreed(s, t, j), rs) && SweepRel(s, UpValFreed(s, t, j))
  {
    hide Points;
    hide Linked;
    hide Basic;
    hide MarkInv;
    var s1 := UpValFreed(s, t, j);
    UpValFreedRel(s, t, j);
    SweepKeepsSafe(s, s1);
    SweepRelFacts(s, s1);
    var u := s.m.h[t].openupval[j];
    OpenKnown(s, t, j);
    if s.phase != SweepString && s.phase != Sweep {
      AllLive(s, rs);
    }
    assert forall x :: x in s1.m.h && x != t ==> s1.m.h[x] == s.m.h[x];
    hide RemoveAt;
    if s.phase == Sweep {
      var done := (s.l.rootgc + s.l.udata)[..s.sweepgc];
      forall x | x in done && x in s1.m.c
        ensures s1.m.c[x] == White(s.cw) && ThreadSwept(s1.m.h, s1.m.c, s.cw, x)
      {
        assert s.m.c[x] == White(s.cw) && ThreadSwept(s.m.h, s.m.c, s.cw, x);
      }
    }
  }

  /** Something is dead only while a sweep is under way. */
  lemma AllLive(s: State, rs: set<Id>)
    requires Inv(s, rs) && s.phase != SweepString && s.phase != Sweep
    ensures forall u :: u in s.m.h ==> Live(s.Sw(), u)
  {
    hide Linked;
    hide Points;
    hide MarkInv;
    forall u | u in s.m.h
      ensures Live(s.Sw(), u)
    {
      assert u in s.l.tmudata ==> u in Roots(s);
    }
  }

  lemma OpenKnown(s: State, t: Id, j: nat)
    requires Basic(s) && t in s.m.h && s.m.h[t].Thread? && j < |s.m.h[t].openupval|
    ensures var u := s.m.h[t].openupval[j];
      u in s.m.h && u in s.m.c && IsOpen(s.m.h[u]) && u != t && u !in s.fixed && s.m.c[u] != Black
  {
    FreeUpValLinked(s.m.h, s.l, t, j);
  }

  lemma ClosedStateIs(s: State, t: Id)
    requires HasOpen(s, t)
    ensures t in s.m.h && s.m.h[t].Thread? && s.m.h[t].openupval != []
    ensures s.m.h[t].openupval[0] in s.m.h && IsOpen(s.m.h[s.m.h[t].openupval[0]])
    ensures ClosedState(s, t).m == s.m.(h := ClosedFirst(s.m.h, t))
    ensures ClosedState(s, t).phase == s.phase && ClosedState(s, t).cw == s.cw
  {
  }

  lemma CloseReady(s: State, t: Id, rs: set<Id>)
    requires Inv(s, rs) && HasOpen(s, t)
    ensures var u, h1 := s.m.h[t].openupval[0], ClosedFirst(s.m.h, t);
      && u in h1 && u in s.m.c && h1[u].UpVal? && h1[u].cell.Closed? && h1[u].cell.v == CellValue(s.m.h, s.m.h[u].cell)
      && s.m.c[u] != Black
      && (s.phase == Propagate ==> ClosedUnder(h1, rs) && rs <= s.m.c.Keys && (s.m.c[u] == Gray ==> u in rs))
  {
    hide Points;
    FirstOpen(s, t);
    ClosePoints(s.m.h, s.l, t);
    if s.phase == Propagate {
      CloseReadyMark(s.m, Stale(s), rs);
      ClosedFewerPoints(s.m.h, ClosedFirst(s.m.h, t), rs);
    }
  }

  lemma CloseReadyMark(m: MarkState, stale: set<Id>, rs: set<Id>)
    requires MarkInv(m, stale, rs)
    ensures ClosedUnder(m.h, rs) && rs <= m.h.Keys && m.h.Keys == m.c.Keys && forall x :: NonWhite(m.c, x) ==> x in rs
  {
  }

  lemma CloseDone(s: State, t: Id, rs: set<Id>, s1: State, added: seq<Id>)
    requires Inv(s, rs) && HasOpen(s, t) && Live(s.Sw(), s.m.h[t].openupval[0])
    requires s1 == ClosedState(s, t).(m := s.m.(h := ClosedFirst(s.m.h, t), c := s1.m.c, gray := added + s.m.gray))
    requires var u, c := s.m.h[t].openupval[0], s.m.c;
      && u in c
      && (s.phase != Propagate ==> added == [] && s1.m.c == (if c[u] == Gray then c[u := White(s.cw)] else c))
      && (s.phase == Propagate ==>
            && MarkEffect(ClosedFirst(s.m.h, t), rs, if c[u] == Gray then c[u := Black] else c, s1.m.c, added)
            && (NonWhite(s1.m.c, u) ==> ValueMarked(s1.m.c, CellValue(s.m.h, s.m.h[u].cell))))
    ensures Inv(s1, rs) && SweepRel(s, s1)
  {
    hide Points;
    hide MarkEffect;
    hide SweepRel;
    hide Inv;
    hide ClosedFirst;
    hide Live;
    if s.phase == Propagate {
      assert s1 == ClosedBlack(s, t).(m := ClosedBlack(s, t).m.(c := s1.m.c, gray := added + ClosedBlack(s, t).m.gray));
      ClosedBlackInv(s, t, rs, s1, added);
    } else {
      assert added + s.m.gray == s.m.gray;
      assert s1 == ClosedWhite(s, t);
      CloseNonEmpty(s, t, rs);
    }
  }

  lemma CloseNonEmpty(s: State, t: Id, rs: set<Id>)
    requires Inv(s, rs) && HasOpen(s, t) && s.phase != Propagate && Live(s.Sw(), s.m.h[t].openupval[0])
    ensures Inv(ClosedWhite(s, t), rs) && SweepRel(s, ClosedWhite(s, t))
  {
    hide Inv;
    hide SweepRel;
    hide Live;
    ClosedWhiteInv(s, t, rs);
  }

  /** How closing or freeing upvalues moves the sweep cursor: the objects behind it stay, what is
      closed is linked in front, and the work left for the sweep does not grow. */
  ghost predicate CursorKept(s0: State, s: State, t: Id) {
    && |s.l.rootgc| >= |s0.l.rootgc|
    && s.l.rootgc[|s.l.rootgc| - |s0.l.rootgc|..] == s0.l.rootgc
    && s.l.udata == s0.l.udata && s.l.strt == s0.l.strt && s.l.tmudata == s0.l.tmudata
    && s.sweepgc == (if s0.sweepgc > 0 then s0.sweepgc + |s.l.rootgc| - |s0.l.rootgc| else 0)
    && |s.l.rootgc| - s.sweepgc + |s.l.uvhead| <= |s0.l.rootgc| - s0.sweepgc + |s0.l.uvhead|
    && t in s0.m.h && t in s.m.h && s.m.h[t].Thread? && s0.m.h[t].Thread?
    && s.m.h[t].stack == s0.m.h[t].stack && s.m.h[t].gt == s0.m.h[t].gt
    && |s.m.h[t].openupval| <= |s0.m.h[t].openupval|
  }

  lemma CursorKeptTrans(s0: State, s1: State, s2: State, t: Id)
    requires CursorKept(s0, s1, t) && CursorKept(s1, s2, t)
    ensures CursorKept(s0, s2, t)
  {
    var a, b, c := s0.l.rootgc, s1.l.rootgc, s2.l.rootgc;
    assert c[|c| - |a|..] == c[|c| - |b|..][|b| - |a|..];
  }

  lemma CloseKeepsCursor(s: State, t: Id, s1: State, rs: set<Id>)
    requires Basic(s) && HasOpen(s, t)
    requires s1.m.h == ClosedFirst(s.m.h, t) && s1.l == ClosedState(s, t).l && s1.sweepgc == ClosedState(s, t).sweepgc
    ensures CursorKept(s, s1, t) && |s1.m.h[t].openupval| < |s.m.h[t].openupval|
  {
    FirstOpen(s, t);
    hide Points;
    hide Linked;
    var u := s.m.h[t].openupval[0];
    WithoutMembersOf(s, u);
    assert s1.l.rootgc[1..] == s.l.rootgc;
  }

  lemma WithoutMembersOf(s: State, u: Id)
    requires Basic(s) && u in s.l.uvhead
    ensures |Without(s.l.uvhead, u)| == |s.l.uvhead| - 1
  {
    WithoutMembers(s.l.uvhead, u);
  }

  lemma FreeKeepsCursor(s: State, t: Id, j: nat)
    requires Basic(s) && t in s.m.h && s.m.h[t].Thread? && j < |s.m.h[t].openupval|
    ensures CursorKept(s, UpValFreed(s, t, j), t)
    ensures UpValFreed(s, t, j).m.h[t].openupval == RemoveAt(s.m.h[t].openupval, j)
  {
    OpenKnown(s, t, j);
    WithoutShrinks(s.l.uvhead, s.m.h[t].openupval[j]);
  }

  lemma {:induction false} WithoutShrinks(list: seq<Id>, x: Id)
    ensures |Without(list, x)| <= |list|
  {
    if list != [] {
      WithoutShrinks(list[1..], x);
    }
  }

  lemma RemoveAtLength(list: seq<Id>, i: nat)
    requires i < |list|
    ensures |RemoveAt(list, i)| == |list| - 1
  {
  }

  lemma CursorKeptIs(s0: State, s: State, t: Id)
    requires CursorKept(s0, s, t)
    ensures t in s.m.h && s.m.h[t].Thread?
  {
  }

  lemma LiveIs(s: State, x: Id)
    requires x in s.m.h && x in s.m.c
    ensures Live(s.Sw(), x) <==> !Dead(s.m.c, s.cw, s.fixed, x)
  {
  }

  /** What luaF_close keeps, in whatever phase the collector is. */
  ghost predicate Closes(s0: State, s: State, t: Id, rs: set<Id>) {
    Inv(s, rs) && SweepRel(s0, s) && CursorKept(s0, s, t)
  }

  lemma ClosesNow(s0: State, s: State, t: Id, rs: set<Id>)
    requires Inv(s, rs) && SweepRel(s0, s) && CursorKept(s0, s, t)
    ensures Closes(s0, s, t, rs)
  {
  }

  lemma ClosesRefl(s: State, t: Id, rs: set<Id>)
    requires Inv(s, rs) && t in s.m.h && s.m.h[t].Thread?
    ensures Closes(s, s, t, rs)
  {
    hide Inv;
    InvBasic(s, rs);
    SweepRelRefl(s);
  }

  lemma ClosesFirst(s0: State, s: State, t: Id, rs: set<Id>)
    requires Closes(s0, s, t, rs)
    ensures Inv(s, rs)
    ensures t in s.m.h && s.m.h[t].Thread?
    ensures s.m.h[t].openupval != [] ==> HasOpen(s, t)
    ensures s.m.h[t].openupval != [] ==> var u := s.m.h[t].openupval[0]; u in s.m.h && s.m.h[u].UpVal? && s.m.h[u].cell.Open?
  {
    hide Inv;
    hide SweepRel;
    InvBasic(s, rs);
    if s.m.h[t].openupval != [] {
      FirstOpen(s, t);
    }
  }

  lemma ClosesTrans(s0: State, s1: State, s2: State, t: Id, rs: set<Id>)
    requires Closes(s0, s1, t, rs) && Closes(s1, s2, t, rs)
    ensures Closes(s0, s2, t, rs)
  {
    hide Inv;
    hide SweepRel;
    hide CursorKept;
    SweepRelTrans(s0, s1, s2);
    CursorKeptTrans(s0, s1, s2, t);
  }

  function Whitened(s: State, x: Id): State {
    s.(m := s.m.(c := s.m.c[x := White(s.cw)]))
  }

  /** Userdata that wait for their finalizers are on no list that is swept. */
  lemma WaitingApart(s: State, rs: set<Id>)
    requires Inv(s, rs)
    ensures forall u :: u in s.l.tmudata ==> u !in AllObjects(s.l) && forall b :: 0 <= b < |s.l.strt| ==> u !in s.l.strt[b]
    ensures forall t, u :: u in s.l.tmudata && t in s.m.h && s.m.h[t].Thread? ==> u !in s.m.h[t].openupval
  {
    hide Points;
    hide Live;
    hide Bucket;
  }

  lemma WhitenInv(s: State, x: Id, rs: set<Id>)
    requires Inv(s, rs) && (s.phase == SweepString || s.phase == Sweep) && Live(s.Sw(), x)
    ensures Inv(Whitened(s, x), rs) && Kept(s, Whitened(s, x)) && (x !in s.l.tmudata ==> SweepRel(s, Whitened(s, x)))
  {
    hide Points;
    hide Linked;
    hide Basic;
    InvBasic(s, rs);
    Whiten(s, x);
    KeptSafe(s, Whitened(s, x));
    if s.phase == Sweep {
      var s1 := Whitened(s, x);
      var done := (s.l.rootgc + s.l.udata)[..s.sweepgc];
      forall y | y in done && y in s1.m.c
        ensures s1.m.c[y] == White(s.cw) && ThreadSwept(s1.m.h, s1.m.c, s.cw, y)
      {
        assert y in s.m.c ==> ThreadSwept(s.m.h, s.m.c, s.cw, y);
      }
    }
  }

  /** The first `p` open upvalues of `t` have been swept. */
  ghost predicate UpvalsSwept(s0: State, s: State, t: Id, p: nat, rs: set<Id>) {
    && Closes(s0, s, t, rs)
    && t in s.m.h && s.m.h[t].Thread? && p <= |s.m.h[t].openupval|
    && s.l.rootgc == s0.l.rootgc && s.sweepgc == s0.sweepgc
    && forall k :: 0 <= k < p ==> s.m.h[t].openupval[k] in s.m.c && s.m.c[s.m.h[t].openupval[k]] == White(s.cw)
  }

  lemma UpvalsSweptFacts(s0: State, s: State, t: Id, p: nat, rs: set<Id>)
    requires UpvalsSwept(s0, s, t, p, rs)
    ensures Inv(s, rs) && t in s.m.h && s.m.h[t].Thread? && p <= |s.m.h[t].openupval|
    ensures p < |s.m.h[t].openupval| ==> s.m.h[t].openupval[p] in s.m.h && s.m.h[t].openupval[p] in s.m.c
    ensures s.cw == s0.cw && s.fixed == s0.fixed
  {
    hide Inv;
    InvBasic(s, rs);
    if p < |s.m.h[t].openupval| {
      OpenKnown(s, t, p);
    }
  }

  lemma UpvalFreedSwept(s0: State, s: State, t: Id, p: nat, rs: set<Id>)
    requires UpvalsSwept(s0, s, t, p, rs) && (s.phase == Sweep)
    requires p < |s.m.h[t].openupval| && !Live(s.Sw(), s.m.h[t].openupval[p])
    ensures UpvalsSwept(s0, UpValFreed(s, t, p), t, p, rs)
    ensures |UpValFreed(s, t, p).m.h[t].openupval| < |s.m.h[t].openupval|
  {
    hide Inv;
    hide SweepRel;
    hide CursorKept;
    hide Without;
    hide Live;
    var s1 := UpValFreed(s, t, p);
    InvBasic(s, rs);
    UpValFreedInv(s, t, p, rs);
    FreeKeepsCursor(s, t, p);
    CursorKeptTrans(s0, s, s1, t);
    SweepRelTrans(s0, s, s1);
    OpenKnown(s, t, p);
    var os, u := s.m.h[t].openupval, s.m.h[t].openupval[p];
    assert s1.m.h[t].openupval == RemoveAt(os, p);
    forall k | 0 <= k < p
      ensures RemoveAt(os, p)[k] in s1.m.c && s1.m.c[RemoveAt(os, p)[k]] == White(s.cw)
    {
      assert RemoveAt(os, p)[k] == os[k];
      DeadIsNotWhite(s, u);
    }
  }

  lemma DeadIsNotWhite(s: State, u: Id)
    requires u in s.m.h && u in s.m.c && !Live(s.Sw(), u)
    ensures s.m.c[u] != White(s.cw)
  {
  }

  lemma UpvalWhitenedSwept(s0: State, s: State, t: Id, p: nat, rs: set<Id>)
    requires UpvalsSwept(s0, s, t, p, rs) && s.phase == Sweep
    requires p < |s.m.h[t].openupval| && Live(s.Sw(), s.m.h[t].openupval[p])
    ensures UpvalsSwept(s0, Whitened(s, s.m.h[t].openupval[p]), t, p + 1, rs)
  {
    hide Inv;
    hide SweepRel;
    hide CursorKept;
    hide Live;
    hide Points;
    hide Linked;
    var s1 := Whitened(s, s.m.h[t].openupval[p]);
    WaitingApart(s, rs);
    WhitenInv(s, s.m.h[t].openupval[p], rs);
    SweepRelTrans(s0, s, s1);
    CursorRecolored(s0, s, s1, t);
  }

  lemma CursorRecolored(s0: State, s: State, s1: State, t: Id)
    requires CursorKept(s0, s, t) && s1 == s.(m := s1.m) && s1.m.h == s.m.h
    ensures CursorKept(s0, s1, t)
  {
  }

  lemma UpvalsNoneSwept(s: State, t: Id, rs: set<Id>)
    requires Inv(s, rs) && t in s.m.h && s.m.h[t].Thread?
    ensures UpvalsSwept(s, s, t, 0, rs)
  {
    hide Inv;
    ClosesRefl(s, t, rs);
  }

  lemma WhitenedIs(s: State, x: Id)
    ensures Whitened(s, x) == s.(m := s.m.(c := s.m.c[x := White(s.cw)]))
  {
  }

  function AllObjects(l: Links): seq<Id> {
    l.rootgc + l.udata
  }

  /** What is left to sweep, counting the upvalues that may still be closed. */
  function SweepLeft(s: State): int {
    |s.l.rootgc| + |s.l.udata| - s.sweepgc + |s.l.uvhead|
  }

  /** The swept object is kept: it gets the current white and the cursor moves on. */
  lemma KeepInv(s: State, x: Id, rs: set<Id>)
    requires Inv(s, rs) && s.phase == Sweep && s.sweepgc < |AllObjects(s.l)| && x == AllObjects(s.l)[s.sweepgc]
    requires Live(s.Sw(), x) && ThreadSwept(s.m.h, s.m.c, s.cw, x)
    ensures var s1 := Whitened(s, x).(sweepgc := s.sweepgc + 1);
      Inv(s1, rs) && SweepRel(s, s1) && SweepLeft(s1) < SweepLeft(s)
  {
    hide Points;
    hide Linked;
    hide Basic;
    hide Live;
    WaitingApart(s, rs);
    WhitenInv(s, x, rs);
    var s1 := Whitened(s, x).(sweepgc := s.sweepgc + 1);
    CursorMoved(s, Whitened(s, x), s1);
    SweepKeepsSafe(s, s1);
    var all := s.l.rootgc + s.l.udata;
    assert all[..s1.sweepgc] == all[..s.sweepgc] + [x];
    forall y | y in all[..s1.sweepgc] && y in s1.m.c
      ensures s1.m.c[y] == White(s.cw) && ThreadSwept(s1.m.h, s1.m.c, s.cw, y)
    {
      if y != x {
        assert y in all[..s.sweepgc] && y in s.m.c;
        assert ThreadSwept(s.m.h, s.m.c, s.cw, y);
      }
    }
  }

  lemma CursorMoved(s0: State, s: State, s1: State)
    requires SweepRel(s0, s) && s1 == s.(sweepgc := s1.sweepgc)
    ensures SweepRel(s0, s1)
  {
    hide Points;
    hide Linked;
  }

  /** The links after the object at position `i` of all objects was taken off. */
  function LinksFreed(l: Links, i: nat): Links
    requires i < |AllObjects(l)|
  {
    if i < |l.rootgc| then l.(rootgc := RemoveAt(l.rootgc, i)) else l.(udata := RemoveAt(l.udata, i - |l.rootgc|))
  }

  function ObjectFreed(s: State, i: nat): State
    requires i < |AllObjects(s.l)|
  {
    var x := AllObjects(s.l)[i];
    s.(m := s.m.(h := s.m.h - {x}, c := s.m.c - {x}), l := LinksFreed(s.l, i))
  }

  lemma ObjectFreedRel(s: State, i: nat)
    requires Basic(s) && RootsLive(s) && i < |AllObjects(s.l)|
    requires var x := AllObjects(s.l)[i]; x in s.m.h && !Live(s.Sw(), x) && (s.m.h[x].Thread? ==> s.m.h[x].openupval == [])
    ensures SweepRel(s, ObjectFreed(s, i))
  {
    hide Points;
    hide Linked;
    hide ColorsFit;
    hide RemoveAt;
    hide NobodyReadsThrough;
    hide SweepRel;
    var x := AllObjects(s.l)[i];
    if i < |s.l.rootgc| {
      FreeRootLinked(s.m.h, s.l, i);
    } else {
      FreeUdataLinked(s.m.h, s.l, i - |s.l.rootgc|);
      RemoveAtOrder(s.l.udata, i - |s.l.rootgc|);
    }
    FreeRel(s, x, LinksFreed(s.l, i), s.sweepgc);
  }

  lemma ObjectFreedInv(s: State, i: nat, rs: set<Id>)
    requires Inv(s, rs) && s.phase == Sweep && s.sweepgc <= i < |AllObjects(s.l)|
    requires var x := AllObjects(s.l)[i]; x in s.m.h && !Live(s.Sw(), x) && (s.m.h[x].Thread? ==> s.m.h[x].openupval == [])
    ensures Inv(ObjectFreed(s, i), rs) && SweepRel(s, ObjectFreed(s, i)) && SweepLeft(ObjectFreed(s, i)) < SweepLeft(s)
  {
    hide Points;
    hide Linked;
    hide Basic;
    hide Live;
    InvBasic(s, rs);
    ObjectFreedRel(s, i);
    var s1 := ObjectFreed(s, i);
    SweepKeepsSafe(s, s1);
    var all, all1 := AllObjects(s.l), AllObjects(s1.l);
    assert all1[..s.sweepgc] == all[..s.sweepgc] by {
      assert forall k :: 0 <= k < i ==> all1[k] == all[k];
    }
    forall y | y in all1[..s.sweepgc] && y in s1.m.c
      ensures s1.m.c[y] == White(s.cw) && ThreadSwept(s1.m.h, s1.m.c, s.cw, y)
    {
      assert y in all[..s.sweepgc] && ThreadSwept(s.m.h, s.m.c, s.cw, y);
    }
  }

  lemma ObjectKnown(s: State, i: nat, rs: set<Id>)
    requires Inv(s, rs) && i < |AllObjects(s.l)|
    ensures AllObjects(s.l)[i] in s.m.h && AllObjects(s.l)[i] in s.m.c
  {
    assert i < |s.l.rootgc| ==> AllObjects(s.l)[i] in s.l.rootgc;
    assert i >= |s.l.rootgc| ==> AllObjects(s.l)[i] in s.l.udata;
  }

  lemma AllObjectsIs(l: Links)
    ensures AllObjects(l) == l.rootgc + l.udata
  {
  }

  lemma ReadyToSweep(s0: State, s: State, x: Id, rs: set<Id>)
    requires Inv(s0, rs) && s0.phase == Sweep && s0.sweepgc < |AllObjects(s0.l)| && x == AllObjects(s0.l)[s0.sweepgc]
    requires x in s0.m.h
    requires if s0.m.h[x].Thread?
             then UpvalsSwept(s0, s, x, if x in s.m.h && s.m.h[x].Thread? then |s.m.h[x].openupval| else 0, rs)
             else s == s0
    ensures Inv(s, rs) && SweepRel(s0, s) && SweepLeft(s) <= SweepLeft(s0)
    ensures s.sweepgc < |AllObjects(s.l)| && x == AllObjects(s.l)[s.sweepgc] && x in s.m.h && x in s.m.c
    ensures ThreadSwept(s.m.h, s.m.c, s.cw, x)
    ensures Live(s.Sw(), x) <==> !Dead(s.m.c, s.cw, s.fixed, x)
  {
    hide Inv;
    hide SweepRel;
    InvBasic(s0, rs);
    SweepRelRefl(s0);
    if s0.m.h[x].Thread? {
      SweptCursor(s0, s, x, rs);
    }
    InvBasic(s, rs);
    LiveIs(s, x);
  }

  lemma SweptCursor(s0: State, s: State, x: Id, rs: set<Id>)
    requires UpvalsSwept(s0, s, x, if x in s.m.h && s.m.h[x].Thread? then |s.m.h[x].openupval| else 0, rs)
    ensures Inv(s, rs) && SweepRel(s0, s) && SweepLeft(s) <= SweepLeft(s0) && s.l.rootgc == s0.l.rootgc && s.l.udata == s0.l.udata
    ensures s.sweepgc == s0.sweepgc && x in s.m.h
  {
    hide Inv;
    hide SweepRel;
  }

  lemma NotClosed(s: State, rs: set<Id>)
    requires Inv(s, rs)
    ensures SweepRel(s, s)
  {
    hide Inv;
    InvBasic(s, rs);
    SweepRelRefl(s);
  }

  lemma ClosedForFree(s0: State, s: State, x: Id, fromEnd: int, rs: set<Id>)
    requires Inv(s0, rs) && s0.phase == Sweep && s0.sweepgc < |AllObjects(s0.l)| && x == AllObjects(s0.l)[s0.sweepgc]
    requires x in s0.m.h && !Live(s0.Sw(), x) && fromEnd == |s0.l.rootgc| - s0.sweepgc
    requires if s0.m.h[x].Thread?
             then Closes(s0, s, x, rs) && x in s.m.h && s.m.h[x].Thread?
               && (s.m.h[x].openupval == [] || var u := s.m.h[x].openupval[0]; u in s.m.h && s.m.h[u].UpVal? && s.m.h[u].cell.Open? && s.m.h[u].cell.slot < 0)
             else s == s0
    ensures var i := |s.l.rootgc| - fromEnd;
      && 0 <= i < |AllObjects(s.l)|
      && Inv(ObjectFreed(s, i), rs) && SweepRel(s0, ObjectFreed(s, i)) && SweepLeft(ObjectFreed(s, i)) < SweepLeft(s0)
  {
    hide Inv;
    hide SweepRel;
    hide Live;
    hide ObjectFreed;
    hide RemoveAt;
    InvBasic(s0, rs);
    SweepRelRefl(s0);
    var i := |s.l.rootgc| - fromEnd;
    assert AllObjects(s.l)[i] == x;
    InvBasic(s, rs);
    SweepRelFacts(s0, s);
    ObjectFreedInv(s, i, rs);
    SweepRelTrans(s0, s, ObjectFreed(s, i));
  }

  /** The first `p` strings of bucket `b` have been swept. */
  ghost predicate BucketSwept(s0: State, s: State, b: nat, p: nat, rs: set<Id>) {
    && Inv(s, rs) && SweepRel(s0, s) && s.phase == SweepString && s.sweepgc == 0
    && b < |s.l.strt| && p <= |s.l.strt[b]|
    && forall k :: 0 <= k < p ==> s.l.strt[b][k] in s.m.c && s.m.c[s.l.strt[b][k]] == White(s.cw)
  }

  function StringFreed(s: State, b: nat, i: nat): State
    requires b < |s.l.strt| && i < |s.l.strt[b]|
  {
    var x := s.l.strt[b][i];
    s.(m := s.m.(h := s.m.h - {x}, c := s.m.c - {x}), l := s.l.(strt := s.l.strt[b := RemoveAt(s.l.strt[b], i)]))
  }

  lemma StringFreedInv(s: State, b: nat, i: nat, rs: set<Id>)
    requires Inv(s, rs) && s.phase == SweepString && b < |s.l.strt| && i < |s.l.strt[b]|
    requires !Live(s.Sw(), s.l.strt[b][i])
    ensures Inv(StringFreed(s, b, i), rs) && SweepRel(s, StringFreed(s, b, i))
  {
    hide Points;
    hide Linked;
    hide Basic;
    hide Live;
    hide RemoveAt;
    hide Bucket;
    InvBasic(s, rs);
    BasicLinked(s);
    var x, s1 := s.l.strt[b][i], StringFreed(s, b, i);
    FreeStringLinked(s.m.h, s.l, b, i);
    FreeRel(s, x, s1.l, s.sweepgc);
    SweepKeepsSafe(s, s1);
  }

  lemma BasicLinked(s: State)
    requires Basic(s)
    ensures Linked(s.m.h, s.l) && StringsLinked(s.m.h, s.l.strt) && s.m.h.Keys == s.m.c.Keys
  {
  }

  lemma BucketSweptFacts(s0: State, s: State, b: nat, p: nat, rs: set<Id>)
    requires BucketSwept(s0, s, b, p, rs)
    ensures Inv(s, rs) && b < |s.l.strt| && p <= |s.l.strt[b]|
    ensures p < |s.l.strt[b]| ==> s.l.strt[b][p] in s.m.h && s.l.strt[b][p] in s.m.c
    ensures s.phase == SweepString && s.cw == s0.cw && s.fixed == s0.fixed
  {
    hide Inv;
    hide Linked;
    InvBasic(s, rs);
    BasicLinked(s);
    if p < |s.l.strt[b]| {
      FreeStringLinked(s.m.h, s.l, b, p);
    }
  }

  lemma StringFreedSwept(s0: State, s: State, b: nat, p: nat, rs: set<Id>)
    requires BucketSwept(s0, s, b, p, rs) && p < |s.l.strt[b]| && !Live(s.Sw(), s.l.strt[b][p])
    ensures BucketSwept(s0, StringFreed(s, b, p), b, p, rs)
    ensures |StringFreed(s, b, p).l.strt[b]| == |s.l.strt[b]| - 1
  {
    hide Inv;
    hide SweepRel;
    hide Live;
    var s1, x := StringFreed(s, b, p), s.l.strt[b][p];
    BucketSweptFacts(s0, s, b, p, rs);
    StringFreedInv(s, b, p, rs);
    SweepRelTrans(s0, s, s1);
    DeadIsNotWhite(s, x);
    forall k | 0 <= k < p
      ensures s1.l.strt[b][k] in s1.m.c && s1.m.c[s1.l.strt[b][k]] == White(s.cw)
    {
      assert s1.l.strt[b][k] == s.l.strt[b][k];
    }
  }

  lemma StringWhitenedSwept(s0: State, s: State, b: nat, p: nat, rs: set<Id>)
    requires BucketSwept(s0, s, b, p, rs) && p < |s.l.strt[b]| && Live(s.Sw(), s.l.strt[b][p])
    ensures BucketSwept(s0, Whitened(s, s.l.strt[b][p]), b, p + 1, rs)
  {
    hide Inv;
    hide SweepRel;
    hide Live;
    WaitingApart(s, rs);
    WhitenInv(s, s.l.strt[b][p], rs);
    SweepRelTrans(s0, s, Whitened(s, s.l.strt[b][p]));
  }

  lemma BucketStart(s: State, rs: set<Id>)
    requires Inv(s, rs) && s.phase == SweepString
    ensures s.sweepstrgc < |s.l.strt| && s.sweepgc == 0
    ensures BucketSwept(s, s, s.sweepstrgc, 0, rs)
  {
    hide Points;
    hide Linked;
    SweepRelRefl(s);
  }

  /** What every step of a sweep keeps, whatever it does to the cursors. */
  ghost predicate StepRel(s0: State, s: State) {
    && s.cw == s0.cw && s.fixed == s0.fixed && s.l.tmudata == s0.l.tmudata && UdataKept(s0.l.udata, s.l.udata)
    && s.mainthread == s0.mainthread && s.running == s0.running && s.registry == s0.registry && s.mt == s0.mt
    && s.m.h.Keys <= s0.m.h.Keys
    && (forall x :: Live(s.Sw(), x) <==> Live(s0.Sw(), x))
    && (forall x, r :: Live(s0.Sw(), x) ==> (Points(s.m.h, x, r) <==> Points(s0.m.h, x, r)))
    && ContentsKept(s0.m.h, s.m.h) && ShadesKept(s0, s)
  }

  lemma BucketDone(s0: State, s: State, s1: State, rs: set<Id>)
    requires Inv(s0, rs) && s0.phase == SweepString && s0.sweepstrgc < |s.l.strt|
    requires BucketSwept(s0, s, s0.sweepstrgc, |s.l.strt[s0.sweepstrgc]|, rs)
    requires s1 == s.(sweepstrgc := s.sweepstrgc + 1, phase := if s.sweepstrgc + 1 >= |s.l.strt| then Sweep else SweepString)
    ensures Inv(s1, rs) && StepRel(s0, s1)
  {
    hide Points;
    hide Linked;
    hide Basic;
    hide Live;
    InvBasic(s, rs);
    BasicLinked(s);
    SweepRelFacts(s0, s);
    hide Bucket;
    var n := s.sweepstrgc;
    forall x | x in s.m.h && x in s.m.c && s.m.h[x].String? && Bucket(s.m.h[x].hash, |s.l.strt|) < n + 1
      ensures s.m.c[x] == White(s.cw)
    {
      if Bucket(s.m.h[x].hash, |s.l.strt|) == n {
        assert x in s.l.strt[n];
        var k :| 0 <= k < |s.l.strt[n]| && s.l.strt[n][k] == x;
      }
    }
    BasicPhase(s, s1);
    assert s1.phase == Sweep ==> (s.l.rootgc + s.l.udata)[..0] == [];
    RootsPhase(s, s1);
  }

  lemma BasicPhase(s: State, s1: State)
    requires Basic(s) && s1 == s.(phase := s1.phase, sweepstrgc := s1.sweepstrgc, sweepgc := s1.sweepgc)
    ensures Basic(s1) && s1.Sw() == s.Sw()
  {
    hide Linked;
    hide ColorsFit;
  }

  lemma RootsPhase(s: State, s1: State)
    requires RootsLive(s) && s1 == s.(phase := s1.phase, sweepstrgc := s1.sweepstrgc, sweepgc := s1.sweepgc)
    ensures RootsLive(s1)
  {
    hide Live;
    assert Roots(s1) == Roots(s);
  }

  lemma SweepEnds(s0: State, s: State, rs: set<Id>)
    requires Inv(s, rs) && SweepRel(s0, s) && s.phase == Sweep && s.sweepgc >= |s.l.rootgc| + |s.l.udata|
    ensures Inv(s.(phase := Finalize), rs) && StepRel(s0, s.(phase := Finalize))
  {
    hide Points;
    hide Live;
    hide Linked;
    hide SweepRel;
    hide ColorsFit;
    var s1 := s.(phase := Finalize);
    InvBasic(s, rs);
    BasicPhase(s, s1);
    RootsPhase(s, s1);
    SweepEndsResting(s);
    SweepRelStep(s0, s);
  }

  lemma SweepEndsResting(s: State)
    requires Basic(s) && SweepingObjects(s) && s.sweepgc >= |s.l.rootgc| + |s.l.udata|
    ensures Resting(s)
  {
    var all := s.l.rootgc + s.l.udata;
    assert all[..s.sweepgc] == all;
    forall x | x in s.m.h && x in s.m.c && x !in s.l.tmudata
      ensures s.m.c[x] == White(s.cw)
    {
      if s.m.h[x].String? {
      } else if IsOpen(s.m.h[x]) {
        var t := s.m.h[x].cell.th;
        assert t in all && t in s.m.c;
        assert ThreadSwept(s.m.h, s.m.c, s.cw, t);
      } else {
        assert x in all;
      }
    }
  }

  lemma SweepRelStep(s0: State, s: State)
    requires SweepRel(s0, s)
    ensures StepRel(s0, s)
  {
    hide Points;
    hide Live;
    hide Linked;
  }

  /** The start of a cycle, when everything is white. */
  lemma MarkStart(s: State, rs: set<Id>)
    requires Inv(s, rs) && (s.phase == Pause || s.phase == Finalize)
    requires ClosedUnder(s.m.h, rs) && (forall r :: r in Roots(s) ==> r in rs)
    ensures MarkInv(s.m.(gray := [], grayagain := [], weak := []), IdSet(s.l.tmudata) + IdSet(s.l.uvhead), rs)
    ensures NoOtherWhite(s.m.c, s.cw)
  {
    hide Points;
    hide Linked;
    AllLive(s, rs);
    var m := s.m.(gray := [], grayagain := [], weak := []);
    InvLinked(s, rs);
    InvBasic(s, rs);
    assert forall x :: x in m.h && x in s.l.tmudata ==> x in Roots(s);
    assert forall x :: x in m.h && !m.c[x].White? ==> x in s.l.tmudata;
    assert Lists(m) && Shades(m);
  }

  /** After the roots were marked. */
  ghost predicate Started(s0: State, s: State, rs: set<Id>) {
    && s == s0.(m := s.m) && s.m.h == s0.m.h && s.m.grayagain == [] && s.m.weak == []
    && MarkInv(s.m, IdSet(s0.l.tmudata) + IdSet(s0.l.uvhead), rs) && Grows(s0.m.c, s.m.c)
    && NonWhite(s.m.c, s.mainthread) && ValueMarked(s.m.c, s.registry)
  }

  lemma StartedIs(s0: State, s: State, rs: set<Id>)
    requires s == s0.(m := s.m) && s.m.h == s0.m.h && s.m.grayagain == [] && s.m.weak == []
    requires MarkInv(s.m, IdSet(s0.l.tmudata) + IdSet(s0.l.uvhead), rs) && Grows(s0.m.c, s.m.c)
    requires NonWhite(s.m.c, s.mainthread) && ValueMarked(s.m.c, s.registry)
    ensures Started(s0, s, rs)
  {
  }

  lemma StartedLists(s0: State, s: State, rs: set<Id>)
    requires Started(s0, s, rs)
    ensures s.m.grayagain == [] && s.m.weak == []
  {
  }

  lemma MarkStarted(s0: State, s1: State, rs: set<Id>)
    requires Inv(s0, rs) && (s0.phase == Pause || s0.phase == Finalize)
    requires ClosedUnder(s0.m.h, rs) && (forall r :: r in Roots(s0) ==> r in rs)
    requires Started(s0, s1, rs)
    ensures Inv(s1.(phase := Propagate), rs)
  {
    hide Points;
    hide Linked;
    hide MarkInv;
    var s := s1.(phase := Propagate);
    AllLive(s0, rs);
    MarkStart(s0, rs);
    MarkInvFits(s.m, IdSet(s0.l.tmudata) + IdSet(s0.l.uvhead), rs);
    GrowsKeeps(s0.m.c, s.m.c, s.cw);
    assert Stale(s) == IdSet(s0.l.tmudata) + IdSet(s0.l.uvhead);
    assert Roots(s) == Roots(s0);
    assert forall x :: Live(s.Sw(), x) <==> x in s.m.h;
    assert forall x :: Live(s0.Sw(), x) <==> x in s0.m.h;
  }

  lemma PropagateKept(s0: State, s: State, rs: set<Id>)
    requires Inv(s0, rs) && s0.phase == Propagate
    requires s == s0.(m := s.m) && s.m.h == s0.m.h
    requires MarkInv(s.m, Stale(s0), rs) && Grows(s0.m.c, s.m.c)
    requires forall x :: x in s0.m.grayagain ==> x in s.m.grayagain
    requires forall x :: x in s0.m.weak ==> x in s.m.weak
    ensures Inv(s, rs)
  {
    hide Points;
    hide Linked;
    hide MarkInv;
    AllLive(s0, rs);
    MarkInvFits(s.m, Stale(s0), rs);
    GrowsKeeps(s0.m.c, s.m.c, s.cw);
    assert Stale(s0) <= Stale(s);
    StaleMono(s.m, Stale(s0), Stale(s), rs);
    assert Roots(s) == Roots(s0);
    assert forall x :: Live(s.Sw(), x) <==> x in s.m.h;
    assert forall x :: Live(s0.Sw(), x) <==> x in s0.m.h;
  }

  lemma PropagateInv(s: State, rs: set<Id>)
    requires Inv(s, rs) && s.phase == Propagate
    ensures MarkInv(s.m, Stale(s), rs)
  {
  }

  lemma BucketCount(s0: State, s: State, b: nat, p: nat, rs: set<Id>)
    requires BucketSwept(s0, s, b, p, rs)
    ensures |s.l.strt| == |s0.l.strt| && s.sweepgc == 0 && s.sweepstrgc == s0.sweepstrgc
  {
    hide Inv;
    SweepRelFacts(s0, s);
  }

  ghost predicate RootsInside(h: Heap, mainthread: Id, registry: Value, mt: seq<Value>, rs: set<Id>) {
    && mainthread in rs && mainthread in h && h[mainthread].Thread?
    && (h[mainthread].gt.Ref? ==> h[mainthread].gt.id in rs)
    && (registry.Ref? ==> registry.id in rs)
    && (forall r :: Ref(r) in mt ==> r in rs)
  }

  lemma RootsInsideIs(h: Heap, mainthread: Id, registry: Value, mt: seq<Value>, rs: set<Id>)
    requires RootsInside(h, mainthread, registry, mt, rs)
    ensures mainthread in rs && mainthread in h && h[mainthread].Thread?
    ensures h[mainthread].gt.Ref? ==> h[mainthread].gt.id in rs
    ensures registry.Ref? ==> registry.id in rs
    ensures forall r :: Ref(r) in mt ==> r in rs
  {
  }

  lemma RootsIn(s: State, rs: set<Id>)
    requires Inv(s, rs) && ClosedUnder(s.m.h, rs) && (forall r :: r in Roots(s) ==> r in rs)
    ensures RootsInside(s.m.h, s.mainthread, s.registry, s.mt, rs)
  {
    hide MarkInv;
    InvBasics(s, rs);
    assert s.mainthread in Roots(s);
    RefsInside(s.m.h, rs, s.mainthread);
    if s.registry.Ref? {
      assert s.registry in [s.registry];
      assert s.registry.id in ValueIds([s.registry]);
      assert s.registry.id in Roots(s);
    }
    forall r | Ref(r) in s.mt
      ensures r in rs
    {
      assert r in ValueIds(s.mt);
      assert r in Roots(s);
    }
  }

  lemma MarksKept(c0: Colors, c1: Colors, c2: Colors, c3: Colors, c4: Colors, x: Id, v: Value)
    requires Grows(c0, c1) && Grows(c1, c2) && Grows(c2, c3) && Grows(c3, c4)
    requires ValueMarked(c1, Ref(x)) && ValueMarked(c3, v)
    ensures Grows(c0, c4) && NonWhite(c4, x) && ValueMarked(c4, v)
  {
  }
}
