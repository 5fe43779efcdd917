/** When no black object refers to a white one, and when no weak table is black. */
module TriColour {
  import opened LuaObjects
  import opened Marking
  import opened Places
  import opened States
  import opened Sweeps
  import opened Writes

  /** During propagation no black object refers to a white one. */
  ghost predicate BlackToMarked(s: State) {
    s.phase == Propagate ==> forall x :: x in s.m.c && s.m.c[x] == Black ==> Settled(s.m.h, s.m.c, x)
  }

  /** No userdata waits for its finalizer from a previous cycle. */
  ghost predicate Quiet(s: State) {
    s.phase == Pause || s.phase == Propagate ==> s.l.tmudata == []
  }

  /** During propagation no weak table is black. */
  ghost predicate NoBlackWeak(s: State) {
    s.phase == Propagate ==> WeakNotBlack(s.m.h, s.m.c)
  }

  /** No table becomes black, and none that is black changes its mode. */
  ghost predicate TablesKept(s0: State, s: State) {
    forall x :: x in s.m.h && s.m.h[x].Table? && x in s.m.c && s.m.c[x] == Black ==>
      x in s0.m.h && x in s0.m.c && s0.m.c[x] == Black && s0.m.h[x].Table? && s0.m.h[x].mode == s.m.h[x].mode
  }

  lemma TablesKeptTrans(s0: State, s1: State, s2: State)
    requires TablesKept(s0, s1) && TablesKept(s1, s2)
    ensures TablesKept(s0, s2)
  {
  }

  lemma TablesKeptSame(s0: State, s: State)
    requires s.m.h == s0.m.h && s.m.c == s0.m.c
    ensures TablesKept(s0, s)
  {
  }

  /** An object other than a black table appears or is replaced. */
  lemma TablesKeptOne(s0: State, s: State, x: Id)
    requires forall y :: y in s.m.h && y != x ==> y in s0.m.h && s.m.h[y] == s0.m.h[y]
    requires forall y :: y in s.m.c && y != x ==> y in s0.m.c && s.m.c[y] == s0.m.c[y]
    requires x in s.m.h && s.m.h[x].Table? && x in s.m.c ==> s.m.c[x] != Black
    ensures TablesKept(s0, s)
  {
  }

  /** A new object is white. */
  lemma TablesKeptNew(s0: State, s: State, id: Id, ob: Object)
    requires s.m.h == s0.m.h[id := ob] && s.m.c == s0.m.c[id := White(s0.cw)]
    ensures TablesKept(s0, s)
  {
  }

  lemma TablesKeptUpval(s: State, id: Id, t: Id, slot: nat, i: nat)
    requires t in s.m.h && s.m.h[t].Thread? && i <= |s.m.h[t].openupval|
    ensures TablesKept(s, LinkedOpen(s, id, t, slot, i))
  {
  }

  lemma TablesKeptStack(s0: State, s: State, t: Id, stack: seq<Value>)
    requires t in s0.m.h && s0.m.h[t].Thread? && s.m.h == s0.m.h[t := s0.m.h[t].(stack := stack)] && s.m.c == s0.m.c
    ensures TablesKept(s0, s)
  {
  }

  /** A write to an object that is no table, with more marking. */
  lemma TablesKeptMarked(s0: State, x: Id, ob: Object, rs: set<Id>, s: State, added: seq<Id>)
    requires !ob.Table? && s.m.h == s0.m.h[x := ob] && x in s0.m.h && MarkStep(s.m.h, rs, s0.m.c, s.m.c, added)
    ensures TablesKept(s0, s)
  {
    hide Settled;
    assert forall y :: y in s0.m.c && s0.m.c[y].White? && !s.m.c[y].White? ==> Marked(s.m.h, s.m.c, added, y);
  }

  lemma TablesKeptSwept(s0: State, s: State)
    requires SweepRel(s0, s)
    ensures TablesKept(s0, s)
  {
    hide Points;
    hide Live;
    hide Basic;
    forall x | x in s.m.h && s.m.h[x].Table? && x in s.m.c && s.m.c[x] == Black
      ensures x in s0.m.h && x in s0.m.c && s0.m.c[x] == Black && s0.m.h[x] == s.m.h[x]
    {
      assert SameContents(s0.m.h, s.m.h, x);
    }
  }

  /** Writing to a table, and making it gray if it was black and the value was white. */
  ghost predicate TableWritten(s0: State, s: State, t: Id, ob: Object, v: Value) {
    && s.m.h == s0.m.h[t := ob] && t in s0.m.c && s.phase == s0.phase
    && s.m.c == if v.Ref? && v.id in s0.m.c && s0.m.c[v.id].White? && s0.m.c[t] == Black then s0.m.c[t := Gray] else s0.m.c
  }

  /** The write makes a black table weak, and there is no barrier. */
  ghost predicate WeakensBlackTable(s: State, t: Id, ob: Object, v: Value) {
    s.phase == Propagate && IsWeak(ob) && t in s.m.c && s.m.c[t] == Black
    && !(v.Ref? && v.id in s.m.c && s.m.c[v.id].White?)
  }

  lemma WrittenNoBlackWeak(s0: State, s: State, t: Id, ob: Object, v: Value)
    requires NoBlackWeak(s0) && TableWritten(s0, s, t, ob, v)
    ensures NoBlackWeak(s) <==> !WeakensBlackTable(s0, t, ob, v)
  {
    if WeakensBlackTable(s0, t, ob, v) {
      assert s.m.h[t] == ob && s.m.c[t] == Black;
    }
  }

  lemma QuietBlack(s: State)
    requires Inv(s, s.m.h.Keys) && Quiet(s)
    ensures BlackToMarked(s)
  {
    hide Inv;
    hide Settled;
    if s.phase == Propagate {
      forall x | x in s.m.c && s.m.c[x] == Black
        ensures Settled(s.m.h, s.m.c, x)
      {
        BlackSettled(s, x);
      }
    }
  }

  /** What markroot marks: the main thread, its globals, the registry, the metatables of the basic types. */
  ghost function RootValues(s: State): seq<Value> {
    [Ref(s.mainthread), if s.mainthread in s.m.h && s.m.h[s.mainthread].Thread? then s.m.h[s.mainthread].gt else Nil, s.registry] + s.mt
  }

  /** markroot marks `x`, as a root or at once with one. */
  ghost predicate RootMarked(s: State, x: Id) {
    exists v :: v in RootValues(s) && DirectValue(s.m.h, s.m.c, v, x)
  }

  /** Every black userdata that waits for its finalizer refers only to what is marked or about to be marked. */
  ghost predicate WaitingSettled(s: State) {
    forall u, r :: u in s.l.tmudata && u in s.m.c && s.m.c[u] == Black && Points(s.m.h, u, r) ==> NonWhite(s.m.c, r) || RootMarked(s, r)
  }

  ghost predicate AllMarked(c: Colors, vs: seq<Value>) {
    forall v :: v in vs ==> ValueMarked(c, v)
  }

  /** The state after markroot: what is marked is what was, and what the roots reach at once. */
  ghost predicate Begun(s0: State, s: State) {
    forall x :: NonWhite(s.m.c, x) <==> NonWhite(s0.m.c, x) || RootMarked(s0, x)
  }

  lemma BegunNow(s0: State, rs: set<Id>, added: seq<Id>, s: State)
    requires MarkEffect(s0.m.h, rs, s0.m.c, s.m.c, added) && OnlyFrom(s0.m.h, s0.m.c, s.m.c, RootValues(s0))
    requires AllMarked(s.m.c, RootValues(s0))
    ensures Begun(s0, s)
  {
    hide MarkEffect;
    hide Direct;
    MarkEffectFacts(s0.m, rs, s.m.c, added, s0.cw);
    forall x | RootMarked(s0, x)
      ensures NonWhite(s.m.c, x)
    {
      var v :| v in RootValues(s0) && DirectValue(s0.m.h, s0.m.c, v, x);
      DirectMarked(s0.m.h, rs, s0.m.c, s.m.c, added, v.id, x);
    }
  }

  /** When a mark phase begins, no black object refers to a white one exactly if that is so of the userdata
      that wait for their finalizers; and no table is black. */
  lemma BegunColours(s0: State, rs: set<Id>, added: seq<Id>, s: State)
    requires Inv(s0, rs) && (s0.phase == Pause || s0.phase == Finalize) && s.phase == Propagate
    requires s.m.h == s0.m.h && Begun(s0, s) && MarkEffect(s0.m.h, rs, s0.m.c, s.m.c, added)
    ensures BlackToMarked(s) <==> WaitingSettled(s0)
    ensures NoBlackWeak(s)
    ensures forall x :: x in s.m.h && s.m.h[x].Table? && x in s.m.c ==> s.m.c[x] != Black
  {
    hide Points;
    hide Linked;
    hide RootMarked;
    RestingBlack(s0, rs);
    hide Inv;
    assert forall x :: x in s.m.c && s.m.c[x] == Black && !(x in s0.m.c && s0.m.c[x] == Black) ==>
        x in s0.m.c && Marked(s0.m.h, s.m.c, added, x);
    forall x | x in s.m.c && s.m.c[x] == Black && !(x in s0.m.c && s0.m.c[x] == Black)
      ensures Settled(s.m.h, s.m.c, x) && !s.m.h[x].Table?
    {
      assert x in s0.m.h;
    }
    hide Marked;
    if WaitingSettled(s0) {
      assert BlackToMarked(s);
    }
    if BlackToMarked(s) {
      forall u, r | u in s0.l.tmudata && u in s0.m.c && s0.m.c[u] == Black && Points(s0.m.h, u, r)
        ensures NonWhite(s0.m.c, r) || RootMarked(s0, r)
      {
        assert s.m.c[u] == Black && Settled(s.m.h, s.m.c, u);
      }
    }
  }

  lemma RestingBlack(s: State, rs: set<Id>)
    requires Inv(s, rs) && (s.phase == Pause || s.phase == Finalize)
    ensures forall x :: x in s.m.c && s.m.c[x] == Black ==> x in s.l.tmudata && x in s.m.h && s.m.h[x].Userdata?
    ensures s.m.c.Keys == s.m.h.Keys
  {
    hide Points;
    hide StringsLinked;
    hide UpValsLinked;
  }

  lemma RootsDone(s: State, c0: Colors, c1: Colors, c2: Colors, c3: Colors, c4: Colors)
    requires s.mainthread in s.m.h && s.m.h[s.mainthread].Thread?
    requires Grows(c0, c1) && Grows(c1, c2) && Grows(c2, c3) && Grows(c3, c4)
    requires ValueMarked(c1, Ref(s.mainthread)) && OnlyDirect(s.m.h, c0, c1, Ref(s.mainthread))
    requires ValueMarked(c2, s.m.h[s.mainthread].gt) && OnlyDirect(s.m.h, c1, c2, s.m.h[s.mainthread].gt)
    requires ValueMarked(c3, s.registry) && OnlyDirect(s.m.h, c2, c3, s.registry)
    requires (forall r :: Ref(r) in s.mt ==> NonWhite(c4, r)) && OnlyFrom(s.m.h, c3, c4, s.mt)
    ensures OnlyFrom(s.m.h, c0, c4, RootValues(s)) && AllMarked(c4, RootValues(s))
  {
    hide OnlyFrom;
    hide OnlyDirect;
    var vs := RootValues(s);
    assert vs[0] == Ref(s.mainthread) && vs[1] == s.m.h[s.mainthread].gt && vs[2] == s.registry && vs[3..] == s.mt;
    assert forall v :: v in s.mt ==> v in vs;
    OnlyFromNone(s.m.h, c0, vs);
    OnlyFromMore(s.m.h, c0, c0, c1, vs, vs[0]);
    OnlyFromMore(s.m.h, c0, c1, c2, vs, vs[1]);
    OnlyFromMore(s.m.h, c0, c2, c3, vs, vs[2]);
    OnlyFromAll(s.m.h, c0, c3, c4, s.mt, vs);
  }

  lemma OnlyFromAll(h: Heap, c0: Colors, c1: Colors, c2: Colors, us: seq<Value>, vs: seq<Value>)
    requires Grows(c0, c1) && Grows(c1, c2) && (forall v :: v in us ==> v in vs)
    requires OnlyFrom(h, c0, c1, vs) && OnlyFrom(h, c1, c2, us)
    ensures OnlyFrom(h, c0, c2, vs)
  {
    hide Direct;
    forall x | x in c0 && x in c2 && c2[x] != c0[x]
      ensures exists v :: v in vs && DirectValue(h, c0, v, x)
    {
      if c1[x] == c0[x] {
        var v :| v in us && DirectValue(h, c1, v, x);
        DirectEarlier(h, c0, c1, v.id, x);
        assert DirectValue(h, c0, v, x);
      }
    }
  }

  lemma RootValuesSame(s0: State, s: State)
    requires s.m.h == s0.m.h && s.mainthread == s0.mainthread && s.registry == s0.registry && s.mt == s0.mt
    ensures RootValues(s) == RootValues(s0)
  {
  }

  lemma BegunLater(s0: State, s: State, s1: State)
    requires Begun(s0, s) && s1.m.c == s.m.c
    ensures Begun(s0, s1)
  {
    hide RootMarked;
  }
}
