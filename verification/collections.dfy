/** What a complete collection does with weak tables and with finalizers. */
module Collections {
  import opened LuaObjects
  import opened Marking
  import opened Places
  import opened States
  import opened Sweeps
  import opened Writes
  import opened TriColour
  import opened Cycle

  predicate IsFinalized(h: Heap, v: Value) {
    v.Ref? && v.id in h && h[v.id].Userdata? && h[v.id].finalized
  }

  /** What the end of the mark phase leaves in a table on the weak list: no userdata that has been finalized as a
      value, and nothing unmarked. As keys, such userdata are kept. */
  lemma SteppedWeak(s0: State, s: State, rs: set<Id>, t: Id)
    requires Stepped(s0, s, rs) && s0.phase == Propagate && s0.m.gray == []
    requires t in s.m.weak && t in s0.m.h && s0.m.h[t].Table?
    ensures t in s.m.h && s.m.h[t].Table? && s.m.h[t].mode == s0.m.h[t].mode
    ensures s0.m.h[t].mode.weakValue ==> forall v :: v in s.m.h[t].arr ==> !IsFinalized(s.m.h, v)
    ensures forall e :: e in s.m.h[t].node ==> !IsFinalized(s.m.h, e.val)
    ensures NonWhite(s.m.c, t) ==> forall r :: Points(s.m.h, t, r) ==> NonWhite(s.m.c, r)
    ensures forall e :: e in s0.m.h[t].node && e.key.Ref? && NonWhite(s.m.c, e.key.id) && !e.val.Ref? ==> e in s.m.h[t].node
  {
    hide Points;
    AtomicTables(s0, s, rs);
    hide Stepped;
    assert TableCleared(s.m.h, s.m.c, s0.m.h[t], s.m.h[t]);
  }

  lemma AtomicTables(s0: State, s: State, rs: set<Id>)
    requires Stepped(s0, s, rs) && s0.phase == Propagate && s0.m.gray == []
    ensures TablesCleared(s0.m.h, s.m) && AllSettled(s.m.h, s.m.c) && s.m.h.Keys == s0.m.h.Keys == s.m.c.Keys
  {
    hide TablesCleared;
    hide AllSettled;
    hide Points;
    hide AtomicContents;
    hide FinalizersOnce;
    hide FinalizersQueued;
    hide Live;
    InvBasic(s, rs);
    hide Inv;
  }

  /** How the collection of the heap of `s0` stands when the marking, which began there, has just ended: `reach` is
      what the roots reach. */
  ghost predicate AfterMarking(s0: State, s: State, reach: set<Id>) {
    && s.m.h.Keys == s0.m.h.Keys == s.m.c.Keys && AtomicContents(s0.m.h, s.m)
    && TablesCleared(s0.m.h, s.m) && WeakListed(s.m) && Safe(s.Sw())
    && (forall x :: Live(s.Sw(), x) <==> NonWhite(s.m.c, x) || x in s.fixed)
    && (forall x :: x in s.fixed && !NonWhite(s.m.c, x) ==> x in s.m.h && s.m.h[x].String?)
    && (forall u :: u in s.l.tmudata ==> NonWhite(s.m.c, u))
    && FinalizersOnce(s0, s)
    && (forall u :: u in s0.l.udata && Pending(s0.m.h, u) && u !in reach ==> u in s.l.tmudata)
  }

  lemma AfterMarkingNow(s0: State, s1: State, s: State, rs: set<Id>, reach: set<Id>)
    requires Collecting(s0, s1, rs) && s1.phase == Propagate && NoBlackWeak(s1)
    requires Inv(s1, reach) && forall r :: r in Roots(s0) ==> r in reach
    requires AtomicDone(s1, s, rs) && Inv(s, rs)
    ensures AfterMarking(s0, s, reach)
  {
    hide *;
    AfterMarkingParts(s0, s1, s, rs);
    SparedServes(s1, reach);
    InvBasic(s, rs);
    InvBasics(s, rs);
    LateQueued(s0, s1, s, reach);
    OnceSame(s0, s1, s);
    AfterMarkingIs(s0, s, reach);
  }

  lemma AfterMarkingParts(s0: State, s1: State, s: State, rs: set<Id>)
    requires Collecting(s0, s1, rs) && s1.phase == Propagate && NoBlackWeak(s1) && AtomicDone(s1, s, rs)
    ensures s1.m.h == s0.m.h && s1.l == s0.l && Roots(s1) == Roots(s0) && s.m.h.Keys == s0.m.h.Keys
    ensures AtomicContents(s0.m.h, s.m) && TablesCleared(s0.m.h, s.m) && WeakListed(s.m)
    ensures forall x :: Live(s.Sw(), x) <==> NonWhite(s.m.c, x) || x in s.fixed
    ensures (forall u :: u in s.l.tmudata ==> NonWhite(s.m.c, u)) && NonWhite(s.m.c, s.mainthread)
    ensures FinalizersOnce(s1, s) && FinalizersQueued(s1, s)
  {
    hide Points;
    hide StrongPoints;
    hide AtomicContents;
    hide TablesCleared;
    hide WeakListed;
    hide WeakNotBlack;
    hide AllSettled;
    hide StrongMarked;
    hide FinalizersOnce;
    hide FinalizersQueued;
    hide Live;
    hide Inv;
    hide NonWhite;
    hide StrongAccessible;
    RootsSame(s0, s1);
    assert s.mainthread in Roots(s);
    assert forall u :: u in s.l.tmudata ==> u in Roots(s);
  }

  lemma LateQueued(s0: State, s1: State, s: State, reach: set<Id>)
    requires FinalizersQueued(s1, s) && Spared(s1) <= reach && s1.m.h == s0.m.h && s1.l == s0.l
    ensures forall u :: u in s0.l.udata && Pending(s0.m.h, u) && u !in reach ==> u in s.l.tmudata
  {
    hide Spared;
  }

  lemma AfterMarkingIs(s0: State, s: State, reach: set<Id>)
    requires s.m.h.Keys == s0.m.h.Keys == s.m.c.Keys && AtomicContents(s0.m.h, s.m)
    requires TablesCleared(s0.m.h, s.m) && WeakListed(s.m) && Safe(s.Sw())
    requires forall x :: Live(s.Sw(), x) <==> NonWhite(s.m.c, x) || x in s.fixed
    requires NonWhite(s.m.c, s.mainthread) && forall x :: x in s.fixed ==> x in s.m.h && (s.m.h[x].String? || x == s.mainthread)
    requires (forall u :: u in s.l.tmudata ==> NonWhite(s.m.c, u)) && FinalizersOnce(s0, s)
    requires forall u :: u in s0.l.udata && Pending(s0.m.h, u) && u !in reach ==> u in s.l.tmudata
    ensures AfterMarking(s0, s, reach)
  {
    hide AtomicContents;
    hide TablesCleared;
    hide WeakListed;
    hide FinalizersOnce;
    hide Safe;
    hide Live;
    hide NonWhite;
  }

  lemma OnceSame(s0: State, s1: State, s: State)
    requires FinalizersOnce(s1, s) && s1.m.h == s0.m.h && s1.l == s0.l && Roots(s1) == Roots(s0)
    ensures FinalizersOnce(s0, s)
  {
    hide StrongAccessible;
    hide SameOrder;
  }

  /** The invariant of a complete collection of `s0`; `s1` is the state at the end of its marking. */
  ghost predicate Collects(s0: State, s1: State, s: State, rs: set<Id>, reach: set<Id>) {
    && Collecting(s0, s, rs) && s.phase != Pause
    && if s.phase == Propagate then Inv(s, reach) && NoBlackWeak(s) else AfterMarking(s0, s1, reach) && StepRel(s1, s)
  }

  /** What the next step may mark. */
  ghost function MayMark(s: State, rs: set<Id>, reach: set<Id>): set<Id> {
    if s.phase == Propagate && s.m.gray != [] then reach else rs
  }

  ghost predicate Encloses(s: State, rs: set<Id>, reach: set<Id>) {
    && ClosedUnder(s.m.h, rs) && ClosedUnder(s.m.h, reach) && reach <= rs && PendingUdata(s.m.h) <= rs
    && forall r :: r in Roots(s) ==> r in reach && r in rs
  }

  lemma CollectsReady(s0: State, s1: State, s: State, rs: set<Id>, reach: set<Id>)
    requires Collects(s0, s1, s, rs, reach) && Encloses(s0, rs, reach)
    ensures Inv(s, MayMark(s, rs, reach)) && s.phase != Pause
    ensures s.phase == Propagate ==> Contains(s, MayMark(s, rs, reach)) && s.m.h == s0.m.h
  {
    hide Inv;
    hide ClosedUnder;
    hide AfterMarking;
    hide StepRel;
    hide PendingUdata;
    hide WeakNotBlack;
    hide StrongAccessible;
    CollectingInv(s0, s, rs);
    CollectingContains(s0, s, rs);
    if s.phase == Propagate {
      RootsSame(s0, s);
    }
  }

  lemma CollectsStep(s0: State, s1: State, s: State, s2: State, rs: set<Id>, reach: set<Id>)
    requires Collects(s0, s1, s, rs, reach) && Encloses(s0, rs, reach) && s.phase != Finalize
    requires Stepped(s, s2, MayMark(s, rs, reach))
    ensures Collects(s0, if s.phase == Propagate then s2 else s1, s2, rs, reach)
    ensures PhasesLeft(s2.phase) < PhasesLeft(s.phase) || (s2.phase == s.phase && WorkLeft(s2) < WorkLeft(s))
  {
    hide Inv;
    hide StepRel;
    hide AfterMarking;
    hide AtomicDone;
    hide Collecting;
    hide PendingUdata;
    hide WeakNotBlack;
    CollectsReady(s0, s1, s, rs, reach);
    StepProgress(s, s2, MayMark(s, rs, reach));
    StepNotLast(s, s2, MayMark(s, rs, reach));
    if s.phase == Propagate && s.m.gray != [] {
      SteppedWider(s0, s, s2, rs, reach);
      SteppedNoBlackWeak(s, s2, reach);
      CollectingStep(s0, s, s2, rs);
    } else {
      CollectingStep(s0, s, s2, rs);
      if s.phase == Propagate {
        AfterMarkingNow(s0, s, s2, rs, reach);
        StepRelRefl(s2);
      } else {
        SweepingStep(s, s2, rs);
        StepRelTrans(s1, s, s2);
      }
    }
  }

  lemma SteppedWider(s0: State, s: State, s2: State, rs: set<Id>, reach: set<Id>)
    requires Stepped(s, s2, reach) && s.phase == Propagate && s.m.gray != [] && s.m.h == s0.m.h && Encloses(s0, rs, reach)
    ensures Stepped(s, s2, rs) && Inv(s2, reach) && s2.phase == Propagate
  {
    hide Points;
    hide Spreads;
    InvMarks(s2, reach);
    MarkInvWider(s2.m, Stale(s2), reach, rs);
    InvWider(s2, reach, rs);
    hide Inv;
    hide MarkInv;
  }

  lemma InvMarks(s: State, rs: set<Id>)
    requires Inv(s, rs) && s.phase == Propagate
    ensures MarkInv(s.m, Stale(s), rs)
  {
    hide MarkInv;
    hide Basic;
    hide Safe;
  }

  lemma InvWider(s: State, rs: set<Id>, rs1: set<Id>)
    requires Inv(s, rs) && s.phase == Propagate && MarkInv(s.m, Stale(s), rs1)
    ensures Inv(s, rs1)
  {
    hide MarkInv;
    hide Basic;
    hide Safe;
  }

  predicate Survives(h: Heap, v: Value) {
    v.Ref? ==> v.id in h
  }

  /** `o1` is what a collection that leaves the heap `h` leaves of the weak table `o`: what survives, but no userdata
      that has been finalized as a value. */
  ghost predicate WeakLeft(h: Heap, o: Object, o1: Object) {
    && o.Table? && o1.Table? && o1.metatable == o.metatable && o1.mode == o.mode && |o1.arr| == |o.arr|
    && (forall i :: 0 <= i < |o.arr| ==>
          o1.arr[i] == if o.mode.weakValue && (!Survives(h, o.arr[i]) || IsFinalized(h, o.arr[i])) then Nil else o.arr[i])
    && forall e :: e in o1.node <==> e in o.node && Survives(h, e.key) && Survives(h, e.val) && !IsFinalized(h, e.val)
  }

  /** All tables that are left are as they were, except for what weak tables have lost. */
  ghost predicate TablesLeft(h0: Heap, h: Heap) {
    forall t :: t in h && h[t].Table? ==>
      t in h0 && h0[t].Table? && if IsWeak(h[t]) then WeakLeft(h, h0[t], h[t]) else h[t] == h0[t]
  }

  /** `s` is the state when all that is dead has been freed after the marking that ended with `s1`. */
  ghost predicate AfterSweep(s0: State, s1: State, s: State, reach: set<Id>) {
    AfterMarking(s0, s1, reach) && StepRel(s1, s) && forall x :: x in s.m.h <==> Live(s1.Sw(), x)
  }

  lemma SurvivesMarked(s0: State, s1: State, s: State, reach: set<Id>, v: Value)
    requires AfterSweep(s0, s1, s, reach) && (v.Ref? ==> v.id in s1.m.h)
    ensures (v.Ref? && s1.m.h[v.id].String?) || (Survives(s.m.h, v) <==> StaysAsKey(s1.m.h, s1.m.c, v))
    ensures v.Ref? && s1.m.h[v.id].String? ==> StaysAsKey(s1.m.h, s1.m.c, v) && StaysAsValue(s1.m.h, s1.m.c, v) && !IsFinalized(s.m.h, v)
    ensures (v.Ref? && s1.m.h[v.id].String?) || (Survives(s.m.h, v) && !IsFinalized(s.m.h, v) <==> StaysAsValue(s1.m.h, s1.m.c, v))
  {
    hide Points;
    hide AtomicContents;
    hide TablesCleared;
    hide WeakListed;
    hide FinalizersOnce;
    hide Safe;
    if v.Ref? && v.id in s.m.h {
      assert SameContents(s1.m.h, s.m.h, v.id);
    }
  }

  lemma TableSwept(s0: State, s1: State, s: State, reach: set<Id>, t: Id)
    requires AfterSweep(s0, s1, s, reach) && NoneDangling(s0.m.h) && t in s.m.h && s.m.h[t].Table?
    ensures t in s0.m.h && s0.m.h[t].Table? && s.m.h[t] == s1.m.h[t] && s1.m.h[t].mode == s0.m.h[t].mode
    ensures IsWeak(s.m.h[t]) ==> TableCleared(s1.m.h, s1.m.c, s0.m.h[t], s1.m.h[t])
    ensures !IsWeak(s.m.h[t]) ==> s.m.h[t] == s0.m.h[t]
    ensures forall r :: Points(s1.m.h, t, r) ==> r in s.m.h
    ensures forall r :: Points(s0.m.h, t, r) ==> r in s1.m.h
  {
    hide Points;
    hide TableCleared;
    hide FinalizersOnce;
    hide EntriesLeft;
    hide ValuesLeft;
    assert SameContents(s1.m.h, s.m.h, t);
    hide Live;
    assert NonWhite(s1.m.c, t);
  }

  lemma TableKept(s0: State, s1: State, s: State, reach: set<Id>, t: Id)
    requires AfterSweep(s0, s1, s, reach) && NoneDangling(s0.m.h) && t in s.m.h && s.m.h[t].Table? && IsWeak(s.m.h[t])
    ensures t in s0.m.h && WeakLeft(s.m.h, s0.m.h[t], s.m.h[t])
  {
    TableSwept(s0, s1, s, reach, t);
    var o, o1 := s0.m.h[t], s.m.h[t];
    hide AfterSweep;
    hide IsFinalized;
    hide StaysAsKey;
    hide StaysAsValue;
    forall i | 0 <= i < |o.arr|
      ensures o1.arr[i] == if o.mode.weakValue && (!Survives(s.m.h, o.arr[i]) || IsFinalized(s.m.h, o.arr[i])) then Nil else o.arr[i]
    {
      assert o.arr[i].Ref? ==> Points(s0.m.h, t, o.arr[i].id);
      SurvivesMarked(s0, s1, s, reach, o.arr[i]);
      assert o1.arr[i].Ref? ==> Ref(o1.arr[i].id) in o1.arr && Points(s1.m.h, t, o1.arr[i].id);
    }
    forall e
      ensures e in o1.node <==> e in o.node && Survives(s.m.h, e.key) && Survives(s.m.h, e.val) && !IsFinalized(s.m.h, e.val)
    {
      if e in o.node {
        assert e.key.Ref? ==> EntryPoints(e, e.key.id) && Points(s0.m.h, t, e.key.id);
        assert e.val.Ref? ==> EntryPoints(e, e.val.id) && Points(s0.m.h, t, e.val.id);
        SurvivesMarked(s0, s1, s, reach, e.key);
        SurvivesMarked(s0, s1, s, reach, e.val);
        if e in o1.node {
          assert e.key.Ref? ==> Points(s1.m.h, t, e.key.id);
          assert e.val.Ref? ==> Points(s1.m.h, t, e.val.id);
        }
      }
    }
  }

  lemma TablesSwept(s0: State, s1: State, s: State, reach: set<Id>)
    requires AfterSweep(s0, s1, s, reach) && NoneDangling(s0.m.h)
    ensures TablesLeft(s0.m.h, s.m.h)
  {
    hide AfterSweep;
    hide NoneDangling;
    hide WeakLeft;
    forall t | t in s.m.h && s.m.h[t].Table?
      ensures t in s0.m.h && s0.m.h[t].Table?
      ensures if IsWeak(s.m.h[t]) then WeakLeft(s.m.h, s0.m.h[t], s.m.h[t]) else s.m.h[t] == s0.m.h[t]
    {
      TableSwept(s0, s1, s, reach, t);
      if IsWeak(s.m.h[t]) {
        TableKept(s0, s1, s, reach, t);
      }
    }
  }

  /** Which finalizers a collection is going to call: of all userdata that the roots do not reach, and, unless userdata
      of an earlier cycle still wait, of no others. The others keep theirs. */
  ghost predicate FinalizersRight(s0: State, s: State) {
    && (forall u :: Pending(s0.m.h, u) ==> u in s.m.h && s.m.h[u].Userdata? && s.m.h[u].hasGc)
    && (forall u :: Pending(s0.m.h, u) && !StrongAccessible(s0.m.h, Roots(s0), u) ==> u in s.l.tmudata && !Pending(s.m.h, u))
    && s0.l.tmudata <= s.l.tmudata && SameOrder(s0.l.udata, s.l.tmudata[|s0.l.tmudata|..])
    && (s0.l.tmudata == [] ==>
          && (forall u :: u in s.l.tmudata ==> Pending(s0.m.h, u) && !StrongAccessible(s0.m.h, Roots(s0), u))
          && (forall u :: Pending(s0.m.h, u) && StrongAccessible(s0.m.h, Roots(s0), u) ==> Pending(s.m.h, u)))
  }

  lemma PendingLinked(s: State, u: Id)
    requires Linked(s.m.h, s.l) && Pending(s.m.h, u) && u !in s.l.udata
    ensures u in s.l.tmudata && u in Roots(s)
  {
    hide StringsLinked;
    hide UpValsLinked;
  }

  lemma FinalizersSwept(s0: State, s1: State, s: State)
    requires Linked(s0.m.h, s0.l) && AfterSweep(s0, s1, s, Reach(s0))
    ensures FinalizersRight(s0, s)
  {
    hide StringsLinked;
    hide UpValsLinked;
    hide TablesCleared;
    hide WeakListed;
    hide SameOrder;
    hide Points;
    hide StrongAccessible;
    hide MarkAccessible;
    forall u | Pending(s0.m.h, u)
      ensures u in s.m.h && s.m.h[u].Userdata? && s.m.h[u].hasGc && (Pending(s.m.h, u) <==> Pending(s1.m.h, u))
      ensures !StrongAccessible(s0.m.h, Roots(s0), u) ==> u in s0.l.udata && u !in Reach(s0)
      ensures s0.l.tmudata == [] ==> u in s0.l.udata
    {
      PendingLive(s0, s1, s, u);
      NotReached(s0, u);
    }
  }

  lemma PendingLive(s0: State, s1: State, s: State, u: Id)
    requires AfterSweep(s0, s1, s, Reach(s0)) && Pending(s0.m.h, u) && Linked(s0.m.h, s0.l)
    ensures u in s.m.h && s.m.h[u].Userdata? && s.m.h[u].hasGc && (Pending(s.m.h, u) <==> Pending(s1.m.h, u))
  {
    hide Points;
    hide TablesCleared;
    hide WeakListed;
    hide SameOrder;
    hide Reach;
    hide Linked;
    hide StrongAccessible;
    hide EntriesLeft;
    if !Pending(s1.m.h, u) {
      if u !in s0.l.udata {
        PendingLinked(s0, u);
      }
      assert u in s1.l.tmudata;
    }
    assert Live(s1.Sw(), u);
    assert SameContents(s1.m.h, s.m.h, u);
  }

  lemma NotReached(s0: State, u: Id)
    requires Pending(s0.m.h, u) && Linked(s0.m.h, s0.l)
    ensures !StrongAccessible(s0.m.h, Roots(s0), u) ==> u in s0.l.udata && u !in Reach(s0)
    ensures s0.l.tmudata == [] ==> u in s0.l.udata
  {
    hide MarkAccessible;
    hide StrongAccessible;
    hide Linked;
    MarkIsStrong(s0.m.h, Roots(s0), u);
    if u !in s0.l.udata {
      PendingLinked(s0, u);
      MarkAccessibleRoot(s0.m.h, Roots(s0), u);
      MarkIsStrong(s0.m.h, Roots(s0), u);
    }
  }

  /** A sweep that frees what is dead already changes nothing about that. */
  lemma RightBefore(s0: State, s1: State, s: State)
    requires StepRel(s0, s1) && Safe(s0.Sw()) && RootsLive(s0) && FinalizersRight(s1, s)
    ensures FinalizersRight(s0, s)
  {
    UdataKeptIs(s0, s1);
    OrderFrom(s0.l.udata, s1.l.udata, s.l.tmudata[|s1.l.tmudata|..]);
    hide SameOrder;
    hide UdataKept;
    hide Points;
    hide StrongAccessible;
    SameReached(s0, s1);
    forall u | u in s1.m.h || Pending(s0.m.h, u)
      ensures Pending(s1.m.h, u) <==> Pending(s0.m.h, u)
    {
      if Pending(s0.m.h, u) {
        assert Live(s0.Sw(), u) && Live(s1.Sw(), u);
      }
      assert SameContents(s0.m.h, s1.m.h, u);
    }
  }

  lemma UdataKeptIs(s0: State, s1: State)
    requires StepRel(s0, s1)
    ensures UdataKept(s0.l.udata, s1.l.udata) && s1.l.tmudata == s0.l.tmudata
  {
    hide Points;
    hide Live;
    hide UdataKept;
  }

  lemma OrderFrom(l0: seq<Id>, l1: seq<Id>, part: seq<Id>)
    requires UdataKept(l0, l1) && SameOrder(l1, part)
    ensures SameOrder(l0, part)
  {
    hide Before;
    if l1 != l0 {
      forall i, j | 0 <= i < j < |part|
        ensures Before(l0, part[i], part[j])
      {
        BeforeIn(l0, l1, part[i], part[j]);
      }
    }
  }

  lemma TablesBefore(h0: Heap, h1: Heap, h: Heap)
    requires ContentsKept(h0, h1) && TablesLeft(h1, h)
    ensures TablesLeft(h0, h)
  {
    hide WeakLeft;
    forall t | t in h && h[t].Table?
      ensures t in h0 && h0[t].Table? && if IsWeak(h[t]) then WeakLeft(h, h0[t], h[t]) else h[t] == h0[t]
    {
      assert SameContents(h0, h1, t);
    }
  }

  /** The stack of the running thread is the same. */
  ghost predicate StackKept(s0: State, s: State) {
    && s.running == s0.running && s0.running in s0.m.h && s0.m.h[s0.running].Thread?
    && s.running in s.m.h && s.m.h[s.running].Thread? && s.m.h[s.running].stack == s0.m.h[s0.running].stack
  }

  /** What a collection has done when the sweep is over and no finalizer has been called yet. */
  ghost predicate Collected(s0: State, s: State) {
    FinalizersRight(s0, s) && TablesLeft(s0.m.h, s.m.h) && StackKept(s0, s)
  }

  lemma CollectedNow(s0: State, s1: State, s2: State, s3: State, s: State)
    requires Inv(s0, s0.m.h.Keys) && Inv(s1, s1.m.h.Keys) && StepRel(s0, s1) && s1.phase == Finalize
    requires s2 == s1.(m := s2.m, phase := Propagate) && s2.m.h == s1.m.h
    requires Collects(s2, s3, s, Keepable(s1), Reach(s1)) && s.phase == Finalize
    ensures Collected(s0, s)
  {
    hide *;
    InvBasic(s0, s0.m.h.Keys);
    InvLinked(s1, s1.m.h.Keys);
    ReachSame(s1, s2);
    CollectsEnd(s2, s3, s, Keepable(s1), Reach(s1));
    FinalizersSwept(s2, s3, s);
    RightSame(s1, s2, s);
    RightBefore(s0, s1, s);
    NothingDangles(s1);
    TablesSwept(s2, s3, s, Reach(s1));
    StackSame(s0, s1, s2, s3, s);
    StepRelContents(s0, s1);
    TablesBefore(s0.m.h, s1.m.h, s.m.h);
    CollectedIs(s0, s);
  }

  lemma CollectedIs(s0: State, s: State)
    ensures FinalizersRight(s0, s) && TablesLeft(s0.m.h, s.m.h) && StackKept(s0, s) <==> Collected(s0, s)
  {
  }

  lemma ReachSame(s1: State, s2: State)
    requires s2 == s1.(m := s2.m, phase := Propagate) && s2.m.h == s1.m.h
    ensures Reach(s2) == Reach(s1) && Roots(s2) == Roots(s1)
  {
    hide MarkAccessible;
    assert Roots(s2) == Roots(s1);
  }

  lemma CollectsEnd(s0: State, s1: State, s: State, rs: set<Id>, reach: set<Id>)
    requires Collects(s0, s1, s, rs, reach) && s.phase == Finalize
    ensures AfterSweep(s0, s1, s, reach)
    ensures s.running == s0.running && s.running in s.m.h && s.m.h[s.running].Thread? && AtomicContents(s0.m.h, s1.m) && StepRel(s1, s)
  {
    hide Points;
    hide AtomicContents;
    hide TablesCleared;
    hide WeakListed;
    hide FinalizersOnce;
    hide Safe;
    hide StrongAccessible;
    CollectingInv(s0, s, rs);
    InvBasics(s, rs);
    AllLive(s, rs);
    LiveIn(s);
    hide Inv;
    hide Live;
  }

  lemma RightSame(s1: State, s2: State, s: State)
    requires FinalizersRight(s2, s) && s2.m.h == s1.m.h && s2.l == s1.l && Roots(s2) == Roots(s1)
    ensures FinalizersRight(s1, s)
  {
    hide StrongAccessible;
  }

  lemma NothingDangles(s: State)
    requires Inv(s, s.m.h.Keys) && s.phase == Finalize
    ensures NoneDangling(s.m.h)
  {
    hide Points;
    InvBasic(s, s.m.h.Keys);
    AllLive(s, s.m.h.Keys);
    LiveIn(s);
    hide Inv;
    hide Live;
    forall x, r | Points(s.m.h, x, r)
      ensures r in s.m.h
    {
      PointsFrom(s.m.h, x, r);
      assert Live(s.Sw(), x);
    }
  }

  lemma StepRelContents(s0: State, s: State)
    requires StepRel(s0, s)
    ensures ContentsKept(s0.m.h, s.m.h)
  {
    hide Points;
    hide Live;
  }

  lemma StackSame(s0: State, s1: State, s2: State, s3: State, s: State)
    requires StepRel(s0, s1) && StepRel(s3, s) && s2.m.h == s1.m.h && AtomicContents(s2.m.h, s3.m)
    requires s2.running == s1.running == s.running && s.running in s.m.h && s.m.h[s.running].Thread?
    ensures StackKept(s0, s)
  {
    hide Points;
    hide Live;
    hide EntriesLeft;
    hide ValuesLeft;
    var t := s.running;
    assert SameContents(s3.m.h, s.m.h, t) && SameContents(s0.m.h, s1.m.h, t);
  }

  /** What the finalizers of the userdata in `l` are called with, in this order. */
  ghost function Handed(h: Heap, l: seq<Id>): seq<Value> {
    if l == [] then []
    else Handed(h, l[..|l| - 1]) + if l[|l| - 1] in h && h[l[|l| - 1]].Userdata? && h[l[|l| - 1]].hasGc then [Ref(l[|l| - 1])] else []
  }

  lemma {:induction false} HandedHas(h: Heap, l: seq<Id>, v: Value)
    ensures v in Handed(h, l) <==> v.Ref? && v.id in l && v.id in h && h[v.id].Userdata? && h[v.id].hasGc
  {
    if l != [] {
      HandedHas(h, l[..|l| - 1], v);
      assert l == l[..|l| - 1] + [l[|l| - 1]];
    }
  }

  /** The finalizers of the first `k` waiting userdata of `s0` have been called. */
  ghost predicate Handing(s0: State, s: State, k: nat) {
    && k <= |s0.l.tmudata| && s.l.tmudata == s0.l.tmudata[k..] && s.running == s0.running
    && s0.running in s0.m.h && s0.m.h[s0.running].Thread?
    && s.m.h == s0.m.h[s0.running := s0.m.h[s0.running].(stack := s0.m.h[s0.running].stack + Handed(s0.m.h, s0.l.tmudata[..k]))]
  }

  lemma HandingStarts(s: State)
    requires s.running in s.m.h && s.m.h[s.running].Thread?
    ensures Handing(s, s, 0)
  {
    assert s.m.h[s.running].stack + [] == s.m.h[s.running].stack;
    assert s.l.tmudata[..0] == [];
  }

  lemma HandingStep(s0: State, s1: State, s2: State, k: nat, rs: set<Id>)
    requires Handing(s0, s1, k) && Stepped(s1, s2, rs) && s1.phase == Finalize
    ensures Handing(s0, s2, if s1.l.tmudata == [] then k else k + 1)
  {
    hide Inv;
    var l, t := s0.l.tmudata, s0.running;
    if s1.l.tmudata != [] {
      assert l[..k + 1] == l[..k] + [l[k]] && l[..k + 1][..k] == l[..k];
      assert s1.l.tmudata[0] == l[k] && s1.l.tmudata[1..] == l[k + 1..];
      var stack := s0.m.h[t].stack;
      assert (stack + Handed(s0.m.h, l[..k])) + [Ref(l[k])] == stack + (Handed(s0.m.h, l[..k]) + [Ref(l[k])]);
      assert Handed(s0.m.h, l[..k]) + [] == Handed(s0.m.h, l[..k]);
    }
  }

  lemma {:induction false} HandedInOrder(h: Heap, l: seq<Id>)
    requires forall u :: u in l ==> u in h && h[u].Userdata? && h[u].hasGc
    ensures Handed(h, l) == seq(|l|, i requires 0 <= i < |l| => Ref(l[i]))
  {
    if l != [] {
      HandedInOrder(h, l[..|l| - 1]);
    }
  }

  /** What the finalizers are called with, when no userdata has been waiting. */
  ghost predicate CallsRight(s0: State, called: seq<Value>) {
    && (forall v :: v in called ==> v.Ref? && Pending(s0.m.h, v.id) && !StrongAccessible(s0.m.h, Roots(s0), v.id))
    && (forall i, j :: 0 <= i < j < |called| ==> called[i].Ref? && called[j].Ref? && Before(s0.l.udata, called[i].id, called[j].id))
  }

  /** The finalizers that a collection calls get their userdata on the stack of the running thread: all that the roots
      do not reach, and, unless userdata of an earlier cycle still wait, no others, in the order in which they are
      linked; the others keep theirs. */
  ghost predicate HandedOver(s0: State, s: State) {
    && s0.running in s0.m.h && s0.m.h[s0.running].Thread? && s.running == s0.running
    && s.running in s.m.h && s.m.h[s.running].Thread? && s0.m.h[s0.running].stack <= s.m.h[s.running].stack
    && var called := s.m.h[s.running].stack[|s0.m.h[s0.running].stack|..];
      && (forall u :: Pending(s0.m.h, u) && !StrongAccessible(s0.m.h, Roots(s0), u) ==> Ref(u) in called && u in s.m.h && !Pending(s.m.h, u))
      && (s0.l.tmudata == [] ==>
            && CallsRight(s0, called)
            && (forall u :: Pending(s0.m.h, u) && StrongAccessible(s0.m.h, Roots(s0), u) ==> Pending(s.m.h, u)))
  }

  lemma CollectsStart(s1: State, s2: State)
    requires Inv(s1, s1.m.h.Keys) && s1.phase == Finalize
    requires s2 == s1.(m := s2.m, phase := Propagate) && s2.m.h == s1.m.h
    requires Inv(s2, Reach(s1)) && Inv(s2, Keepable(s1)) && NoBlackWeak(s2)
    ensures Collects(s2, s2, s2, Keepable(s1), Reach(s1)) && Encloses(s2, Keepable(s1), Reach(s1))
  {
    hide *;
    KeepableServes(s1);
    CollectingStart(s1, s2, Keepable(s1));
    CollectsStarts(s1, s2);
  }

  lemma StartedWider(s1: State, s2: State)
    requires Inv(s1, s1.m.h.Keys) && s1.phase == Finalize && Inv(s2, Reach(s1)) && s2.phase == Propagate && s2.m.h == s1.m.h
    ensures Inv(s2, Keepable(s1))
  {
    hide *;
    KeepableServes(s1);
    InvMarks(s2, Reach(s1));
    MarkInvWider(s2.m, Stale(s2), Reach(s1), Keepable(s1));
    InvWider(s2, Reach(s1), Keepable(s1));
  }

  lemma CollectsStarts(s1: State, s2: State)
    requires s2.phase == Propagate && s2.m.h == s1.m.h && Roots(s2) == Roots(s1)
    requires Inv(s2, Reach(s1)) && NoBlackWeak(s2) && Collecting(s2, s2, Keepable(s1))
    requires ClosedUnder(s1.m.h, Keepable(s1)) && ClosedUnder(s1.m.h, Reach(s1)) && Reach(s1) <= Keepable(s1)
    requires PendingUdata(s1.m.h) <= Keepable(s1) && forall r :: r in Roots(s1) ==> r in Reach(s1) && r in Keepable(s1)
    ensures Collects(s2, s2, s2, Keepable(s1), Reach(s1)) && Encloses(s2, Keepable(s1), Reach(s1))
  {
    hide Inv;
    hide ClosedUnder;
    hide Reach;
    hide Keepable;
    hide PendingUdata;
    hide WeakNotBlack;
    hide StrongAccessible;
  }

  lemma CollectsIs(s0: State, s1: State, s: State, rs: set<Id>, reach: set<Id>)
    requires Collects(s0, s1, s, rs, reach)
    ensures Collecting(s0, s, rs) && s.phase != Pause
  {
    hide Collecting;
    hide Inv;
    hide AfterMarking;
    hide StepRel;
  }

  lemma CollectedStack(s0: State, s: State)
    requires Collected(s0, s)
    ensures s.running in s.m.h && s.m.h[s.running].Thread?
  {
    hide FinalizersRight;
    hide TablesLeft;
  }

  lemma CollectedThenCalled(s0: State, s1: State, s: State, k: nat)
    requires Collected(s0, s1) && Handing(s1, s, k) && s.l.tmudata == []
    ensures HandedOver(s0, s) && TablesLeft(s0.m.h, s.m.h)
  {
    hide *;
    HandedAll(s1, s, k);
    CollectedIs(s0, s1);
    CalledRight(s0, s1);
    StackGrown(s0, s1, s);
    HandedOverIs(s0, s1, s);
    TablesAfter(s0.m.h, s1.m.h, s.m.h, s.running);
  }

  lemma HandedAll(s1: State, s: State, k: nat)
    requires Handing(s1, s, k) && s.l.tmudata == []
    ensures s.running == s1.running && s.running in s1.m.h && s1.m.h[s.running].Thread? && s.running in s.m.h && s.m.h[s.running].Thread?
    ensures s.m.h == s1.m.h[s.running := s.m.h[s.running]]
    ensures s.m.h[s.running].stack == s1.m.h[s.running].stack + Handed(s1.m.h, s1.l.tmudata)
  {
    hide Handed;
    assert s1.l.tmudata[..k] == s1.l.tmudata;
  }

  lemma CalledRight(s0: State, s1: State)
    requires FinalizersRight(s0, s1)
    ensures forall u :: Pending(s0.m.h, u) && !StrongAccessible(s0.m.h, Roots(s0), u) ==>
              Ref(u) in Handed(s1.m.h, s1.l.tmudata) && u in s1.m.h && !Pending(s1.m.h, u)
    ensures s0.l.tmudata == [] ==> CallsRight(s0, Handed(s1.m.h, s1.l.tmudata))
    ensures s0.l.tmudata == [] ==> forall u :: Pending(s0.m.h, u) && StrongAccessible(s0.m.h, Roots(s0), u) ==> Pending(s1.m.h, u)
  {
    var l := s1.l.tmudata;
    hide StrongAccessible;
    forall v
      ensures v in Handed(s1.m.h, l) <==> v.Ref? && v.id in l && v.id in s1.m.h && s1.m.h[v.id].Userdata? && s1.m.h[v.id].hasGc
    {
      HandedHas(s1.m.h, l, v);
    }
    if s0.l.tmudata == [] {
      assert forall u :: u in l ==> Pending(s0.m.h, u);
      HandedInOrder(s1.m.h, l);
      assert l[|s0.l.tmudata|..] == l;
      OrderPairs(s0.l.udata, l);
    }
    hide Before;
    hide SameOrder;
    hide Handed;
  }

  lemma StackGrown(s0: State, s1: State, s: State)
    requires StackKept(s0, s1) && s.running == s1.running && s.running in s.m.h && s.m.h[s.running].Thread?
    requires s.m.h == s1.m.h[s.running := s.m.h[s.running]]
    requires s.m.h[s.running].stack == s1.m.h[s.running].stack + Handed(s1.m.h, s1.l.tmudata)
    ensures s0.running in s0.m.h && s0.m.h[s0.running].Thread? && s.running == s0.running
    ensures s0.m.h[s0.running].stack <= s.m.h[s.running].stack
    ensures s.m.h[s.running].stack[|s0.m.h[s0.running].stack|..] == Handed(s1.m.h, s1.l.tmudata)
    ensures forall u :: (u in s.m.h <==> u in s1.m.h) && (Pending(s.m.h, u) <==> Pending(s1.m.h, u))
  {
    hide Handed;
  }

  lemma HandedOverIs(s0: State, s1: State, s: State)
    requires s0.running in s0.m.h && s0.m.h[s0.running].Thread? && s.running == s0.running && s.running in s.m.h && s.m.h[s.running].Thread?
    requires s0.m.h[s0.running].stack <= s.m.h[s.running].stack
    requires s.m.h[s.running].stack[|s0.m.h[s0.running].stack|..] == Handed(s1.m.h, s1.l.tmudata)
    requires forall u :: (u in s.m.h <==> u in s1.m.h) && (Pending(s.m.h, u) <==> Pending(s1.m.h, u))
    requires forall u :: Pending(s0.m.h, u) && !StrongAccessible(s0.m.h, Roots(s0), u) ==>
               Ref(u) in Handed(s1.m.h, s1.l.tmudata) && u in s1.m.h && !Pending(s1.m.h, u)
    requires s0.l.tmudata == [] ==> CallsRight(s0, Handed(s1.m.h, s1.l.tmudata))
    requires s0.l.tmudata == [] ==> forall u :: Pending(s0.m.h, u) && StrongAccessible(s0.m.h, Roots(s0), u) ==> Pending(s1.m.h, u)
    ensures HandedOver(s0, s)
  {
    hide Handed;
    hide Pending;
    hide StrongAccessible;
    hide CallsRight;
  }

  lemma OrderPairs(l0: seq<Id>, l: seq<Id>)
    requires SameOrder(l0, l)
    ensures forall i, j :: 0 <= i < j < |l| ==> Before(l0, l[i], l[j])
  {
    hide Before;
  }

  lemma TablesAfter(h0: Heap, h1: Heap, h: Heap, t: Id)
    requires TablesLeft(h0, h1) && t in h1 && h1[t].Thread? && t in h && h[t].Thread? && h == h1[t := h[t]]
    ensures TablesLeft(h0, h)
  {
    forall x | x in h && h[x].Table? && IsWeak(h[x])
      ensures x in h0 && WeakLeft(h, h0[x], h[x])
    {
      assert WeakLeft(h1, h0[x], h1[x]);
      SurviveAfter(h1, h, t);
      hide IsFinalized;
      hide Survives;
    }
  }

  lemma SurviveAfter(h1: Heap, h: Heap, t: Id)
    requires t in h1 && h1[t].Thread? && t in h && h[t].Thread? && h == h1[t := h[t]]
    ensures forall v :: (Survives(h, v) <==> Survives(h1, v)) && (IsFinalized(h, v) <==> IsFinalized(h1, v))
  {
  }
}
