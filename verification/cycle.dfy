/** Whole steps of the collector, and whole cycles. */
module Cycle {
  import opened LuaObjects
  import opened Marking
  import opened Places
  import opened States
  import opened Sweeps
  import opened Writes
  import opened TriColour

  /** `rs` can serve as the set that contains whatever the next step marks. */
  ghost predicate Contains(s: State, rs: set<Id>) {
    && ClosedUnder(s.m.h, rs)
    && (forall r :: r in Roots(s) ==> r in rs)
    && (s.phase == Propagate && s.m.gray == [] ==> forall u :: u in s.l.udata && Separable(s.m.h, s.m.c, u) ==> u in rs)
  }

  ghost predicate SameRoot(s0: State, s: State) {
    && s.mainthread == s0.mainthread && s.running == s0.running && s.registry == s0.registry && s.mt == s0.mt
    && s.fixed == s0.fixed
  }

  ghost predicate SameProgram(s0: State, s: State) {
    && s.mainthread == s0.mainthread && s.running == s0.running && s.registry == s0.registry && s.mt == s0.mt
    && s.fixed == s0.fixed && s.l.tmudata == s0.l.tmudata && s.cw == s0.cw
  }

  /** The stack of the running thread gets the userdata that is passed to its finalizer. */
  ghost function FinalizerCalled(h: Heap, t: Id, u: Id): Heap {
    if u in h && h[u].Userdata? && h[u].hasGc && t in h && h[t].Thread?
    then h[t := h[t].(stack := h[t].stack + [Ref(u)])] else h
  }

  lemma FinalizerCalledIs(h: Heap, t: Id, u: Id)
    requires u in h && t in h && h[t].Thread?
    ensures h[u].Userdata? && h[u].hasGc ==> FinalizerCalled(h, t, u) == h[t := h[t].(stack := h[t].stack + [Ref(u)])]
    ensures !(h[u].Userdata? && h[u].hasGc) ==> FinalizerCalled(h, t, u) == h
  {
  }

  /** What each of the five cases of singlestep does. */
  ghost predicate Stepped(s0: State, s: State, rs: set<Id>) {
    && Inv(s, rs)
    && match s0.phase
       case Pause =>
         && s.phase == Propagate && s.m.h == s0.m.h && s.l == s0.l && SameProgram(s0, s)
         && Begun(s0, s) && NoBlackWeak(s) && s.m.grayagain == [] && s.m.weak == []
       case Propagate =>
         if s0.m.gray != []
         then s.phase == Propagate && s.m.h == s0.m.h && s.l == s0.l && SameProgram(s0, s) && Propagated(s0.m, s.m)
              && 2 * |Whites(s.m.c)| + |s.m.gray| < 2 * |Whites(s0.m.c)| + |s0.m.gray|
         else s.phase == SweepString && AtomicDone(s0, s, rs)
       case SweepString =>
         && StepRel(s0, s) && |s.l.strt| == |s0.l.strt| && s.sweepstrgc == s0.sweepstrgc + 1
         && s.phase == (if s.sweepstrgc >= |s.l.strt| then Sweep else SweepString)
       case Sweep =>
         StepRel(s0, s) && (s.phase == Finalize || (s.phase == Sweep && SweepLeft(s) < SweepLeft(s0)))
       case Finalize =>
         && s.m.h.Keys == s0.m.h.Keys && SameRoot(s0, s)
         && (s0.l.tmudata == [] ==> s.phase == Pause && s.m.h == s0.m.h && s.l == s0.l && SameProgram(s0, s))
         && (s0.l.tmudata != [] ==> (s.phase == Finalize && s.l.tmudata == s0.l.tmudata[1..]
                                        && s.m.h == FinalizerCalled(s0.m.h, s0.running, s0.l.tmudata[0])))
  }

  /** A step frees only what was dead before it. */
  lemma SteppedSafe(s0: State, s: State, rs: set<Id>)
    requires Stepped(s0, s, rs)
    ensures forall x :: Live(s0.Sw(), x) ==> x in s.m.h
  {
    hide Points;
    hide Inv;
  }

  /** What the program can tell of `x` is the same before and after a step of the collector, except that weak
      tables have lost entries, and that a finalizer is about to be called. */
  ghost predicate Undisturbed(s0: State, s: State, x: Id)
    requires x in s0.m.h && x in s.m.h
  {
    match s0.m.h[x]
    case Userdata(_, _, _, _) => s.m.h[x] == s0.m.h[x] || s.m.h[x] == s0.m.h[x].(finalized := true)
    case UpVal(c) => s.m.h[x].UpVal? && (s.m.h[x] == s0.m.h[x] || CellValue(s.m.h, s.m.h[x].cell) == CellValue(s0.m.h, c))
    case Thread(gt, stack, _) =>
      s.m.h[x].Thread? && s.m.h[x].gt == gt
      && (s.m.h[x].stack == stack
          || (s0.phase == Finalize && s0.l.tmudata != [] && s.m.h[x].stack == stack + [Ref(s0.l.tmudata[0])]))
    case Table(_, _, _, _) =>
      s.m.h[x] == s0.m.h[x]
      || (s0.phase == Propagate && x in s.m.weak && TableCleared(s.m.h, s.m.c, s0.m.h[x], s.m.h[x]))
    case _ => s.m.h[x] == s0.m.h[x]
  }

  /** The collector leaves no trace but these. */
  lemma StepTransparent(s0: State, s: State, rs: set<Id>)
    requires Stepped(s0, s, rs)
    ensures forall x :: x in s.m.h ==> x in s0.m.h && Undisturbed(s0, s, x)
  {
    hide Inv;
    hide Points;
    hide Live;
    hide TableLeft;
    hide TableCleared;
    hide FinalizersOnce;
    hide AllSettled;
    forall x | x in s.m.h
      ensures x in s0.m.h && Undisturbed(s0, s, x)
    {
      if s0.phase == SweepString || s0.phase == Sweep {
        assert SameContents(s0.m.h, s.m.h, x);
      }
    }
  }

  /** All objects together can always serve. */
  lemma AllContains(s: State)
    requires Inv(s, s.m.h.Keys) && s.phase != SweepString && s.phase != Sweep
    ensures Contains(s, s.m.h.Keys)
  {
    hide Linked;
    hide MarkInv;
    AllLive(s, s.m.h.Keys);
    InvBasic(s, s.m.h.Keys);
    hide Live;
    LiveIn(s);
    hide Points;
    hide StrongPoints;
    forall x, r | x in s.m.h.Keys && Spreads(s.m.h, x, r)
      ensures r in s.m.h.Keys
    {
      StrongIsPointed(s.m.h, x, r);
      assert Live(s.Sw(), x);
    }
  }

  /** The userdata with a finalizer that has not been called. */
  ghost function PendingUdata(h: Heap): set<Id> {
    set u | u in h && Pending(h, u)
  }

  /** What a collection may keep: what the roots reach, and what userdata with a finalizer reach. */
  ghost function Keepable(s: State): set<Id> {
    set x | x in s.m.h && MarkAccessible(s.m.h, Roots(s) + PendingUdata(s.m.h), x)
  }

  /** What the mark phase reaches before it looks at finalizers. */
  ghost function Reach(s: State): set<Id> {
    set x | x in s.m.h && MarkAccessible(s.m.h, Roots(s), x)
  }

  /** What is reached from roots that are objects is closed. */
  lemma ReachedClosed(s: State, roots: set<Id>, rs: set<Id>)
    requires Inv(s, s.m.h.Keys) && s.phase == Finalize && roots <= s.m.h.Keys
    requires rs == set x | x in s.m.h && MarkAccessible(s.m.h, roots, x)
    ensures ClosedUnder(s.m.h, rs) && roots <= rs
    ensures forall x :: MarkAccessible(s.m.h, roots, x) <==> x in rs
  {
    hide Spreads;
    hide MarkAccessible;
    AllContains(s);
    hide Inv;
    forall x | MarkAccessible(s.m.h, roots, x)
      ensures x in s.m.h
    {
      MarkAccessibleIn(s.m.h, roots, s.m.h.Keys, x);
    }
    forall x, r | x in rs && Spreads(s.m.h, x, r)
      ensures r in rs
    {
      MarkAccessibleStep(s.m.h, roots, x, r);
    }
    forall r | r in roots
      ensures r in rs
    {
      MarkAccessibleRoot(s.m.h, roots, r);
    }
  }

  lemma KeepableServes(s: State)
    requires Inv(s, s.m.h.Keys) && s.phase == Finalize
    ensures Inv(s, Keepable(s)) && ClosedUnder(s.m.h, Keepable(s)) && PendingUdata(s.m.h) <= Keepable(s)
    ensures forall r :: r in Roots(s) ==> r in Keepable(s)
    ensures Inv(s, Reach(s)) && ClosedUnder(s.m.h, Reach(s)) && Reach(s) <= Keepable(s)
    ensures forall r :: r in Roots(s) ==> r in Reach(s)
  {
    hide Points;
    hide Spreads;
    hide MarkAccessible;
    AllContains(s);
    hide Inv;
    ReachedClosed(s, Roots(s), Reach(s));
    ReachedClosed(s, Roots(s) + PendingUdata(s.m.h), Keepable(s));
    forall x | x in Reach(s)
      ensures x in Keepable(s)
    {
      MarkAccessibleIn(s.m.h, Roots(s), Keepable(s), x);
    }
    InvAnyRs(s, s.m.h.Keys, Keepable(s));
    InvAnyRs(s, s.m.h.Keys, Reach(s));
  }

  /** Over a sweep, paths from what is live stay the same. */
  lemma {:induction false} PathSame(s0: State, s: State, roots: set<Id>, p: seq<Id>)
    requires StepRel(s0, s) && Safe(s0.Sw()) && (forall r :: r in roots ==> Live(s0.Sw(), r))
    requires IsPath(s.m.h, roots, p) || IsPath(s0.m.h, roots, p)
    ensures IsPath(s.m.h, roots, p) && IsPath(s0.m.h, roots, p) && Live(s0.Sw(), p[|p| - 1])
  {
    hide Points;
    hide Live;
    if |p| > 1 {
      var q := p[..|p| - 1];
      PathSame(s0, s, roots, q);
      var x, r := p[|p| - 2], p[|p| - 1];
      assert IsPath(s.m.h, roots, p) ==> Points(s.m.h, x, r);
      assert IsPath(s0.m.h, roots, p) ==> Points(s0.m.h, x, r);
      assert p == q + [r];
    }
  }

  /** A sweep changes nothing about what the roots reach, strongly or through weak tables. */
  lemma SameReached(s0: State, s: State)
    requires StepRel(s0, s) && Safe(s0.Sw()) && RootsLive(s0)
    ensures Roots(s) == Roots(s0)
    ensures forall x :: Accessible(s.m.h, Roots(s), x) <==> Accessible(s0.m.h, Roots(s0), x)
    ensures forall x :: StrongAccessible(s.m.h, Roots(s), x) <==> StrongAccessible(s0.m.h, Roots(s0), x)
  {
    hide Points;
    hide StrongPoints;
    hide Live;
    assert Roots(s) == Roots(s0);
    forall x | Accessible(s0.m.h, Roots(s0), x)
      ensures Accessible(s.m.h, Roots(s), x)
    {
      var p :| IsPath(s0.m.h, Roots(s0), p) && p[|p| - 1] == x;
      PathSame(s0, s, Roots(s0), p);
    }
    forall x | Accessible(s.m.h, Roots(s), x)
      ensures Accessible(s0.m.h, Roots(s0), x)
    {
      var p :| IsPath(s.m.h, Roots(s), p) && p[|p| - 1] == x;
      PathSame(s0, s, Roots(s0), p);
    }
    forall x
      ensures StrongAccessible(s.m.h, Roots(s), x) <==> StrongAccessible(s0.m.h, Roots(s0), x)
    {
      StrongReached(s0, s, x);
    }
  }

  lemma StrongReached(s0: State, s: State, x: Id)
    requires StepRel(s0, s) && Safe(s0.Sw()) && RootsLive(s0) && Roots(s) == Roots(s0)
    ensures StrongAccessible(s.m.h, Roots(s), x) <==> StrongAccessible(s0.m.h, Roots(s0), x)
  {
    hide StrongPoints;
    hide Points;
    hide Live;
    if StrongAccessible(s0.m.h, Roots(s0), x) {
      var p :| IsStrongPath(s0.m.h, Roots(s0), p) && p[|p| - 1] == x;
      StrongPathSame(s0, s, p);
    }
    if StrongAccessible(s.m.h, Roots(s), x) {
      var p :| IsStrongPath(s.m.h, Roots(s), p) && p[|p| - 1] == x;
      StrongPathSame(s0, s, p);
    }
  }

  lemma {:induction false} StrongPathSame(s0: State, s: State, p: seq<Id>)
    requires StepRel(s0, s) && Safe(s0.Sw()) && RootsLive(s0) && Roots(s) == Roots(s0)
    requires IsStrongPath(s0.m.h, Roots(s0), p) || IsStrongPath(s.m.h, Roots(s), p)
    ensures IsStrongPath(s.m.h, Roots(s), p) && IsStrongPath(s0.m.h, Roots(s0), p) && Live(s0.Sw(), p[|p| - 1])
  {
    hide Points;
    hide StrongPoints;
    hide Live;
    if |p| > 1 {
      var q := p[..|p| - 1];
      StrongPathSame(s0, s, q);
      var x, r := p[|p| - 2], p[|p| - 1];
      StrongSame(s0, s, x, r);
      assert IsStrongPath(s.m.h, Roots(s), p) ==> StrongPoints(s.m.h, x, r);
      assert IsStrongPath(s0.m.h, Roots(s0), p) ==> StrongPoints(s0.m.h, x, r);
      StrongIsPointed(s0.m.h, x, r);
      assert p == q + [r];
    }
  }

  /** What is live refers strongly to the same objects after a sweep. */
  lemma StrongSame(s0: State, s: State, x: Id, r: Id)
    requires StepRel(s0, s) && Live(s0.Sw(), x)
    ensures StrongPoints(s.m.h, x, r) <==> StrongPoints(s0.m.h, x, r)
  {
    assert Live(s.Sw(), x);
    assert x in s.m.h && SameContents(s0.m.h, s.m.h, x);
    assert Points(s.m.h, x, r) <==> Points(s0.m.h, x, r);
  }

  /** Marking goes on in the same way after a sweep. */
  lemma SpreadsSame(s0: State, s: State, x: Id, r: Id)
    requires StepRel(s0, s) && Safe(s0.Sw()) && Live(s0.Sw(), x)
    ensures Spreads(s.m.h, x, r) <==> Spreads(s0.m.h, x, r)
    ensures Spreads(s0.m.h, x, r) ==> Live(s0.Sw(), r)
  {
    hide StrongPoints;
    hide Points;
    StrongSame(s0, s, x, r);
    StrongIsPointed(s0.m.h, x, r);
    if Points(s0.m.h, x, r) {
      assert Live(s0.Sw(), r) && Live(s.Sw(), r);
      assert r in s.m.h && SameContents(s0.m.h, s.m.h, r);
    }
  }

  lemma {:induction false} MarkPathSame(s0: State, s: State, roots: set<Id>, p: seq<Id>)
    requires StepRel(s0, s) && Safe(s0.Sw()) && (forall r :: r in roots ==> Live(s0.Sw(), r))
    requires IsMarkPath(s.m.h, roots, p)
    ensures IsMarkPath(s0.m.h, roots, p) && Live(s0.Sw(), p[|p| - 1])
  {
    hide Spreads;
    hide Points;
    hide Live;
    if |p| > 1 {
      var q := p[..|p| - 1];
      MarkPathSame(s0, s, roots, q);
      var x, r := p[|p| - 2], p[|p| - 1];
      assert Spreads(s.m.h, x, r);
      SpreadsSame(s0, s, x, r);
      assert p == q + [r];
    }
  }

  /** What a collection may keep after a sweep, it might have kept before. */
  lemma SameKeepable(s0: State, s: State)
    requires StepRel(s0, s) && Safe(s0.Sw()) && RootsLive(s0)
    ensures forall x :: x in Keepable(s) ==> MarkAccessible(s0.m.h, Roots(s0) + PendingUdata(s0.m.h), x)
  {
    hide Points;
    hide Spreads;
    hide Live;
    assert Roots(s) == Roots(s0);
    var roots := Roots(s) + PendingUdata(s.m.h);
    forall u | u in PendingUdata(s.m.h)
      ensures u in PendingUdata(s0.m.h)
    {
      assert SameContents(s0.m.h, s.m.h, u);
    }
    forall x | x in Keepable(s)
      ensures MarkAccessible(s0.m.h, Roots(s0) + PendingUdata(s0.m.h), x)
    {
      var p :| IsMarkPath(s.m.h, roots, p) && p[|p| - 1] == x;
      MarkPathSame(s0, s, roots, p);
      assert IsMarkPath(s0.m.h, Roots(s0) + PendingUdata(s0.m.h), p);
    }
  }

  lemma StepRelTrans(s0: State, s1: State, s2: State)
    requires StepRel(s0, s1) && StepRel(s1, s2)
    ensures StepRel(s0, s2)
  {
    UdataKeptTrans(s0.l.udata, s1.l.udata, s2.l.udata);
    hide UdataKept;
    hide Points;
    hide Live;
  }

  lemma StepRelRefl(s: State)
    ensures StepRel(s, s)
  {
  }

  /** luaC_fullgc may start in the middle of a mark phase: it then sweeps everything back to white. */
  lemma ResetInv(s: State, rs: set<Id>)
    requires Inv(s, rs) && (s.phase == Pause || s.phase == Propagate)
    ensures var s1 := s.(m := s.m.(gray := [], grayagain := [], weak := []), phase := SweepString, sweepstrgc := 0, sweepgc := 0);
      Inv(s1, rs) && StepRel(s, s1)
  {
    hide Points;
    hide Linked;
    hide MarkInv;
    var s1 := s.(m := s.m.(gray := [], grayagain := [], weak := []), phase := SweepString, sweepstrgc := 0, sweepgc := 0);
    InvLinked(s, rs);
    HasBuckets(s.m.h, s.l);
    InvBasic(s, rs);
    hide ColorsFit;
    hide Live;
    assert s1.Sw() == s.Sw();
    assert Roots(s1) == Roots(s);
    hide Bucket;
  }

  /** How much is left to do in a phase. */
  ghost function WorkLeft(s: State): nat {
    match s.phase
    case Pause => 0
    case Propagate => 2 * |Whites(s.m.c)| + |s.m.gray|
    case SweepString => if s.sweepstrgc < |s.l.strt| then |s.l.strt| - s.sweepstrgc else 0
    case Sweep => if SweepLeft(s) < 0 then 0 else SweepLeft(s)
    case Finalize => |s.l.tmudata|
  }

  /** The phases left before the cycle ends. */
  function PhasesLeft(p: Phase): nat {
    match p
    case Pause => 0
    case Propagate => 4
    case SweepString => 3
    case Sweep => 2
    case Finalize => 1
  }

  /** Every step of a cycle brings its end nearer. */
  lemma StepProgress(s0: State, s: State, rs: set<Id>)
    requires Inv(s0, rs) && Stepped(s0, s, rs) && s0.phase != Pause
    ensures PhasesLeft(s.phase) < PhasesLeft(s0.phase) || (s.phase == s0.phase && WorkLeft(s) < WorkLeft(s0))
  {
    hide Points;
    hide Linked;
    hide MarkInv;
    hide Live;
    hide AtomicDone;
    hide Basic;
  }

  /** Where a complete collection stands that began its marking in state `s0`, with nothing but `rs` to be marked:
      once the marking is over, everything that was strongly accessible is live, and only `rs` and the fixed objects are. */
  ghost predicate Collecting(s0: State, s: State, rs: set<Id>) {
    && Inv(s, rs) && SameRoot(s0, s)
    && if s.phase == Propagate
       then s.m.h == s0.m.h && s.l == s0.l
       else && (forall x :: Live(s.Sw(), x) ==> x in rs || x in s.fixed)
            && forall x :: StrongAccessible(s0.m.h, Roots(s0), x) ==> Live(s.Sw(), x)
  }

  ghost predicate NoFinalizers(h: Heap) {
    forall u :: u in h && h[u].Userdata? ==> !h[u].hasGc || h[u].finalized
  }

  lemma CollectingContains(s0: State, s: State, rs: set<Id>)
    requires Collecting(s0, s, rs) && ClosedUnder(s0.m.h, rs) && PendingUdata(s0.m.h) <= rs
    requires forall r :: r in Roots(s0) ==> r in rs
    ensures s.phase == Propagate ==> Contains(s, rs)
  {
    hide Points;
    hide Linked;
    hide Inv;
    if s.phase == Propagate {
      assert Roots(s) == Roots(s0);
      assert forall u :: Separable(s.m.h, s.m.c, u) ==> u in PendingUdata(s0.m.h);
    }
  }

  lemma CollectingStep(s0: State, s1: State, s2: State, rs: set<Id>)
    requires Collecting(s0, s1, rs) && Stepped(s1, s2, rs) && s1.phase != Pause && s1.phase != Finalize
    ensures Collecting(s0, s2, rs)
  {
    hide Points;
    hide Inv;
    hide StrongAccessible;
    if s1.phase == Propagate && s1.m.gray == [] {
      CollectingAtomic(s0, s1, s2, rs);
    } else if s1.phase != Propagate {
      SweepKeepsLive(s1, s2);
    }
  }

  lemma SweepKeepsLive(s1: State, s2: State)
    requires StepRel(s1, s2)
    ensures forall x :: Live(s2.Sw(), x) <==> Live(s1.Sw(), x)
    ensures SameProgram(s1, s2)
  {
    hide Points;
    hide Live;
  }

  lemma CollectingAtomic(s0: State, s1: State, s2: State, rs: set<Id>)
    requires Collecting(s0, s1, rs) && s1.phase == Propagate && AtomicDone(s1, s2, rs) && Inv(s2, rs) && s2.phase == SweepString
    ensures Collecting(s0, s2, rs)
  {
    hide Points;
    hide Inv;
    hide AllSettled;
    hide StrongAccessible;
    hide AtomicContents;
    hide FinalizersQueued;
    hide Live;
    assert Roots(s1) == Roots(s0);
  }

  lemma ContainsIs(s: State, rs: set<Id>)
    requires Contains(s, rs)
    ensures ClosedUnder(s.m.h, rs)
    ensures forall r :: r in Roots(s) ==> r in rs
    ensures s.phase == Propagate && s.m.gray == [] ==> forall u :: u in s.l.udata && Separable(s.m.h, s.m.c, u) ==> u in rs
  {
  }

  lemma SteppedPause(s0: State, s: State, rs: set<Id>)
    requires s0.phase == Pause && Inv(s, rs) && s.phase == Propagate
    requires s == s0.(m := s.m, phase := Propagate) && s.m.h == s0.m.h && Begun(s0, s) && NoBlackWeak(s)
    requires s.m.grayagain == [] && s.m.weak == []
    ensures Stepped(s0, s, rs)
  {
    hide Inv;
  }

  lemma SteppedPropagate(s0: State, s: State, rs: set<Id>)
    requires s0.phase == Propagate && Inv(s, rs)
    requires if s0.m.gray != []
             then s == s0.(m := s.m) && s.m.h == s0.m.h && Propagated(s0.m, s.m)
               && 2 * |Whites(s.m.c)| + |s.m.gray| < 2 * |Whites(s0.m.c)| + |s0.m.gray|
             else s.phase == SweepString && AtomicDone(s0, s, rs)
    ensures Stepped(s0, s, rs)
  {
    hide Inv;
    hide AtomicDone;
  }

  lemma SteppedSweepString(s0: State, s: State, rs: set<Id>)
    requires s0.phase == SweepString && Inv(s, rs) && StepRel(s0, s)
    requires |s.l.strt| == |s0.l.strt| && s.sweepstrgc == s0.sweepstrgc + 1
    requires s.phase == (if s.sweepstrgc >= |s.l.strt| then Sweep else SweepString)
    ensures Stepped(s0, s, rs)
  {
    hide Inv;
    hide StepRel;
  }

  lemma SteppedSweep(s0: State, s: State, rs: set<Id>)
    requires s0.phase == Sweep && Inv(s, rs) && StepRel(s0, s)
    requires s.phase == Finalize || (s.phase == Sweep && SweepLeft(s) < SweepLeft(s0))
    ensures Stepped(s0, s, rs)
  {
    hide Inv;
    hide StepRel;
  }

  lemma SteppedFinalize(s0: State, s: State, rs: set<Id>)
    requires s0.phase == Finalize && Inv(s, rs) && s.m.h.Keys == s0.m.h.Keys && SameRoot(s0, s)
    requires s0.l.tmudata == [] ==> s == s0.(phase := Pause)
    requires s0.l.tmudata != [] ==> s.phase == Finalize && s.l.tmudata == s0.l.tmudata[1..]
    requires s0.l.tmudata != [] ==> s.m.h == FinalizerCalled(s0.m.h, s0.running, s0.l.tmudata[0])
    ensures Stepped(s0, s, rs)
  {
    hide Inv;
  }

  /** After the step, the invariant holds with all remaining objects. */
  lemma SteppedAll(s0: State, s: State, rs: set<Id>)
    requires Stepped(s0, s, rs) && rs == s0.m.h.Keys
    ensures Inv(s, s.m.h.Keys)
  {
    hide Inv;
    hide StepRel;
    hide AtomicDone;
    if s.phase != Propagate {
      InvAnyRs(s, rs, s.m.h.Keys);
    }
  }

  lemma AccessibleAllLive(s: State, rs: set<Id>)
    requires Inv(s, rs)
    ensures forall x :: Accessible(s.m.h, Roots(s), x) || Pending(s.m.h, x) ==> Live(s.Sw(), x)
  {
    InvBasic(s, rs);
    hide Inv;
    hide Live;
    forall x | Accessible(s.m.h, Roots(s), x)
      ensures Live(s.Sw(), x)
    {
      AccessibleLive(s.Sw(), Roots(s), x);
    }
  }

  /** The roots one by one: the main thread with its table of globals, the running thread, the registry, the metatables
      of the basic types, and the userdata that wait for their finalizers. */
  lemma RootsOneByOne(s: State, rs: set<Id>)
    requires Inv(s, rs)
    ensures s.mainthread in s.m.h && s.m.h[s.mainthread].Thread? && Live(s.Sw(), s.mainthread) && Live(s.Sw(), s.running)
    ensures s.m.h[s.mainthread].gt.Ref? ==> Live(s.Sw(), s.m.h[s.mainthread].gt.id)
    ensures s.registry.Ref? ==> Live(s.Sw(), s.registry.id)
    ensures forall i :: 0 <= i < |s.mt| && s.mt[i].Ref? ==> Live(s.Sw(), s.mt[i].id)
    ensures forall u :: u in s.l.tmudata ==> Live(s.Sw(), u)
  {
    InvBasic(s, rs);
    InvBasics(s, rs);
    hide Inv;
    hide Live;
    assert s.mainthread in Roots(s) && s.running in Roots(s);
    assert s.registry.Ref? ==> s.registry in [s.registry] && s.registry.id in ValueIds([s.registry]);
    forall i | 0 <= i < |s.mt| && s.mt[i].Ref?
      ensures s.mt[i].id in Roots(s)
    {
      assert s.mt[i] in s.mt && s.mt[i].id in ValueIds(s.mt);
    }
    assert s.m.h[s.mainthread].gt.Ref? ==> Points(s.m.h, s.mainthread, s.m.h[s.mainthread].gt.id);
  }

  lemma SweepingStep(s0: State, s: State, rs: set<Id>)
    requires Stepped(s0, s, rs) && (s0.phase == SweepString || s0.phase == Sweep)
    ensures Inv(s, rs) && StepRel(s0, s) && (s.phase == SweepString || s.phase == Sweep || s.phase == Finalize)
  {
    hide Inv;
    hide StepRel;
  }

  lemma CollectingInv(s0: State, s: State, rs: set<Id>)
    requires Collecting(s0, s, rs)
    ensures Inv(s, rs)
  {
    hide Inv;
  }

  lemma CollectingStart(s1: State, s2: State, rs: set<Id>)
    requires Inv(s2, rs) && s2.phase == Propagate && s2 == s1.(m := s2.m, phase := Propagate) && s2.m.h == s1.m.h
    ensures Collecting(s2, s2, rs) && Roots(s2) == Roots(s1)
  {
    hide Inv;
  }

  /** When the sweep is over: `s0` is the state at the beginning, `s1` the one in which the marking began. */
  lemma CollectingEnds(s0: State, s1: State, s2: State, s: State)
    requires Inv(s0, s0.m.h.Keys) && Inv(s1, s1.m.h.Keys) && StepRel(s0, s1) && s1.phase == Finalize
    requires s2 == s1.(m := s2.m, phase := Propagate) && s2.m.h == s1.m.h
    requires Collecting(s2, s, Keepable(s1)) && s.phase == Finalize
    ensures Inv(s, s.m.h.Keys) && SameRoot(s0, s)
    ensures forall x :: StrongAccessible(s0.m.h, Roots(s0), x) ==> x in s.m.h
    ensures forall x :: x in s.m.h ==> MarkAccessible(s0.m.h, Roots(s0) + PendingUdata(s0.m.h), x) || x in s0.fixed
  {
    hide Points;
    hide MarkAccessible;
    hide StrongAccessible;
    InvBasic(s0, s0.m.h.Keys);
    SameReached(s0, s1);
    SameKeepable(s0, s1);
    AllLive(s, Keepable(s1));
    LiveIn(s);
    InvAnyRs(s, Keepable(s1), s.m.h.Keys);
    hide Inv;
    hide Live;
    hide Keepable;
    assert Roots(s2) == Roots(s1);
  }

  lemma RootsSame(s0: State, s: State)
    requires SameRoot(s0, s) && s.l.tmudata == s0.l.tmudata
    ensures Roots(s) == Roots(s0)
  {
  }

  /** One of the last steps, each of which calls a finalizer. */
  lemma FinalStep(s1: State, s2: State, rs: set<Id>)
    requires Stepped(s1, s2, rs) && s1.phase == Finalize
    ensures s2.m.h.Keys == s1.m.h.Keys && SameRoot(s1, s2) && (s2.phase == Pause ==> s2.l.tmudata == [])
    ensures s2.phase == Pause || s2.phase == Finalize
  {
    hide Inv;
  }

  lemma SameRootTrans(s0: State, s1: State, s2: State)
    requires SameRoot(s0, s1) && SameRoot(s1, s2)
    ensures SameRoot(s0, s2)
  {
  }

  /** Without finalizers the two bounds on what a collection keeps coincide, up to strings that only weak tables hold;
      without weak tables they are what the roots reach. */
  lemma BoundsCoincide(s: State, x: Id)
    requires NoFinalizers(s.m.h)
    ensures MarkAccessible(s.m.h, Roots(s) + PendingUdata(s.m.h), x) && !(x in s.m.h && s.m.h[x].String?) ==> StrongAccessible(s.m.h, Roots(s), x)
    ensures MarkAccessible(s.m.h, Roots(s) + PendingUdata(s.m.h), x) ==> Accessible(s.m.h, Roots(s), x)
    ensures NoWeakTables(s.m.h) && Accessible(s.m.h, Roots(s), x) ==> StrongAccessible(s.m.h, Roots(s), x)
  {
    hide Points;
    hide Accessible;
    hide StrongAccessible;
    hide MarkAccessible;
    if NoWeakTables(s.m.h) {
      AllStrong(s.m.h, Roots(s), x);
    }
    assert PendingUdata(s.m.h) == {};
    assert Roots(s) + {} == Roots(s);
    if MarkAccessible(s.m.h, Roots(s), x) {
      MarkIsAccessible(s.m.h, Roots(s), x);
      MarkIsStrong(s.m.h, Roots(s), x);
    }
  }

  lemma FixedStay(s: State)
    requires Inv(s, s.m.h.Keys)
    ensures forall x :: x in s.fixed ==> x in s.m.h
  {
    InvBasics(s, s.m.h.Keys);
  }

  /** The finalizers of the userdata that wait are called in the finalize phase, before the next cycle begins. */
  lemma SteppedQuiet(s0: State, s: State, rs: set<Id>)
    requires Stepped(s0, s, rs) && Quiet(s0)
    ensures Quiet(s)
  {
    hide Inv;
    hide StepRel;
    hide AtomicDone;
  }

  /** No step makes a weak table black. */
  lemma SteppedNoBlackWeak(s0: State, s: State, rs: set<Id>)
    requires Stepped(s0, s, rs) && NoBlackWeak(s0)
    ensures NoBlackWeak(s)
  {
    hide Inv;
    hide StepRel;
    hide AtomicDone;
    hide RootMarked;
  }

  lemma SameRootNow(s0: State, s: State)
    requires s.mainthread == s0.mainthread && s.running == s0.running && s.registry == s0.registry && s.mt == s0.mt
    requires s.fixed == s0.fixed
    ensures SameRoot(s0, s)
  {
  }

  lemma SameRootFixed(s0: State, s: State)
    requires SameRoot(s0, s)
    ensures s.fixed == s0.fixed
  {
  }

  lemma StepNotLast(s0: State, s: State, rs: set<Id>)
    requires Stepped(s0, s, rs) && s0.phase != Finalize
    ensures s.phase != Pause
  {
    hide Inv;
    hide StepRel;
    hide AtomicDone;
  }
}
