/** The two ways in which the colours go wrong, each as a run from a new state. */
module Exceptions {
  import opened Wrappers
  import opened LuaObjects
  import opened Marking
  import opened Places
  import opened States
  import opened Sweeps
  import opened Writes
  import opened TriColour
  import opened Cycle
  import opened Collector
  import opened Program

  /** Actions that leave the roots alone, and whose effect on the heap `After` tells. */
  predicate HeapOnly(a: Action) {
    !OfCollector(a) && !a.Closure? && !a.Return? && !a.TypeMeta? && !a.Resume? && !a.Fix?
  }

  ghost function AfterAll(h: Heap, t: Id, script: seq<Action>): Heap
    decreases |script|
  {
    if script == [] then h else AfterAll(After(h, t, script[0]), t, script[1..])
  }

  /** The roots are the main thread, number 0, and the metatables of the basic types. */
  ghost predicate RunsMain(s: State, h: Heap, mt: seq<Value>) {
    s.m.h == h && s.mainthread == s.running == 0 && s.registry == Nil && s.mt == mt
  }

  lemma RunsMainIs(s: State, h: Heap, mt: seq<Value>)
    ensures RunsMain(s, h, mt) <==> s.m.h == h && s.mainthread == s.running == 0 && s.registry == Nil && s.mt == mt
  {
  }

  lemma HeapOnlyAfter(s0: State, a: Action, s: State, h: Heap, mt: seq<Value>)
    requires RunsMain(s0, h, mt) && RootsAfter(s0, a, s) && HeapOnly(a) && s.m.h == After(h, 0, a)
    ensures RunsMain(s, After(h, 0, a), mt) && s.phase == s0.phase && s.l.tmudata == s0.l.tmudata
    ensures !OfCollector(a) && !a.Closure? && !a.Return?
  {
    hide After;
  }

  lemma HeapOnlyIs(a: Action)
    requires HeapOnly(a)
    ensures !OfCollector(a) && !a.Closure? && !a.Return?
  {
  }

  method Execute(g: GlobalState, script: seq<Action>)
    requires Inv(g.Snap(), g.objs.Keys) && g.mainthread == g.running == 0 && g.registry == Nil
    requires forall a :: a in script ==> HeapOnly(a)
    modifies g
    ensures Inv(g.Snap(), g.objs.Keys) && RunsMain(g.Snap(), old(AfterAll(g.objs, 0, script)), old(g.mt))
    ensures g.gcstate == old(g.gcstate) && g.tmudata == old(g.tmudata)
    decreases |script|
  {
    hide *;
    ghost var s0 := g.Snap();
    g.SnapIs();
    g.ViewIs();
    RunsMainIs(s0, g.objs, g.mt);
    AfterAllIs(g.objs, 0, script);
    if script != [] {
      HeapOnlyIs(script[0]);
      Perform(g, script[0]);
      g.SnapIs();
      g.ViewIs();
      HeapOnlyAfter(s0, script[0], g.Snap(), s0.m.h, s0.mt);
      RunsMainIs(g.Snap(), g.objs, s0.mt);
      Execute(g, script[1..]);
    }
  }

  lemma AfterAllIs(h: Heap, t: Id, script: seq<Action>)
    ensures script == [] ==> AfterAll(h, t, script) == h
    ensures script != [] ==> AfterAll(h, t, script) == AfterAll(After(h, t, script[0]), t, script[1..])
  {
  }

  /** `local u = newproxy(true); getmetatable(u).__gc = true; u = nil`, with the userdata in slot 2. */
  function DropUdata(): seq<Action> {
    [NewString(0, 1, 0),
     NewObject(1, 2, Table(Nil, [], [Entry(Ref(1), Plain(1))], Mode(false, false))),
     NewObject(2, 3, Userdata(Ref(2), Ref(2), false, true)),
     Load(0, 0), Load(1, 0), Load(2, 0)]
  }

  ghost function Dropped(): Heap {
    map[0 := Thread(Nil, [Plain(0), Plain(0), Plain(0)], []),
        1 := String(0),
        2 := Table(Nil, [], [Entry(Ref(1), Plain(1))], Mode(false, false)),
        3 := Userdata(Ref(2), Ref(2), false, true)]
  }

  lemma DropUdataHeap()
    ensures AfterAll(map[0 := Thread(Nil, [], [])], 0, DropUdata()) == Dropped()
    ensures forall a :: a in DropUdata() ==> HeapOnly(a)
  {
    var script := DropUdata();
    UdataMade();
    UdataLost();
    hide After;
    AfterAllSix(map[0 := Thread(Nil, [], [])], script);
  }

  /** The heap when the userdata has just been created. */
  ghost function Created(): Heap {
    Dropped()[0 := Thread(Nil, [Ref(1), Ref(2), Ref(3)], [])]
  }

  lemma UdataMade()
    ensures var script := DropUdata();
      After(After(After(map[0 := Thread(Nil, [], [])], 0, script[0]), 0, script[1]), 0, script[2]) == Created()
  {
    var h0: Heap := map[0 := Thread(Nil, [], [])];
    var h1: Heap := map[0 := Thread(Nil, [Ref(1)], []), 1 := String(0)];
    var ob2 := Table(Nil, [], [Entry(Ref(1), Plain(1))], Mode(false, false));
    var h2 := h1[2 := ob2][0 := Thread(Nil, [Ref(1), Ref(2)], [])];
    var ob3 := Userdata(Ref(2), Ref(2), false, true);
    RefsStacked(ob2, ob3);
    hide After;
    hide RefsAmong;
    StringMade(h0, [], 0, 1, 0, [Ref(1)]);
    ObjectMade(h1, [Ref(1)], 1, 2, ob2, [Ref(1), Ref(2)]);
    ObjectMade(h2, [Ref(1), Ref(2)], 2, 3, ob3, [Ref(1), Ref(2), Ref(3)]);
    assert h0[1 := String(0)][0 := Thread(Nil, [Ref(1)], [])] == h1;
    assert h2[3 := ob3][0 := Thread(Nil, [Ref(1), Ref(2), Ref(3)], [])] == Created();
  }

  lemma RefsStacked(ob2: Object, ob3: Object)
    requires ob2 == Table(Nil, [], [Entry(Ref(1), Plain(1))], Mode(false, false)) && ob3 == Userdata(Ref(2), Ref(2), false, true)
    ensures RefsAmong(ob2, String(0), [Ref(1)]) && RefsAmong(ob3, String(0), [Ref(1), Ref(2)])
  {
  }

  lemma UdataLost()
    ensures var script := DropUdata();
      After(After(After(Created(), 0, script[3]), 0, script[4]), 0, script[5]) == Dropped()
  {
    hide After;
    var h3 := Created();
    var h4 := h3[0 := Thread(Nil, [Plain(0), Ref(2), Ref(3)], [])];
    var h5 := h4[0 := Thread(Nil, [Plain(0), Plain(0), Ref(3)], [])];
    Loaded(h3, [Ref(1), Ref(2), Ref(3)], 0, 0, [Plain(0), Ref(2), Ref(3)]);
    Loaded(h4, [Plain(0), Ref(2), Ref(3)], 1, 0, [Plain(0), Plain(0), Ref(3)]);
    Loaded(h5, [Plain(0), Plain(0), Ref(3)], 2, 0, [Plain(0), Plain(0), Plain(0)]);
    assert h5[0 := Thread(Nil, [Plain(0), Plain(0), Plain(0)], [])] == Dropped();
  }

  lemma Loaded(h: Heap, stack: seq<Value>, i: nat, n: int, now: seq<Value>)
    requires 0 in h && h[0] == Thread(Nil, stack, []) && i < |stack| && now == stack[i := Plain(n)]
    ensures After(h, 0, Load(i, n)) == h[0 := Thread(Nil, now, [])]
  {
  }

  lemma StringMade(h: Heap, stack: seq<Value>, i: nat, id: Id, hash: nat, now: seq<Value>)
    requires 0 in h && h[0] == Thread(Nil, stack, []) && i == |stack| && now == stack + [Ref(id)] && id !in h
    ensures After(h, 0, NewString(i, id, hash)) == h[id := String(hash)][0 := Thread(Nil, now, [])]
  {
  }

  lemma ObjectMade(h: Heap, stack: seq<Value>, i: nat, id: Id, ob: Object, now: seq<Value>)
    requires 0 in h && h[0] == Thread(Nil, stack, []) && i == |stack| && now == stack + [Ref(id)] && id !in h
    requires (ob.Table? || ob.Userdata?) && RefsAmong(ob, String(0), stack)
    ensures After(h, 0, NewObject(i, id, ob)) == h[id := ob][0 := Thread(Nil, now, [])]
  {
    hide RefsAmong;
  }

  lemma AfterAllSix(h: Heap, script: seq<Action>)
    requires |script| == 6
    ensures AfterAll(h, 0, script) ==
            After(After(After(After(After(After(h, 0, script[0]), 0, script[1]), 0, script[2]), 0, script[3]), 0, script[4]), 0, script[5])
  {
    hide After;
    hide AfterAll;
    var h1 := After(h, 0, script[0]);
    AfterAllIs(h, 0, script);
    var h2 := After(h1, 0, script[1]);
    AfterAllIs(h1, 0, script[1..]);
    var h3 := After(h2, 0, script[2]);
    AfterAllIs(h2, 0, script[1..][1..]);
    var h4 := After(h3, 0, script[3]);
    AfterAllIs(h3, 0, script[1..][1..][1..]);
    var h5 := After(h4, 0, script[4]);
    AfterAllIs(h4, 0, script[1..][1..][1..][1..]);
    AfterAllIs(h5, 0, script[1..][1..][1..][1..][1..]);
    AfterAllIs(After(h5, 0, script[5]), 0, script[1..][1..][1..][1..][1..][1..]);
  }

  /** The program has dropped the only reference to the userdata, and only the main thread has been marked. */
  ghost predicate OnlyMain(s: State) {
    Inv(s, {0}) && s.phase == Propagate && s.m.h == Dropped() && Rooted(s) && s.l.tmudata == []
  }

  ghost predicate Rooted(s: State) {
    s.mainthread == s.running == 0 && s.registry == Nil && forall v :: v in s.mt ==> v == Nil
  }

  lemma MainContains(s: State)
    requires s.m.h == Dropped() && Rooted(s) && s.l.tmudata == []
    ensures s.phase != Propagate || s.m.gray != [] ==> Contains(s, {0})
  {
  }

  lemma MainStarts(s: State, mt: seq<Value>)
    requires Inv(s, s.m.h.Keys) && s.phase == Pause && s.l.tmudata == [] && RunsMain(s, Dropped(), mt)
    requires forall v :: v in mt ==> v == Nil
    ensures Inv(s, {0}) && s.m.h == Dropped() && Rooted(s)
  {
    hide Basic;
    hide Points;
  }

  lemma MainStep(s0: State, s: State)
    requires Stepped(s0, s, {0}) && s0.m.h == Dropped() && Rooted(s0) && s0.l.tmudata == []
    requires s0.phase == Pause || (s0.phase == Propagate && s0.m.gray != [])
    ensures OnlyMain(s)
  {
    hide Inv;
    hide Begun;
    hide Propagated;
  }

  lemma MainIs(s: State)
    requires OnlyMain(s)
    ensures Inv(s, {0}) && s.phase == Propagate && s.m.h == Dropped() && Rooted(s) && s.l.tmudata == []
  {
  }

  /** The invariant holds with all objects in place of those that the marking is confined to. */
  lemma InvAll(s: State, rs: set<Id>)
    requires Inv(s, rs) && s.phase == Propagate
    ensures Inv(s, s.m.h.Keys)
  {
    hide Points;
    hide Linked;
    InvBasic(s, rs);
    InvLinked(s, rs);
    hide Live;
    hide Basic;
    hide Lists;
    hide Shades;
    hide Traversed;
    AllClosed(s);
    MarkInvWider(s.m, Stale(s), rs, s.m.h.Keys);
  }

  /** The userdata is black and waits for its finalizer, and its metatable is the table 2, which is no root. */
  ghost predicate Waits(s: State) {
    && Rooted(s) && 3 in s.l.tmudata && 3 in s.m.c && s.m.c[3] == Black
    && 3 in s.m.h && s.m.h[3].Userdata? && s.m.h[3].metatable == Ref(2)
    && 0 in s.m.h && s.m.h[0].Thread? && s.m.h[0].gt == Nil && (2 in s.m.h ==> s.m.h[2].Table?)
  }

  lemma AtomicFacts(s0: State, s: State, rs: set<Id>)
    requires Stepped(s0, s, rs) && s0.phase == Propagate && s0.m.gray == []
    ensures FinalizersQueued(s0, s) && AtomicContents(s0.m.h, s.m) && SameRoots(s0, s)
    ensures forall r :: r in Roots(s) ==> NonWhite(s.m.c, r)
  {
    hide Inv;
    hide FinalizersQueued;
    hide AtomicContents;
    hide SameRoots;
    hide AllSettled;
    hide StrongMarked;
    hide FewerPoints;
    hide SamePoints;
  }

  lemma WaitingColor(s: State, rs: set<Id>, u: Id)
    requires Inv(s, rs) && u in s.l.tmudata && NonWhite(s.m.c, u)
    ensures u in s.m.h && s.m.h[u].Userdata? && u in s.m.c && s.m.c[u] == Black
  {
    hide Points;
    hide Linked;
    InvLinked(s, rs);
    InvBasic(s, rs);
  }

  /** The atomic step puts the userdata on the list of those to be finalized. */
  lemma MainAtomic(s0: State, s: State)
    requires OnlyMain(s0) && Inv(s, s.m.h.Keys) && s0.m.gray == [] && Stepped(s0, s, s0.m.h.Keys)
    ensures Waits(s)
  {
    hide Inv;
    hide Stepped;
    hide FinalizersQueued;
    AtomicFacts(s0, s, s0.m.h.Keys);
    MainQueued(s0, s);
    assert 3 in Roots(s);
    WaitingColor(s, s.m.h.Keys, 3);
  }

  lemma MainQueued(s0: State, s: State)
    requires OnlyMain(s0) && FinalizersQueued(s0, s)
    ensures 3 in s.l.tmudata
  {
    hide Inv;
    hide Spared;
    hide Linked;
    assert forall r :: r in Roots(s0) ==> r == 0;
    SparedServes(s0, {0});
    InvLinked(s0, {0});
    assert Pending(s0.m.h, 3);
  }

  lemma WaitsSwept(s0: State, s: State)
    requires Waits(s0) && StepRel(s0, s) && Inv(s, s.m.h.Keys)
    ensures Waits(s)
  {
    hide Points;
    hide Live;
    InvBasics(s, s.m.h.Keys);
    InvLinked(s, s.m.h.Keys);
    hide Inv;
    assert 3 in s.m.h && SameContents(s0.m.h, s.m.h, 3);
    assert 0 in s.m.h && SameContents(s0.m.h, s.m.h, 0);
    assert 2 in s.m.h ==> SameContents(s0.m.h, s.m.h, 2);
  }

  lemma DirectFromQueued(h: Heap, c: Colors, o: Id, x: Id)
    requires o in h && Greyable(h[o])
    ensures Direct(h, c, o, x) ==> x == o
  {
    hide Points;
    forall p | DirectPath(h, c, p) && p[0] == o
      ensures |p| == 1
    {
    }
  }

  lemma WaitsUnsettled(s: State)
    requires Waits(s) && Inv(s, s.m.h.Keys) && s.phase == Finalize
    ensures !WaitingSettled(s)
  {
    hide Inv;
    hide Direct;
    assert Points(s.m.h, 3, 2);
    RestingWhite(s, 3, 2);
    DirectFromQueued(s.m.h, s.m.c, 0, 2);
    assert forall v :: v in RootValues(s) ==> v == Ref(0) || v == Nil;
    assert !RootMarked(s, 2);
  }

  lemma RestingWhite(s: State, x: Id, r: Id)
    requires Inv(s, s.m.h.Keys) && s.phase == Finalize && Points(s.m.h, x, r) && (r in s.m.h ==> !s.m.h[r].Userdata?)
    ensures r in s.m.h && r in s.m.c && s.m.c[r].White?
  {
    AllContains(s);
    assert x in s.m.h;
    InvLinked(s, s.m.h.Keys);
    InvBasic(s, s.m.h.Keys);
    hide Points;
    hide Linked;
  }

  /** A full collection that is called while a userdata waits for its finalizer begins to mark with the userdata
      black and its metatable white. */
  method WaitingUserdata() returns (g: GlobalState)
    ensures Inv(g.Snap(), g.objs.Keys) && g.gcstate == Propagate && !BlackToMarked(g.Snap())
  {
    hide *;
    g := new GlobalState(0, 1);
    DropUdataHeap();
    ghost var mt := g.mt;
    Execute(g, DropUdata());
    ghost var s0 := g.Snap();
    g.SnapIs();
    g.ViewIs();
    MainStarts(s0, mt);
    RunsMainIs(s0, Dropped(), mt);
    MainContains(s0);
    g.SingleStepIn({0});
    MainStep(s0, g.Snap());
    MainIs(g.Snap());
    g.SnapIs();
    g.ViewIs();
    while g.gray != []
      invariant OnlyMain(g.Snap())
      decreases WorkLeft(g.Snap())
    {
      s0 := g.Snap();
      g.SnapIs();
      g.ViewIs();
      MainIs(s0);
      MainContains(s0);
      g.SingleStepIn({0});
      MainStep(s0, g.Snap());
      MainProgress(s0, g.Snap());
    }
    s0 := g.Snap();
    g.SnapIs();
    g.ViewIs();
    MainIs(s0);
    InvAll(s0, {0});
    g.SingleStep();
    g.SnapIs();
    g.ViewIs();
    MainAtomic(s0, g.Snap());
    s0 := g.Snap();
    g.FinishSweep();
    g.SnapIs();
    g.ViewIs();
    WaitsSwept(s0, g.Snap());
    WaitsUnsettled(g.Snap());
    AllContains(g.Snap());
    ContainsIs(g.Snap(), g.objs.Keys);
    g.MarkRoot(g.objs.Keys);
  }

  lemma MainProgress(s0: State, s: State)
    requires OnlyMain(s0) && OnlyMain(s) && Stepped(s0, s, {0}) && s0.m.gray != []
    ensures WorkLeft(s) < WorkLeft(s0)
  {
    hide Inv;
    hide Propagated;
  }

  /** A table with a field `__mode` becomes the metatable of a basic type. */
  function ShareTable(): seq<Action> {
    [NewString(0, 1, 0), NewString(1, 2, 1), NewObject(2, 3, Table(Nil, [], [Entry(Ref(1), Ref(2))], Mode(false, false)))]
  }

  ghost function Shared(): Heap {
    map[0 := Thread(Nil, [Ref(1), Ref(2), Ref(3)], []),
        1 := String(0),
        2 := String(1),
        3 := Table(Nil, [], [Entry(Ref(1), Ref(2))], Mode(false, false))]
  }

  lemma ShareTableHeap()
    ensures AfterAll(map[0 := Thread(Nil, [], [])], 0, ShareTable()) == Shared()
    ensures forall a :: a in ShareTable() ==> HeapOnly(a)
  {
    var script := ShareTable();
    var h0: Heap := map[0 := Thread(Nil, [], [])];
    var h1: Heap := map[0 := Thread(Nil, [Ref(1)], []), 1 := String(0)];
    var h2 := h1[2 := String(1)][0 := Thread(Nil, [Ref(1), Ref(2)], [])];
    var ob := Table(Nil, [], [Entry(Ref(1), Ref(2))], Mode(false, false));
    hide After;
    StringMade(h0, [], 0, 1, 0, [Ref(1)]);
    StringMade(h1, [Ref(1)], 1, 2, 1, [Ref(1), Ref(2)]);
    ObjectMade(h2, [Ref(1), Ref(2)], 2, 3, ob, [Ref(1), Ref(2), Ref(3)]);
    assert h0[1 := String(0)][0 := Thread(Nil, [Ref(1)], [])] == h1;
    assert h2[3 := ob][0 := Thread(Nil, [Ref(1), Ref(2), Ref(3)], [])] == Shared();
    AfterAllIs(h0, 0, script);
    AfterAllIs(h1, 0, script[1..]);
    AfterAllIs(h2, 0, script[1..][1..]);
    AfterAllIs(Shared(), 0, script[1..][1..][1..]);
  }

  /** The table has been marked as a root, and only threads wait for the atomic step. */
  ghost predicate Spreading(s: State) {
    && Inv(s, s.m.h.Keys) && s.phase == Propagate && NoBlackWeak(s) && s.m.h == Shared() && s.running == 0 && NonWhite(s.m.c, 3)
    && s.m.weak == [] && forall x :: x in s.m.grayagain ==> x in s.m.h && s.m.h[x].Thread?
  }

  lemma SpreadingIs(s: State)
    requires Spreading(s)
    ensures Inv(s, s.m.h.Keys) && s.phase == Propagate && NoBlackWeak(s) && s.m.h == Shared() && s.running == 0
  {
  }

  lemma SpreadingStarts(s0: State, s: State, i: nat)
    requires s0.phase == Pause && s0.m.h == Shared() && s0.running == 0 && i < |s0.mt| && s0.mt[i] == Ref(3)
    requires Stepped(s0, s, s0.m.h.Keys) && Inv(s, s.m.h.Keys)
    ensures Spreading(s)
  {
    hide Inv;
    hide Direct;
    DirectRefl(s0.m.h, s0.m.c, 3);
    assert RootValues(s0)[3 + i] == s0.mt[i];
    assert DirectValue(s0.m.h, s0.m.c, Ref(3), 3);
    assert RootMarked(s0, 3);
  }

  lemma SpreadingStep(s0: State, s: State)
    requires Spreading(s0) && s0.m.gray != [] && Stepped(s0, s, s0.m.h.Keys) && Inv(s, s.m.h.Keys)
    ensures Spreading(s) && WorkLeft(s) < WorkLeft(s0)
  {
    hide Inv;
    hide NoBlackWeak;
    SteppedNoBlackWeak(s0, s, s0.m.h.Keys);
    SpreadingLists(s0, s, s0.m.h.Keys);
    hide Stepped;
  }

  lemma SpreadingLists(s0: State, s: State, rs: set<Id>)
    requires Stepped(s0, s, rs) && s0.phase == Propagate && s0.m.gray != [] && s0.m.h == Shared() && NonWhite(s0.m.c, 3)
    requires s0.m.weak == [] && forall x :: x in s0.m.grayagain ==> x in s0.m.h && s0.m.h[x].Thread?
    ensures s.phase == Propagate && s.m.h == s0.m.h && s.running == s0.running && NonWhite(s.m.c, 3)
    ensures s.m.weak == [] && forall x :: x in s.m.grayagain ==> x in s.m.h && s.m.h[x].Thread?
    ensures WorkLeft(s) < WorkLeft(s0)
  {
    hide Inv;
    hide NoBlackWeak;
    assert Grows(s0.m.c, s.m.c);
    assert forall x :: x in s.m.h && s.m.h[x].Table? ==> s.m.h[x].mode == Mode(false, false);
    HasOne(s.m.weak);
    assert forall x :: x !in s.m.weak;
  }

  lemma HasOne(l: seq<Id>)
    ensures l == [] || exists x :: x in l
  {
    if l != [] {
      assert l[0] in l;
    }
  }

  lemma TableBlack(s: State)
    requires Spreading(s) && s.m.gray == []
    ensures 3 in s.m.c && s.m.c[3] == Black
  {
    hide Points;
    hide Linked;
    hide Traversed;
    assert !OnList(s.m, 3);
  }

  /** `setmetatable(t, t)`, which makes the table weak. */
  function Weakening(): Action {
    StoreIn(2, Table(Ref(3), [], [Entry(Ref(1), Ref(2))], Mode(false, true)), 2)
  }

  lemma TableWeakens(s: State)
    requires Spreading(s) && 3 in s.m.c && s.m.c[3] == Black
    ensures WeakensBlack(s, Weakening()) && !OfCollector(Weakening())
  {
    hide Inv;
    assert Program.StackObject(s.m.h, 0, 2) == Some(Ref(3));
    var e := s.m.h[3].node[0];
    assert e.key == Ref(1) && e.val == Ref(2);
    assert Holds(s.m.h[3], e.key) && Holds(s.m.h[3], e.val);
  }

  /** A table is made weak after its traversal, by storing a reference to an object that is not white: then there
      is no barrier, and the weak table is black. */
  method LateWeakTable() returns (g: GlobalState)
    ensures Inv(g.Snap(), g.objs.Keys) && g.gcstate == Propagate && !NoBlackWeak(g.Snap())
  {
    hide *;
    g := new GlobalState(0, 1);
    ShareTableHeap();
    ghost var mt := g.mt;
    Execute(g, ShareTable());
    ghost var s0 := g.Snap();
    g.SnapIs();
    g.ViewIs();
    RunsMainIs(s0, Shared(), mt);
    OfCollectorIs(TypeMeta(0, 2));
    Perform(g, TypeMeta(0, 2));
    ghost var s1 := g.Snap();
    g.SnapIs();
    g.ViewIs();
    TypeMetaShared(s0, s1, 0);
    Perform(g, Collect);
    g.SnapIs();
    g.ViewIs();
    SpreadingStarts(s1, g.Snap(), 0);
    while g.gray != []
      invariant Spreading(g.Snap())
      decreases WorkLeft(g.Snap())
    {
      s0 := g.Snap();
      g.SnapIs();
      g.ViewIs();
      SpreadingIs(s0);
      Perform(g, Collect);
      g.SnapIs();
      g.ViewIs();
      SpreadingStep(s0, g.Snap());
    }
    s0 := g.Snap();
    g.SnapIs();
    g.ViewIs();
    SpreadingIs(s0);
    TableBlack(s0);
    TableWeakens(s0);
    Perform(g, Weakening());
    g.SnapIs();
    RootsAfterPhase(s0, Weakening(), g.Snap());
  }

  lemma TypeMetaShared(s0: State, s: State, i: nat)
    requires s0.m.h == Shared() && s0.running == 0 && i < |s0.mt| && RootsAfter(s0, TypeMeta(i, 2), s)
    requires s.m.h == After(s0.m.h, 0, TypeMeta(i, 2))
    ensures s.phase == s0.phase && s.m.h == Shared() && s.running == 0 && i < |s.mt| && s.mt[i] == Ref(3)
  {
    assert StackSlot(s0.m.h, 0, 2) == Some(Ref(3));
  }
}
