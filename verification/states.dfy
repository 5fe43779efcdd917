/** The state of the collector and of the heap as a whole, and the invariant of every reachable state. */
module States {
  import opened LuaObjects
  import opened Marking
  import opened Places

  datatype Phase = Pause | Propagate | SweepString | Sweep | Finalize

  datatype State = State(
    m: MarkState, l: Links, cw: WhiteBit, fixed: set<Id>, phase: Phase,
    mainthread: Id, running: Id, registry: Value, mt: seq<Value>, sweepstrgc: nat, sweepgc: nat)
  {
    ghost function Sw(): Sweeping { Sweeping(m.h, m.c, cw, fixed) }
  }

  ghost function Roots(s: State): set<Id> {
    {s.mainthread, s.running} + ValueIds([s.registry]) + ValueIds(s.mt) + IdSet(s.l.tmudata)
  }

  ghost predicate Basic(s: State) {
    && s.m.c.Keys == s.m.h.Keys
    && Linked(s.m.h, s.l)
    && s.mainthread in s.m.h && s.m.h[s.mainthread].Thread? && s.mainthread in s.fixed
    && s.running in s.m.h && s.m.h[s.running].Thread?
    && (forall x :: x in s.fixed ==> x in s.m.h && (s.m.h[x].String? || x == s.mainthread))
    && ColorsFit(s.m.h, s.m.c)
  }

  /** Userdata are never gray and open upvalues are never black. */
  ghost predicate ColorsFit(h: Heap, c: Colors) {
    && (forall x :: x in h && x in c && h[x].Userdata? ==> c[x] != Gray)
    && (forall x :: x in h && x in c && IsOpen(h[x]) ==> c[x] != Black)
  }

  ghost predicate RootsLive(s: State) {
    forall r :: r in Roots(s) ==> Live(s.Sw(), r)
  }

  /** What the atomic step will look at again: threads and tables queued for it, the userdata left
      from the previous cycle and the open upvalues. */
  ghost function Stale(s: State): set<Id> {
    IdSet(s.m.grayagain) + IdSet(s.m.weak) + IdSet(s.l.tmudata) + IdSet(s.l.uvhead)
  }

  ghost predicate NoOtherWhite(c: Colors, cw: WhiteBit) {
    forall x :: x in c ==> c[x] != White(Other(cw))
  }

  ghost predicate Propagating(s: State, rs: set<Id>) {
    && MarkInv(s.m, Stale(s), rs)
    && NoOtherWhite(s.m.c, s.cw)
    && NonWhite(s.m.c, s.mainthread)
    && ValueMarked(s.m.c, s.registry)
  }

  /** Between two cycles everything has the current white. */
  ghost predicate Resting(s: State) {
    forall x :: x in s.m.h && x in s.m.c && x !in s.l.tmudata ==> s.m.c[x] == White(s.cw)
  }

  ghost predicate StringsSwept(h: Heap, c: Colors, cw: WhiteBit, buckets: nat, n: nat) {
    forall x :: x in h && x in c && h[x].String? && buckets > 0 && Bucket(h[x].hash, buckets) < n ==> c[x] == White(cw)
  }

  ghost predicate ThreadSwept(h: Heap, c: Colors, cw: WhiteBit, t: Id) {
    t in h && h[t].Thread? ==> forall u :: u in h[t].openupval && u in c ==> c[u] == White(cw)
  }

  ghost predicate ObjectsSwept(h: Heap, c: Colors, cw: WhiteBit, objects: seq<Id>) {
    forall x :: x in objects && x in c ==> c[x] == White(cw) && ThreadSwept(h, c, cw, x)
  }

  ghost predicate SweepingStrings(s: State) {
    s.sweepgc == 0 && s.sweepstrgc < |s.l.strt| && StringsSwept(s.m.h, s.m.c, s.cw, |s.l.strt|, s.sweepstrgc)
  }

  ghost predicate SweepingObjects(s: State) {
    && StringsSwept(s.m.h, s.m.c, s.cw, |s.l.strt|, |s.l.strt|)
    && s.sweepgc <= |s.l.rootgc + s.l.udata|
    && ObjectsSwept(s.m.h, s.m.c, s.cw, (s.l.rootgc + s.l.udata)[..s.sweepgc])
  }

  /** The invariant that every step of the collector and of the program keeps. */
  ghost predicate Inv(s: State, rs: set<Id>) {
    && Basic(s) && Safe(s.Sw()) && RootsLive(s)
    && match s.phase
       case Pause => Resting(s)
       case Propagate => Propagating(s, rs)
       case SweepString => SweepingStrings(s)
       case Sweep => SweepingObjects(s)
       case Finalize => Resting(s)
  }

  /** After the white flips, exactly what was marked or is fixed is live. */
  lemma FlipSafe(s: State, s1: State)
    requires Basic(s) && AllSettled(s.m.h, s.m.c) && NoOtherWhite(s.m.c, s.cw)
    requires forall r :: r in Roots(s) ==> NonWhite(s.m.c, r)
    requires forall u :: Pending(s.m.h, u) ==> NonWhite(s.m.c, u)
    requires s1 == s.(cw := Other(s.cw), phase := SweepString, sweepstrgc := 0, sweepgc := 0)
    ensures Inv(s1, {})
    ensures forall x :: Live(s1.Sw(), x) <==> NonWhite(s.m.c, x) || x in s.fixed
  {
    hide Points;
    hide Linked;
    HasBuckets(s.m.h, s.l);
    assert s.mainthread in Roots(s) && Roots(s1) == Roots(s);
    assert forall x :: Live(s1.Sw(), x) <==> NonWhite(s.m.c, x) || x in s.fixed;
    forall x, r | Live(s1.Sw(), x) && Points(s.m.h, x, r)
      ensures Live(s1.Sw(), r)
    {
      if !NonWhite(s.m.c, x) {
        LeafPoints(s.m.h, x, r);
      }
      assert Settled(s.m.h, s.m.c, x);
    }
  }

  lemma HasBuckets(h: Heap, l: Links)
    requires Linked(h, l)
    ensures |l.strt| > 0
  {
  }

  lemma LeafPoints(h: Heap, x: Id, r: Id)
    requires x in h && Points(h, x, r)
    ensures !h[x].String?
  {
  }

  /** Only the propagate phase looks at `rs`. */
  lemma InvAnyRs(s: State, rs: set<Id>, rs2: set<Id>)
    requires Inv(s, rs) && s.phase != Propagate
    ensures Inv(s, rs2)
  {
  }

  lemma GrowsTrans(c0: Colors, c1: Colors, c2: Colors)
    requires Grows(c0, c1) && Grows(c1, c2)
    ensures Grows(c0, c2)
  {
  }

  lemma GrowsKeeps(c0: Colors, c1: Colors, cw: WhiteBit)
    requires Grows(c0, c1)
    ensures c1.Keys == c0.Keys && forall x :: NonWhite(c0, x) ==> NonWhite(c1, x)
    ensures NoOtherWhite(c0, cw) ==> NoOtherWhite(c1, cw)
  {
  }

  lemma SeparatedPoints(h: Heap, h1: Heap)
    requires SeparatedFrom(h, h1)
    ensures SamePoints(h, h1)
  {
    forall x, r
      ensures Points(h1, x, r) <==> Points(h, x, r)
    {
      if x in h && IsOpen(h[x]) {
        var th := h[x].cell.th;
        assert th in h ==> (h1[th].Thread? <==> h[th].Thread?);
      }
    }
  }

  lemma SeparatedLists(m: MarkState, h1: Heap)
    requires Lists(m) && Shades(m) && SeparatedFrom(m.h, h1)
    ensures Lists(m.(h := h1)) && Shades(m.(h := h1))
  {
    assert forall x :: OnList(m, x) <==> OnList(m.(h := h1), x);
  }

  lemma SeparatedMarkInv(m: MarkState, stale: set<Id>, stale2: set<Id>, rs: set<Id>, h1: Heap)
    requires MarkInv(m, stale, rs) && SeparatedFrom(m.h, h1) && stale <= stale2
    ensures MarkInv(m.(h := h1), stale2, rs)
  {
    SeparatedPoints(m.h, h1);
    var m1 := m.(h := h1);
    SeparatedLists(m, h1);
    hide Points;
    hide StrongPoints;
    hide Lists;
    hide Shades;
    forall x | NonWhite(m1.c, x) && x !in m1.gray && x !in stale2
      ensures TraversedOne(m1, x)
    {
      assert TraversedOne(m, x);
      if x in m.weak {
        forall r | StrongPoints(h1, x, r)
          ensures NonWhite(m.c, r)
        {
        }
      }
    }
  }

  /** Heaps that differ only in what tables and userdata hold. */
  ghost predicate SameShape(h: Heap, h1: Heap) {
    && h1.Keys == h.Keys
    && forall x :: x in h ==> h1[x] == h[x] || (h[x].Table? && h1[x].Table?) || (h[x].Userdata? && h1[x].Userdata?)
  }

  lemma SameShapeStrings(h: Heap, h1: Heap, strt: seq<seq<Id>>)
    requires StringsLinked(h, strt) && SameShape(h, h1)
    ensures StringsLinked(h1, strt)
  {
  }

  lemma SameShapeUpVals(h: Heap, h1: Heap, uvhead: seq<Id>)
    requires UpValsLinked(h, uvhead) && SameShape(h, h1)
    ensures UpValsLinked(h1, uvhead)
  {
    assert forall x :: x in h && (h[x].Thread? || h[x].UpVal?) ==> h1[x] == h[x];
    assert forall x :: x in h1 && (h1[x].Thread? || h1[x].UpVal?) ==> h1[x] == h[x];
  }

  lemma SameShapeLinked(h: Heap, l: Links, h1: Heap)
    requires Linked(h, l) && SameShape(h, h1)
    ensures Linked(h1, l)
  {
    hide StringsLinked;
    hide UpValsLinked;
    SameShapeStrings(h, h1, l.strt);
    SameShapeUpVals(h, h1, l.uvhead);
    assert forall x :: x in h ==> (h1[x].String? <==> h[x].String?) && (h1[x].Userdata? <==> h[x].Userdata?) && (IsOpen(h1[x]) <==> IsOpen(h[x]));
  }

  lemma SeparatedLinked(h: Heap, l: Links, h1: Heap, kept: seq<Id>, moved: seq<Id>)
    requires Linked(h, l) && SeparatedFrom(h, h1) && Split(l.udata, kept, moved)
    ensures Linked(h1, l.(udata := kept, tmudata := l.tmudata + moved))
  {
    hide StringsLinked;
    hide UpValsLinked;
    SameShapeLinked(h, l, h1);
    NoDupConcat(l.tmudata, moved);
  }

  lemma AtomicStart(s: State, rs: set<Id>)
    requires Inv(s, rs) && s.phase == Propagate
    requires forall r :: r in Roots(s) ==> r in rs
    ensures MarkInv(s.m, IdSet(s.m.grayagain) + IdSet(s.m.weak) + IdSet(s.l.tmudata) + IdSet(s.l.uvhead), rs)
    ensures forall x :: x in s.l.uvhead ==> x in s.m.h && IsOpen(s.m.h[x])
    ensures s.running in rs
    ensures forall r :: Ref(r) in s.mt ==> r in rs
  {
    assert s.running in Roots(s);
    forall r | Ref(r) in s.mt
      ensures r in rs
    {
      assert r in ValueIds(s.mt);
      assert r in Roots(s);
    }
  }

  lemma IdSetsMoved(stale: set<Id>, stale2: set<Id>, moved: seq<Id>, now: seq<Id>)
    requires stale <= IdSet(moved) + stale2
    requires forall x :: x in moved ==> x in now
    ensures forall x :: x in stale ==> x in stale2 || x in now
  {
  }

  lemma KeepsMarks(c0: Colors, c1: Colors, v: Value)
    requires Grows(c0, c1) && ValueMarked(c0, v)
    ensures ValueMarked(c1, v)
    ensures v.Ref? ==> NonWhite(c1, v.id)
  {
  }

  lemma KeepsAllMarks(c0: Colors, c1: Colors, vs: seq<Value>)
    requires Grows(c0, c1) && forall r :: Ref(r) in vs ==> NonWhite(c0, r)
    ensures forall r :: Ref(r) in vs ==> NonWhite(c1, r)
  {
  }

  /** An unreached userdata with a finalizer that has not been called. */
  predicate Separable(h: Heap, c: Colors, u: Id) {
    u in h && u in c && h[u].Userdata? && c[u].White? && h[u].hasGc && !h[u].finalized
  }

  /** The userdata of the list that are to be finalized, and the others, in the order of the list. */
  function Waiting(h: Heap, c: Colors, l: seq<Id>): seq<Id> {
    if l == [] then []
    else Waiting(h, c, l[..|l| - 1]) + if Separable(h, c, l[|l| - 1]) then [l[|l| - 1]] else []
  }

  function Staying(h: Heap, c: Colors, l: seq<Id>): seq<Id> {
    if l == [] then []
    else Staying(h, c, l[..|l| - 1]) + if Separable(h, c, l[|l| - 1]) then [] else [l[|l| - 1]]
  }

  lemma OneMore(h: Heap, c: Colors, l: seq<Id>, u: Id)
    ensures Waiting(h, c, l + [u]) == Waiting(h, c, l) + if Separable(h, c, u) then [u] else []
    ensures Staying(h, c, l + [u]) == Staying(h, c, l) + if Separable(h, c, u) then [] else [u]
  {
    assert (l + [u])[..|l|] == l;
  }

  /** The unreached userdata of the list have been flagged as finalized. */
  ghost predicate Flagged(h: Heap, c: Colors, l: seq<Id>, h1: Heap) {
    && h1.Keys == h.Keys
    && (forall x :: x in l ==> x in h && h[x].Userdata? && x in c)
    && forall x :: x in h ==> h1[x] == if x in l && c[x].White? then h[x].(finalized := true) else h[x]
  }

  lemma NothingSeparated(h: Heap, c: Colors)
    ensures Flagged(h, c, [], h) && Split([], [], []) && Waiting(h, c, []) == [] && Staying(h, c, []) == []
  {
  }

  lemma FlaggedMore(h: Heap, c: Colors, l: seq<Id>, h1: Heap, u: Id)
    requires Flagged(h, c, l, h1) && u !in l && u in h && h[u].Userdata? && u in c
    ensures u in h1 && h1[u] == h[u] && Separable(h1, c, u) == Separable(h, c, u)
    ensures Flagged(h, c, l + [u], if c[u].White? then h1[u := h1[u].(finalized := true)] else h1)
  {
    assert forall x :: x in l + [u] <==> x in l || x == u;
  }

  /** The userdata of the list that still have a finalizer to be called have been reached. */
  ghost predicate PendingReached(h: Heap, c: Colors, l: seq<Id>) {
    forall u :: u in l && Pending(h, u) ==> NonWhite(c, u)
  }

  lemma FlaggedPending(h: Heap, c: Colors, l: seq<Id>, h1: Heap, kept: seq<Id>)
    requires Flagged(h, c, l, h1) && forall x :: x in kept ==> x in l
    ensures PendingReached(h1, c, kept)
  {
  }

  lemma FlaggedFrom(h: Heap, c: Colors, l: seq<Id>, h1: Heap)
    requires Flagged(h, c, l, h1)
    ensures SeparatedFrom(h, h1)
  {
  }

  ghost predicate NoWeakTables(h: Heap) {
    forall t :: t in h && h[t].Table? ==> !h[t].mode.weakKey && !h[t].mode.weakValue
  }

  /** How far the state `s` is from `s0`, where the atomic step began, when all marking is done. */
  ghost predicate Finished(s0: State, s: State, rs: set<Id>) {
    && MarkInv(s.m, {}, rs) && s.m.gray == []
    && SameRoots(s0, s) && s.phase == s0.phase
    && s.m.h.Keys == s0.m.h.Keys && SamePoints(s0.m.h, s.m.h) && (NoWeakTables(s0.m.h) ==> s.m.weak == [])
    && Linked(s.m.h, s.l)
    && Grows(s0.m.c, s.m.c)
    && (forall r :: r in Roots(s) ==> NonWhite(s.m.c, r))
    && s.mainthread in s.m.h && s.m.h[s.mainthread].Thread? && s.running in s.m.h && s.m.h[s.running].Thread?
    && (forall x :: x in s.fixed ==> x in s.m.h && (s.m.h[x].String? || x == s.mainthread))
    && s.mainthread in s.fixed
    && NoOtherWhite(s.m.c, s.cw)
    && ColorsFit(s.m.h, s.m.c)
    && (forall u :: u in s.l.tmudata ==> u in s.m.h && s.m.h[u].Userdata?)
    && (forall u :: Pending(s.m.h, u) ==> NonWhite(s.m.c, u))
    && (WeakNotBlack(s0.m.h, s0.m.c) ==> WeakListed(s.m))
  }

  /** The roots are the same, except for the userdata that the atomic step put on their list. */
  ghost predicate SameRoots(s0: State, s: State) {
    && s.mainthread == s0.mainthread && s.running == s0.running && s.registry == s0.registry && s.mt == s0.mt
    && s.fixed == s0.fixed && s.l.strt == s0.l.strt
    && s0.l.tmudata <= s.l.tmudata
    && ((forall u :: u in s0.l.udata ==> !Separable(s0.m.h, s0.m.c, u)) ==> s.l.tmudata == s0.l.tmudata)
  }

  /** What the atomic step achieves. `rs` contains all that is marked; without weak tables no reference is lost. */
  ghost predicate AtomicDone(s0: State, s: State, rs: set<Id>) {
    && SameRoots(s0, s) && s.cw == Other(s0.cw)
    && AllSettled(s.m.h, s.m.c) && (forall r :: r in Roots(s) ==> NonWhite(s.m.c, r))
    && (forall x :: Live(s.Sw(), x) <==> NonWhite(s.m.c, x) || x in s.fixed)
    && (forall x :: NonWhite(s.m.c, x) ==> x in rs)
    && FewerPoints(s0.m.h, s.m.h) && s.m.h.Keys == s0.m.h.Keys
    && (NoWeakTables(s0.m.h) ==> SamePoints(s0.m.h, s.m.h))
    && AtomicContents(s0.m.h, s.m) && FinalizersQueued(s0, s) && StrongMarked(s0, s.m.c)
    && TablesCleared(s0.m.h, s.m) && FinalizersOnce(s0, s) && (WeakNotBlack(s0.m.h, s0.m.c) ==> WeakListed(s.m))
  }

  /** Whatever the roots reach strongly is marked. */
  ghost predicate StrongMarked(s0: State, c: Colors) {
    forall x :: StrongAccessible(s0.m.h, Roots(s0), x) ==> NonWhite(c, x)
  }

  lemma StrongMarkedNow(s0: State, s: State, rs: set<Id>, c: Colors)
    requires MarkInv(s.m, {}, rs) && s.m.gray == [] && SeparatedFrom(s0.m.h, s.m.h) && Grows(s.m.c, c)
    requires forall r :: r in Roots(s0) ==> NonWhite(s.m.c, r)
    ensures StrongMarked(s0, c)
  {
    hide Points;
    hide StrongPoints;
    WeakTraversed(s.m, rs);
    hide MarkInv;
    forall x, r | NonWhite(s.m.c, x) && StrongPoints(s0.m.h, x, r)
      ensures NonWhite(s.m.c, r)
    {
      SeparatedStrong(s0.m.h, s.m.h, x, r);
      if x in s.m.weak {
        var j :| 0 <= j < |s.m.weak| && s.m.weak[j] == x;
        assert StrongSettled(s.m.h, s.m.c, s.m.weak[j]);
      } else {
        StrongIsPointed(s.m.h, x, r);
        assert Settled(s.m.h, s.m.c, x);
      }
    }
    forall x | StrongAccessible(s0.m.h, Roots(s0), x)
      ensures NonWhite(c, x)
    {
      var p :| IsStrongPath(s0.m.h, Roots(s0), p) && p[|p| - 1] == x;
      StrongPathInside(s0.m.h, Roots(s0), p, iset y | NonWhite(s.m.c, y));
    }
  }

  lemma SeparatedStrong(h: Heap, h1: Heap, x: Id, r: Id)
    requires SeparatedFrom(h, h1) && StrongPoints(h, x, r)
    ensures StrongPoints(h1, x, r)
  {
  }

  lemma FinishedRoots(s0: State, s: State, rs: set<Id>)
    requires Finished(s0, s, rs)
    ensures MarkInv(s.m, {}, rs) && s.m.gray == [] && forall r :: r in Roots(s0) ==> NonWhite(s.m.c, r)
  {
    hide MarkInv;
    hide Points;
    hide Linked;
    assert forall u :: u in s0.l.tmudata ==> u in s.l.tmudata;
    assert forall r :: r in Roots(s0) ==> r in Roots(s);
  }

  /** What is marked or accessible when the atomic step begins. */
  ghost function Spared(s: State): set<Id> {
    set x | x in s.m.h && MarkAccessible(s.m.h, Roots(s) + (set y | y in s.m.c && !s.m.c[y].White?), x)
  }

  /** The userdata that the roots reach are the same. */
  ghost predicate ReachedAsBefore(s0: State, s: State) {
    forall u :: u in s0.m.h && u in s.m.h && s0.m.h[u].Userdata? && StrongAccessible(s0.m.h, Roots(s0), u) ==> s.m.h[u] == s0.m.h[u]
  }

  /** All other userdata are flagged, with a finalizer or without one, and those with a finalizer that has not been
      called are put on the list. What the roots reach is not flagged, unless userdata of an earlier cycle still wait. */
  ghost predicate FinalizersQueued(s0: State, s: State) {
    && (forall u :: u in s0.l.udata && Pending(s0.m.h, u) && u !in Spared(s0) ==> u in s.l.tmudata)
    && (forall u :: u in s0.l.udata && u !in Spared(s0) && u in s.m.h && s.m.h[u].Userdata? ==> s.m.h[u].finalized)
    && (s0.l.tmudata == [] ==> ReachedAsBefore(s0, s))
  }

  ghost predicate Before(l: seq<Id>, x: Id, y: Id) {
    exists p, q {:trigger l[p], l[q]} :: 0 <= p < q < |l| && l[p] == x && l[q] == y
  }

  /** The elements of `part` are in `l`, in the same order. */
  ghost predicate SameOrder(l: seq<Id>, part: seq<Id>) {
    && (forall x :: x in part ==> x in l)
    && forall i, j :: 0 <= i < j < |part| ==> Before(l, part[i], part[j])
  }

  /** Of the userdata with a finalizer that has not been called, just those are flagged that are put on the list, in
      the order in which they were linked. Nothing else is put there, and nothing that the roots reach, unless
      userdata of an earlier cycle still wait. */
  ghost predicate FinalizersOnce(s0: State, s: State) {
    && (forall u :: u in s0.l.udata && Pending(s0.m.h, u) ==> (u in s.l.tmudata <==> !Pending(s.m.h, u)))
    && (forall u :: u in s.l.tmudata && u !in s0.l.tmudata ==> u in s0.l.udata && Pending(s0.m.h, u))
    && s0.l.tmudata <= s.l.tmudata && SameOrder(s0.l.udata, s.l.tmudata[|s0.l.tmudata|..]) && SameOrder(s0.l.udata, s.l.udata)
    && (s0.l.tmudata == [] ==> forall u :: u in s.l.tmudata ==> !StrongAccessible(s0.m.h, Roots(s0), u))
  }

  lemma OrderMore(l: seq<Id>, part: seq<Id>, u: Id)
    requires SameOrder(l, part)
    ensures SameOrder(l + [u], part) && SameOrder(l + [u], part + [u])
  {
    var part1 := part + [u];
    forall i, j | 0 <= i < j < |part1|
      ensures Before(l + [u], part1[i], part1[j])
    {
      assert part1[i] == part[i] && part[i] in part;
      if j < |part| {
        BeforeMore(l, u, part[i], part[j]);
      } else {
        LastAfter(l, u, part[i]);
      }
    }
    forall i, j | 0 <= i < j < |part|
      ensures Before(l + [u], part[i], part[j])
    {
      BeforeMore(l, u, part[i], part[j]);
    }
  }

  lemma BeforeMore(l: seq<Id>, u: Id, x: Id, y: Id)
    requires Before(l, x, y)
    ensures Before(l + [u], x, y)
  {
    var p, q {:trigger l[p], l[q]} :| 0 <= p < q < |l| && l[p] == x && l[q] == y;
    assert (l + [u])[p] == x && (l + [u])[q] == y;
  }

  lemma LastAfter(l: seq<Id>, u: Id, x: Id)
    requires x in l
    ensures Before(l + [u], x, u)
  {
    var p :| 0 <= p < |l| && l[p] == x;
    assert (l + [u])[p] == x && (l + [u])[|l|] == u;
  }

  lemma {:induction false} WaitingOrder(h: Heap, c: Colors, l: seq<Id>)
    ensures SameOrder(l, Waiting(h, c, l)) && SameOrder(l, Staying(h, c, l))
    ensures forall u :: u in Waiting(h, c, l) ==> Separable(h, c, u)
  {
    hide SameOrder;
    hide Separable;
    if l == [] {
      OrderNone();
    } else {
      var l1, u := l[..|l| - 1], l[|l| - 1];
      WaitingOrder(h, c, l1);
      OrderMore(l1, Waiting(h, c, l1), u);
      OrderMore(l1, Staying(h, c, l1), u);
      assert l1 + [u] == l;
      OneMore(h, c, l1, u);
      assert Waiting(h, c, l1) + [] == Waiting(h, c, l1) && Staying(h, c, l1) + [] == Staying(h, c, l1);
    }
  }

  lemma OrderNone()
    ensures SameOrder([], [])
  {
  }

  /** When the userdata are separated, whatever the roots reach has been marked. */
  lemma RootsReached(s0: State, m: MarkState, rs: set<Id>)
    requires MarkInv(m, IdSet(s0.l.tmudata), rs) && m.gray == [] && m.h == s0.m.h && s0.l.tmudata == []
    requires NonWhite(m.c, s0.mainthread) && ValueMarked(m.c, s0.registry)
    requires NonWhite(m.c, s0.running) && forall r :: Ref(r) in s0.mt ==> NonWhite(m.c, r)
    ensures StrongMarked(s0, m.c)
  {
    hide MarkInv;
    assert IdSet(s0.l.tmudata) == {};
    assert SeparatedFrom(m.h, m.h);
    StrongMarkedNow(s0, s0.(m := m), rs, m.c);
  }

  lemma MarksLater(s0: State, rs: set<Id>, c1: Colors)
    requires Inv(s0, rs) && s0.phase == Propagate && Grows(s0.m.c, c1)
    ensures NonWhite(c1, s0.mainthread) && ValueMarked(c1, s0.registry)
  {
    hide MarkInv;
    hide Linked;
    hide Safe;
  }

  lemma FinalizersOnceNow(s0: State, c1: Colors, s: State, moved: seq<Id>)
    requires moved == Waiting(s0.m.h, c1, s0.l.udata) && s.l.tmudata == s0.l.tmudata + moved
    requires s.l.udata == Staying(s0.m.h, c1, s0.l.udata)
    requires Flagged(s0.m.h, c1, s0.l.udata, s.m.h) && Linked(s0.m.h, s0.l)
    requires s0.l.tmudata == [] ==> StrongMarked(s0, c1)
    ensures FinalizersOnce(s0, s)
  {
    hide StrongAccessible;
    hide StringsLinked;
    hide UpValsLinked;
    WaitingOrder(s0.m.h, c1, s0.l.udata);
    assert s.l.tmudata[|s0.l.tmudata|..] == moved;
    OrderIn(s0.l.udata, moved);
    hide SameOrder;
    forall u | u in s0.l.udata && Pending(s0.m.h, u)
      ensures u in s.l.tmudata <==> !Pending(s.m.h, u)
    {
      if c1[u].White? {
        WaitingHas(s0.m.h, c1, s0.l.udata, u);
      } else {
        assert u !in moved && u !in s0.l.tmudata;
      }
    }
  }

  lemma OrderIn(l: seq<Id>, part: seq<Id>)
    requires SameOrder(l, part)
    ensures forall x :: x in part ==> x in l
  {
  }

  lemma StayingIn(h: Heap, c: Colors, l: seq<Id>)
    ensures forall x :: x in Staying(h, c, l) ==> x in l
  {
    WaitingOrder(h, c, l);
    OrderIn(l, Staying(h, c, l));
  }

  lemma OnceLater(s0: State, s: State, s1: State)
    requires FinalizersOnce(s0, s) && s1.l == s.l && SameButTables(s.m.h, s1.m.h)
    ensures FinalizersOnce(s0, s1)
  {
    hide StrongAccessible;
    hide SameOrder;
    forall u
      ensures Pending(s1.m.h, u) <==> Pending(s.m.h, u)
    {
      assert u in s.m.h ==> s1.m.h[u] == s.m.h[u] || (s.m.h[u].Table? && s1.m.h[u].Table?);
    }
  }

  /** Marking can be confined to what is spared. */
  lemma SparedServes(s: State, rs: set<Id>)
    requires Inv(s, rs) && s.phase == Propagate && (forall r :: r in Roots(s) ==> r in rs)
    ensures Inv(s, Spared(s)) && (forall r :: r in Roots(s) ==> r in Spared(s)) && Spared(s) <= rs
  {
    hide Points;
    hide Spreads;
    hide Linked;
    hide MarkAccessible;
    hide Lists;
    hide Shades;
    hide Traversed;
    var roots := Roots(s) + (set y | y in s.m.c && !s.m.c[y].White?);
    forall x | MarkAccessible(s.m.h, roots, x)
      ensures x in rs && x in Spared(s)
    {
      MarkAccessibleIn(s.m.h, roots, rs, x);
    }
    forall x, r | x in Spared(s) && Spreads(s.m.h, x, r)
      ensures r in Spared(s)
    {
      MarkAccessibleStep(s.m.h, roots, x, r);
    }
    forall r | r in roots
      ensures r in Spared(s)
    {
      MarkAccessibleRoot(s.m.h, roots, r);
    }
  }

  lemma MarkInvWider(m: MarkState, stale: set<Id>, rs0: set<Id>, rs: set<Id>)
    requires MarkInv(m, stale, rs0) && rs0 <= rs && ClosedUnder(m.h, rs)
    ensures MarkInv(m, stale, rs) && forall x :: NonWhite(m.c, x) ==> x in rs0
  {
    hide Points;
    hide Lists;
    hide Shades;
    hide Traversed;
  }

  lemma InvClosed(s: State, rs: set<Id>)
    requires Inv(s, rs) && s.phase == Propagate
    ensures ClosedUnder(s.m.h, rs)
  {
  }

  lemma FinalizersQueuedNow(s0: State, c1: Colors, s: State, moved: seq<Id>)
    requires (forall x :: NonWhite(c1, x) ==> x in Spared(s0)) && c1.Keys == s0.m.h.Keys
    requires moved == Waiting(s0.m.h, c1, s0.l.udata) && s.l.tmudata == s0.l.tmudata + moved
    requires Flagged(s0.m.h, c1, s0.l.udata, s.m.h) && (s0.l.tmudata == [] ==> StrongMarked(s0, c1))
    ensures FinalizersQueued(s0, s)
  {
    hide MarkAccessible;
    hide StrongAccessible;
    hide Waiting;
    forall u | u in s0.l.udata && Pending(s0.m.h, u) && u !in Spared(s0)
      ensures u in s.l.tmudata
    {
      WaitingHas(s0.m.h, c1, s0.l.udata, u);
    }
  }

  lemma {:induction false} WaitingHas(h: Heap, c: Colors, l: seq<Id>, u: Id)
    requires u in l && Separable(h, c, u)
    ensures u in Waiting(h, c, l)
  {
    if l[|l| - 1] != u {
      WaitingHas(h, c, l[..|l| - 1], u);
    }
  }

  /** All contents are the same, except that the tables on the weak list have been cleared, and that userdata
      may have been flagged as finalized. */
  ghost predicate AtomicContents(h0: Heap, m: MarkState) {
    && m.h.Keys == h0.Keys
    && forall x :: x in h0 ==>
         match h0[x]
         case Userdata(_, _, _, _) => m.h[x] == h0[x] || m.h[x] == h0[x].(finalized := true)
         case Table(_, _, _, _) => m.h[x] == if x in m.weak then TableLeft(m.h, m.c, h0[x]) else h0[x]
         case _ => m.h[x] == h0[x]
  }

  lemma AtomicContentsNow(h0: Heap, m: MarkState, rs: set<Id>, m1: MarkState)
    requires SeparatedFrom(h0, m.h) && WeakCleared(m.h, m.c, m.weak, m1.h) && m1.weak == m.weak
    requires SameButTables(m.h, m1.h) && StringsMarked(m.h, rs, m.c, m1.c)
    ensures AtomicContents(h0, m1)
  {
    hide TableLeft;
    hide StringsMarked;
    hide SameButTables;
    forall x | x in h0 && h0[x].Table?
      ensures m1.h[x] == if x in m1.weak then TableLeft(m1.h, m1.c, h0[x]) else h0[x]
    {
      TableLeftSame(m.h, rs, m.c, m1.h, m1.c, h0[x]);
    }
  }

  /** The tables on the weak list hold just what stays of them. */
  ghost predicate TablesCleared(h0: Heap, m: MarkState) {
    forall t :: t in m.weak && t in h0 && t in m.h && h0[t].Table? ==> TableCleared(m.h, m.c, h0[t], m.h[t])
  }

  lemma TablesClearedNow(h0: Heap, m: MarkState)
    requires AtomicContents(h0, m)
    ensures TablesCleared(h0, m)
  {
    hide TableLeft;
    hide TableCleared;
    forall t | t in m.weak && t in h0 && t in m.h && h0[t].Table?
      ensures TableCleared(m.h, m.c, h0[t], m.h[t])
    {
      TableLeftMeaning(m.h, m.c, h0[t]);
    }
  }

  lemma UdataFacts(s: State, rs: set<Id>, c1: Colors)
    requires Inv(s, rs) && Grows(s.m.c, c1)
    ensures UdataKnown(s.m.h, c1, s.l.udata)
  {
  }

  /** After the userdata to be finalized have been separated. */
  ghost predicate Separated(s0: State, s: State, c1: Colors, moved: seq<Id>, rs: set<Id>) {
    && Inv(s0, rs) && s0.phase == Propagate
    && MarkInv(s.m, IdSet(s.l.tmudata), rs)
    && SeparatedFrom(s0.m.h, s.m.h) && Split(s0.l.udata, s.l.udata, moved)
    && s == s0.(m := s.m, l := s0.l.(udata := s.l.udata, tmudata := s0.l.tmudata + moved))
    && s.m.c == c1 && Grows(s0.m.c, c1)
    && NonWhite(c1, s.running) && (forall r :: Ref(r) in s.mt ==> NonWhite(c1, r))
    && (forall x :: x in moved ==> Separable(s0.m.h, c1, x))
    && (forall u :: u in s.l.tmudata ==> u in rs && u in s.m.h && s.m.h[u].Userdata?)
    && NoOtherWhite(c1, s.cw)
    && Linked(s.m.h, s.l) && PendingReached(s.m.h, c1, s.l.udata)
  }

  lemma {:induction false} AtomicSeparated(s0: State, m: MarkState, c1: Colors, rs: set<Id>, s: State, moved: seq<Id>)
    requires Inv(s0, rs) && s0.phase == Propagate
    requires MarkInv(m, IdSet(s0.l.tmudata), rs) && m.h == s0.m.h && m.c == c1 && Grows(s0.m.c, c1)
    requires s == s0.(m := m.(h := s.m.h), l := s0.l.(udata := s.l.udata, tmudata := s0.l.tmudata + moved))
    requires SeparatedFrom(s0.m.h, s.m.h) && Split(s0.l.udata, s.l.udata, moved)
    requires forall r :: r in Roots(s0) ==> r in rs
    requires forall u :: u in s0.l.udata && Separable(s0.m.h, s0.m.c, u) ==> u in rs
    requires forall x :: x in moved ==> Separable(s0.m.h, c1, x)
    requires NonWhite(c1, s.running) && (forall r :: Ref(r) in s.mt ==> NonWhite(c1, r))
    requires PendingReached(s.m.h, c1, s.l.udata)
    ensures Separated(s0, s, c1, moved, rs)
  {
    hide Points;
    hide MarkInv;
    hide Linked;
    hide Basic;
    hide Safe;
    hide RootsLive;
    hide PendingReached;
    InvLinked(s0, rs);
    SeparatedMarkInv(m, IdSet(s0.l.tmudata), IdSet(s.l.tmudata), rs, s.m.h);
    SeparatedLinked(s0.m.h, s0.l, s.m.h, s.l.udata, moved);
    hide SeparatedFrom;
    forall u | u in s.l.tmudata
      ensures u in rs && u in s.m.h && s.m.h[u].Userdata?
    {
      if u in s0.l.tmudata {
        assert u in Roots(s0);
      } else {
        assert Separable(s0.m.h, s0.m.c, u) && u in s0.l.udata;
      }
    }
  }

  /** Where the atomic step stands when everything that was stale has been traversed again. */
  ghost predicate Remarked(s0: State, m: MarkState, rs: set<Id>) {
    && Inv(s0, rs) && s0.phase == Propagate && m.h == s0.m.h && Grows(s0.m.c, m.c) && m.c.Keys == m.h.Keys
    && MarkInv(m, IdSet(s0.l.tmudata), rs) && UdataKnown(m.h, m.c, s0.l.udata)
    && (forall x :: NonWhite(m.c, x) ==> x in Spared(s0))
    && (s0.l.tmudata == [] ==> StrongMarked(s0, m.c))
    && NonWhite(m.c, s0.running) && (forall r :: Ref(r) in s0.mt ==> NonWhite(m.c, r))
    && OnlyThreads(m.h, m.grayagain) && (WeakNotBlack(s0.m.h, s0.m.c) ==> WeakNotBlack(m.h, m.c))
  }

  /** Only threads are queued for the atomic step, and weak tables that were not black are not. */
  ghost predicate SetAside(s0: State, s: State) {
    OnlyThreads(s.m.h, s.m.grayagain) && (WeakNotBlack(s0.m.h, s0.m.c) ==> WeakNotBlack(s.m.h, s.m.c))
  }

  lemma SetAsideIs(s0: State, s: State)
    ensures SetAside(s0, s) <==> OnlyThreads(s.m.h, s.m.grayagain) && (WeakNotBlack(s0.m.h, s0.m.c) ==> WeakNotBlack(s.m.h, s.m.c))
  {
  }

  lemma RemarkedNow(s0: State, m: MarkState, rs: set<Id>)
    requires Inv(s0, rs) && s0.phase == Propagate && (forall r :: r in Roots(s0) ==> r in rs)
    requires m.h == s0.m.h && Grows(s0.m.c, m.c) && m.gray == []
    requires MarkInv(m, IdSet(s0.l.tmudata), Spared(s0))
    requires NonWhite(m.c, s0.running) && forall r :: Ref(r) in s0.mt ==> NonWhite(m.c, r)
    requires OnlyThreads(m.h, m.grayagain) && (WeakNotBlack(s0.m.h, s0.m.c) ==> WeakNotBlack(m.h, m.c))
    ensures Remarked(s0, m, rs)
  {
    hide *;
    MarksLater(s0, rs, m.c);
    SparedServes(s0, rs);
    InvClosed(s0, rs);
    if s0.l.tmudata == [] {
      RootsReached(s0, m, Spared(s0));
    }
    MarkInvWider(m, IdSet(s0.l.tmudata), Spared(s0), rs);
    MarkInvKeys(m, IdSet(s0.l.tmudata), rs);
    UdataFacts(s0, rs, m.c);
    RemarkedIs(s0, m, rs);
  }

  lemma RemarkedIs(s0: State, m: MarkState, rs: set<Id>)
    requires Inv(s0, rs) && s0.phase == Propagate && m.h == s0.m.h && Grows(s0.m.c, m.c) && m.c.Keys == m.h.Keys
    requires MarkInv(m, IdSet(s0.l.tmudata), rs) && UdataKnown(m.h, m.c, s0.l.udata)
    requires forall x :: NonWhite(m.c, x) ==> x in Spared(s0)
    requires s0.l.tmudata == [] ==> StrongMarked(s0, m.c)
    requires NonWhite(m.c, s0.running) && (forall r :: Ref(r) in s0.mt ==> NonWhite(m.c, r))
    requires OnlyThreads(m.h, m.grayagain) && (WeakNotBlack(s0.m.h, s0.m.c) ==> WeakNotBlack(m.h, m.c))
    ensures Remarked(s0, m, rs)
  {
  }

  lemma RemarkedFacts(s0: State, m: MarkState, rs: set<Id>)
    requires Remarked(s0, m, rs)
    ensures UdataKnown(m.h, m.c, s0.l.udata) && m.h == s0.m.h
  {
    hide Inv;
    hide MarkInv;
  }

  /** The userdata that have not been reached are separated from the others. */
  lemma SeparatedNow(s0: State, m: MarkState, rs: set<Id>, s: State, moved: seq<Id>)
    requires Remarked(s0, m, rs) && (forall r :: r in Roots(s0) ==> r in rs)
    requires forall u :: u in s0.l.udata && Separable(s0.m.h, s0.m.c, u) ==> u in rs
    requires s == s0.(m := m.(h := s.m.h), l := s0.l.(udata := s.l.udata, tmudata := s0.l.tmudata + moved))
    requires Split(s0.l.udata, s.l.udata, moved)
    requires forall x :: x in moved ==> Separable(s0.m.h, m.c, x)
    requires moved == Waiting(s0.m.h, m.c, s0.l.udata) && s.l.udata == Staying(s0.m.h, m.c, s0.l.udata)
    requires Flagged(s0.m.h, m.c, s0.l.udata, s.m.h)
    ensures Separated(s0, s, m.c, moved, rs) && FinalizersQueued(s0, s) && FinalizersOnce(s0, s)
    ensures SetAside(s0, s)
  {
    hide Inv;
    hide MarkInv;
    hide Split;
    hide Flagged;
    hide Separable;
    hide Waiting;
    hide Staying;
    hide Linked;
    hide StrongMarked;
    InvLinked(s0, rs);
    FinalizersOnceNow(s0, m.c, s, moved);
    StayingIn(s0.m.h, m.c, s0.l.udata);
    FlaggedPending(s0.m.h, m.c, s0.l.udata, s.m.h, s.l.udata);
    FlaggedFrom(s0.m.h, m.c, s0.l.udata, s.m.h);
    SeparatedAside(s0, m, s);
    FinalizersQueuedNow(s0, m.c, s, moved);
    hide PendingReached;
    hide FinalizersOnce;
    hide FinalizersQueued;
    hide SetAside;
    hide WeakNotBlack;
    hide SeparatedFrom;
    AtomicSeparated(s0, m, m.c, rs, s, moved);
  }

  lemma SeparatedAside(s0: State, m: MarkState, s: State)
    requires OnlyThreads(m.h, m.grayagain) && (WeakNotBlack(s0.m.h, s0.m.c) ==> WeakNotBlack(m.h, m.c))
    requires SeparatedFrom(m.h, s.m.h) && s.m.grayagain == m.grayagain && s.m.c == m.c
    ensures SetAside(s0, s)
  {
  }

  lemma InvLinked(s: State, rs: set<Id>)
    requires Inv(s, rs)
    ensures Linked(s.m.h, s.l) && (s.phase == Propagate ==> NoOtherWhite(s.m.c, s.cw))
    ensures forall u :: u in s.l.tmudata ==> u in s.m.h && s.m.h[u].Userdata?
  {
  }

  lemma SeparatedFacts(s0: State, s: State, c1: Colors, moved: seq<Id>, rs: set<Id>)
    requires Separated(s0, s, c1, moved, rs)
    ensures MarkInv(s.m, IdSet(s.l.tmudata), rs) && SeparatedFrom(s0.m.h, s.m.h)
    ensures forall u :: u in s.l.tmudata ==> u in rs && u in s.m.h && s.m.h[u].Userdata?
    ensures forall x :: x in s.m.c ==> s.m.c[x] != White(Other(s.cw))
  {
    hide PendingReached;
    hide MarkInv;
    hide Linked;
    hide Inv;
  }

  lemma SeparatedPending(s0: State, s: State, c1: Colors, moved: seq<Id>, rs: set<Id>, c: Colors)
    requires Separated(s0, s, c1, moved, rs) && Grows(c1, c)
    requires forall u :: u in s.l.tmudata ==> NonWhite(c, u)
    ensures forall u :: Pending(s.m.h, u) ==> NonWhite(c, u)
  {
    hide MarkInv;
    hide Inv;
    hide StringsLinked;
    hide UpValsLinked;
  }

  lemma NoWeakNoList(m: MarkState, rs: set<Id>)
    requires MarkInv(m, {}, rs) && m.gray == []
    ensures NoWeakTables(m.h) ==> m.weak == []
  {
    if m.weak != [] {
      var t := m.weak[0];
      assert OnList(m, t);
      assert TraversedOne(m, t);
    }
  }

  lemma SeparatedRoots(s0: State, s: State, c1: Colors, moved: seq<Id>, rs: set<Id>)
    requires Separated(s0, s, c1, moved, rs)
    ensures NonWhite(s0.m.c, s0.mainthread) && ValueMarked(s0.m.c, s0.registry)
    ensures s.mainthread in s.m.h && s.m.h[s.mainthread].Thread? && s.mainthread in s.fixed
    ensures s.running in s.m.h && s.m.h[s.running].Thread?
    ensures forall x :: x in s.fixed ==> x in s.m.h && (s.m.h[x].String? || x == s.mainthread)
    ensures s.m.h.Keys == s0.m.h.Keys
    ensures NoWeakTables(s0.m.h) ==> NoWeakTables(s.m.h)
  {
    hide Inv;
    hide MarkInv;
    hide Linked;
    InvBasics(s0, rs);
  }

  lemma InvBasics(s: State, rs: set<Id>)
    requires Inv(s, rs)
    ensures s.mainthread in s.m.h && s.m.h[s.mainthread].Thread? && s.mainthread in s.fixed
    ensures s.running in s.m.h && s.m.h[s.running].Thread?
    ensures forall x :: x in s.fixed ==> x in s.m.h && (s.m.h[x].String? || x == s.mainthread)
    ensures s.phase == Propagate ==> NonWhite(s.m.c, s.mainthread) && ValueMarked(s.m.c, s.registry)
    ensures s.m.c.Keys == s.m.h.Keys
  {
    hide Linked;
    hide MarkInv;
    hide Safe;
    hide RootsLive;
  }

  lemma UserdataNotGray(m: MarkState, rs: set<Id>)
    requires MarkInv(m, {}, rs)
    ensures ColorsFit(m.h, m.c)
  {
  }

  lemma FinishedNow(s0: State, s1: State, c1: Colors, c3: Colors, s: State, moved: seq<Id>, rs: set<Id>)
    requires Separated(s0, s1, c1, moved, rs)
    requires s == s1.(m := s.m) && s.m.h == s1.m.h
    requires Grows(c1, c3) && Grows(c3, s.m.c)
    requires MarkInv(s.m, {}, rs) && s.m.gray == []
    requires forall u :: u in s.l.tmudata ==> NonWhite(c3, u)
    requires SetAside(s0, s)
    ensures Finished(s0, s, rs)
  {
    hide Points;
    hide Linked;
    hide MarkInv;
    hide Inv;
    hide SeparatedFrom;
    hide Roots;
    hide NoOtherWhite;
    SeparatedRoots(s0, s1, c1, moved, rs);
    GrowsKeeps(c1, c3, s.cw);
    GrowsKeeps(c3, s.m.c, s.cw);
    UserdataNotGray(s.m, rs);
    SeparatedPoints(s0.m.h, s.m.h);
    GrowsTrans(c1, c3, s.m.c);
    GrowsTrans(s0.m.c, c1, s.m.c);
    SeparatedPending(s0, s1, c1, moved, rs, s.m.c);
    hide PendingReached;
    AtomicRoots(s0, c1, c3, s, moved);
    NoWeakNoList(s.m, rs);
    if WeakNotBlack(s0.m.h, s0.m.c) {
      WeakListedNow(s.m, rs);
    }
    hide WeakListed;
    hide WeakNotBlack;
    if moved != [] {
      var u := moved[0];
      assert u in moved && u in s0.l.udata && Separable(s0.m.h, s0.m.c, u);
    }
  }

  lemma FinishedFacts(s0: State, s: State, rs: set<Id>)
    requires Inv(s0, rs) && s0.phase == Propagate && Finished(s0, s, rs)
    ensures MarkInv(s.m, {}, rs) && s.m.gray == [] && NoneDangling(s.m.h)
  {
    hide Points;
    hide StrongPoints;
    hide MarkInv;
    hide Linked;
    forall x, r | Points(s.m.h, x, r)
      ensures r in s.m.h
    {
      PointsFrom(s.m.h, x, r);
      assert Points(s0.m.h, x, r) && Live(s0.Sw(), x);
      assert Live(s0.Sw(), r);
    }
  }

  lemma PointsFrom(h: Heap, x: Id, r: Id)
    requires Points(h, x, r)
    ensures x in h
  {
  }

  lemma AtomicEnd(s0: State, s4: State, s5: State, s6: State, rs: set<Id>)
    requires Finished(s0, s4, rs) && s4.phase == Propagate && s4.cw == s0.cw
    requires FewerPoints(s4.m.h, s5.m.h) && SameButTables(s4.m.h, s5.m.h) && Grows(s4.m.c, s5.m.c)
    requires StringsMarked(s4.m.h, rs, s4.m.c, s5.m.c)
    requires s5 == s4.(m := s4.m.(h := s5.m.h, c := s5.m.c))
    requires s4.m.weak == [] ==> s5.m.h == s4.m.h
    requires AllSettled(s5.m.h, s5.m.c)
    requires forall x :: NonWhite(s5.m.c, x) ==> x in rs
    requires s6 == s5.(cw := Other(s5.cw), phase := SweepString, sweepstrgc := 0, sweepgc := 0)
    requires SeparatedFrom(s0.m.h, s4.m.h) && WeakCleared(s4.m.h, s4.m.c, s4.m.weak, s5.m.h)
    requires FinalizersQueued(s0, s4) && FinalizersOnce(s0, s4)
    ensures Inv(s6, rs)
    ensures AtomicDone(s0, s6, rs)
  {
    hide *;
    AtomicBasic(s0, s4, s5, rs);
    FlipSafe(s5, s6);
    InvAnyRs(s6, {}, rs);
    AtomicContentsNow(s0.m.h, s4.m, rs, s6.m);
    TablesClearedNow(s0.m.h, s6.m);
    QueuedLater(s0, s4, s6);
    OnceLater(s0, s4, s6);
    ListedLater(s0, s4, s6, rs);
    FinishedRoots(s0, s4, rs);
    StrongMarkedNow(s0, s4, rs, s6.m.c);
    AtomicDoneNow(s0, s4, s5, s6, rs);
  }

  lemma ColorsFitLater(h: Heap, c: Colors, h1: Heap, c1: Colors, rs: set<Id>)
    requires ColorsFit(h, c) && SameButTables(h, h1) && StringsMarked(h, rs, c, c1)
    ensures ColorsFit(h1, c1)
  {
    assert forall x :: x in h1 && !h1[x].Table? ==> x in h && h1[x] == h[x];
  }

  lemma AtomicBasic(s0: State, s4: State, s5: State, rs: set<Id>)
    requires Finished(s0, s4, rs)
    requires SameButTables(s4.m.h, s5.m.h) && Grows(s4.m.c, s5.m.c)
    requires StringsMarked(s4.m.h, rs, s4.m.c, s5.m.c)
    requires s5 == s4.(m := s4.m.(h := s5.m.h, c := s5.m.c))
    ensures Basic(s5) && NoOtherWhite(s5.m.c, s5.cw)
    ensures forall r :: r in Roots(s5) ==> NonWhite(s5.m.c, r)
    ensures forall u :: Pending(s5.m.h, u) ==> NonWhite(s5.m.c, u)
  {
    hide Points;
    hide Linked;
    hide MarkInv;
    hide ColorsFit;
    MarkInvKeys(s4.m, {}, rs);
    ColorsFitLater(s4.m.h, s4.m.c, s5.m.h, s5.m.c, rs);
    SameShapeLinked(s4.m.h, s4.l, s5.m.h);
    PendingStays(s4.m.h, s5.m.h);
    hide SameButTables;
    hide StringsMarked;
    hide SamePoints;
    hide WeakListed;
    hide WeakNotBlack;
    assert Roots(s5) == Roots(s4);
  }

  lemma PendingStays(h: Heap, h1: Heap)
    requires SameButTables(h, h1)
    ensures forall u :: Pending(h1, u) ==> Pending(h, u)
    ensures h1.Keys == h.Keys && SameShape(h, h1)
    ensures forall x :: x in h && !h[x].Table? ==> h1[x] == h[x]
  {
    assert forall u :: Pending(h1, u) ==> h1[u] == h[u];
  }

  lemma AtomicDoneNow(s0: State, s4: State, s5: State, s6: State, rs: set<Id>)
    requires Finished(s0, s4, rs) && s4.cw == s0.cw
    requires FewerPoints(s4.m.h, s5.m.h) && SameButTables(s4.m.h, s5.m.h)
    requires s5 == s4.(m := s4.m.(h := s5.m.h, c := s5.m.c))
    requires s4.m.weak == [] ==> s5.m.h == s4.m.h
    requires AllSettled(s5.m.h, s5.m.c)
    requires forall x :: NonWhite(s5.m.c, x) ==> x in rs
    requires s6 == s5.(cw := Other(s5.cw), phase := SweepString, sweepstrgc := 0, sweepgc := 0)
    requires forall r :: r in Roots(s5) ==> NonWhite(s5.m.c, r)
    requires forall x :: Live(s6.Sw(), x) <==> NonWhite(s5.m.c, x) || x in s5.fixed
    requires AtomicContents(s0.m.h, s6.m) && FinalizersQueued(s0, s6) && StrongMarked(s0, s6.m.c)
    requires TablesCleared(s0.m.h, s6.m) && FinalizersOnce(s0, s6) && (WeakNotBlack(s0.m.h, s0.m.c) ==> WeakListed(s6.m))
    ensures AtomicDone(s0, s6, rs)
  {
    hide StrongMarked;
    hide FinalizersQueued;
    hide FinalizersOnce;
    hide AtomicContents;
    hide TablesCleared;
    hide WeakListed;
    hide WeakNotBlack;
    hide Points;
    hide Linked;
    hide MarkInv;
    hide AllSettled;
    hide Live;
    hide NonWhite;
    assert Roots(s6) == Roots(s5);
  }

  lemma WeakAreTables(m: MarkState, rs: set<Id>)
    requires MarkInv(m, {}, rs)
    ensures forall t :: t in m.weak ==> t in m.h && m.h[t].Table?
  {
    assert forall t :: t in m.weak ==> OnList(m, t);
  }

  lemma ModesKept(h0: Heap, h: Heap, m: MarkState)
    requires SeparatedFrom(h0, h) && AtomicContents(h0, m)
    ensures forall t :: t in m.h ==> t in h && (IsWeak(m.h[t]) <==> IsWeak(h[t]))
  {
    hide EntriesLeft;
    hide ValuesLeft;
  }

  lemma ListedStill(m: MarkState, rs: set<Id>, m1: MarkState)
    requires WeakListed(m) && m1.weak == m.weak && StringsMarked(m.h, rs, m.c, m1.c)
    requires forall t :: t in m1.h ==> t in m.h && (IsWeak(m1.h[t]) <==> IsWeak(m.h[t]))
    requires forall t :: t in m.weak ==> t in m.h && m.h[t].Table?
    ensures WeakListed(m1)
  {
  }

  lemma ListedLater(s0: State, s: State, s1: State, rs: set<Id>)
    requires Finished(s0, s, rs) && SameButTables(s.m.h, s1.m.h) && StringsMarked(s.m.h, rs, s.m.c, s1.m.c)
    requires SeparatedFrom(s0.m.h, s.m.h) && AtomicContents(s0.m.h, s1.m) && s1.m.weak == s.m.weak
    ensures WeakNotBlack(s0.m.h, s0.m.c) ==> WeakListed(s1.m)
  {
    FinishedListed(s0, s, rs);
    hide *;
    ModesKept(s0.m.h, s.m.h, s1.m);
    WeakAreTables(s.m, rs);
    if WeakNotBlack(s0.m.h, s0.m.c) {
      ListedStill(s.m, rs, s1.m);
    }
  }

  lemma FinishedListed(s0: State, s: State, rs: set<Id>)
    requires Finished(s0, s, rs)
    ensures MarkInv(s.m, {}, rs) && (WeakNotBlack(s0.m.h, s0.m.c) ==> WeakListed(s.m))
  {
    hide MarkInv;
    hide SamePoints;
    hide Linked;
    hide WeakListed;
    hide WeakNotBlack;
  }

  lemma QueuedLater(s0: State, s: State, s1: State)
    requires FinalizersQueued(s0, s) && s1.l == s.l && SameButTables(s.m.h, s1.m.h)
    ensures FinalizersQueued(s0, s1)
  {
    hide Spared;
    hide StrongAccessible;
  }

  lemma MarkInvKeys(m: MarkState, stale: set<Id>, rs: set<Id>)
    requires MarkInv(m, stale, rs)
    ensures m.c.Keys == m.h.Keys
  {
  }

  lemma AtomicRoots(s: State, c1: Colors, c3: Colors, s5: State, moved: seq<Id>)
    requires s5.l.tmudata == s.l.tmudata + moved
    requires s5.mainthread == s.mainthread && s5.running == s.running && s5.registry == s.registry && s5.mt == s.mt
    requires NonWhite(s.m.c, s.mainthread) && ValueMarked(s.m.c, s.registry)
    requires Grows(s.m.c, s5.m.c) && Grows(c1, s5.m.c) && Grows(c3, s5.m.c)
    requires NonWhite(c1, s.running) && (forall r :: Ref(r) in s.mt ==> NonWhite(c1, r))
    requires forall u :: u in s5.l.tmudata ==> NonWhite(c3, u)
    ensures forall r :: r in Roots(s5) ==> NonWhite(s5.m.c, r)
    ensures forall r :: r in Roots(s) ==> r in Roots(s5)
  {
    assert s.l.tmudata <= s5.l.tmudata;
    assert forall x :: x in s.l.tmudata ==> x in s5.l.tmudata;
    forall r | r in Roots(s5)
      ensures NonWhite(s5.m.c, r)
    {
      if r in ValueIds([s.registry]) {
        assert s.registry == Ref(r);
      }
    }
  }

  lemma InvBasic(s: State, rs: set<Id>)
    requires Inv(s, rs)
    ensures Basic(s) && Safe(s.Sw()) && RootsLive(s)
    ensures s.m.c.Keys == s.m.h.Keys
  {
  }
}
