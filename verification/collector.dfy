/** The incremental collector: propagation, the atomic step, the sweeps and the barriers. */
module Collector {
  import opened LuaObjects
  import opened Marking
  import opened Places
  import opened States
  import opened Sweeps
  import opened Writes
  import opened TriColour
  import opened Cycle
  import opened Collections

  const GCSWEEPMAX: nat := 40

  lemma SomeAreSwept()
    ensures GCSWEEPMAX > 0
  {
  }

  class GlobalState {
    var objs: Heap
    var color: Colors
    var fixed: set<Id>
    var rootgc: seq<Id>
    var udata: seq<Id>
    var sweepgc: nat
    var strt: seq<seq<Id>>
    var sweepstrgc: nat
    var tmudata: seq<Id>
    var uvhead: seq<Id>
    var gray: seq<Id>
    var grayagain: seq<Id>
    var weak: seq<Id>
    var weakbits: map<Id, Mode>
    var currentwhite: WhiteBit
    var gcstate: Phase
    var mainthread: Id
    var running: Id
    var registry: Value
    var mt: seq<Value>

    /** lua_newstate: the main thread is the only object, and it is never freed. */
    constructor (main: Id, buckets: nat)
      requires buckets > 0
      ensures Inv(Snap(), objs.Keys) && objs == map[main := Thread(Nil, [], [])] && fixed == {main}
      ensures gcstate == Pause && tmudata == []
      ensures mainthread == running == main && registry == Nil && |mt| == 9 && forall v :: v in mt ==> v == Nil
      ensures Quiet(Snap()) && NoBlackWeak(Snap())
    {
      objs := map[main := Thread(Nil, [], [])];
      color := map[main := White(White0)];
      fixed := {main};
      rootgc, udata, tmudata, uvhead, gray, grayagain, weak := [main], [], [], [], [], [], [];
      weakbits := map[];
      strt := seq(buckets, _ => []);
      sweepgc, sweepstrgc, currentwhite, gcstate := 0, 0, White0, Pause;
      mainthread, running, registry, mt := main, main, Nil, seq(9, _ => Nil);
      new;
      hide *;
      SnapIs();
      ViewIs();
      InitialInv(Snap(), main, buckets);
    }

    ghost function View(): MarkState
      reads this`objs, this`color, this`gray, this`grayagain, this`weak, this`weakbits
    {
      MarkState(objs, color, gray, grayagain, weak, weakbits)
    }

    ghost function LinkView(): Links
      reads this`rootgc, this`udata, this`strt, this`tmudata, this`uvhead
    {
      Links(rootgc, udata, strt, tmudata, uvhead)
    }

    ghost function Snap(): State
      reads this
    {
      State(View(), LinkView(), currentwhite, fixed, gcstate, mainthread, running, registry, mt, sweepstrgc, sweepgc)
    }

    lemma SnapIs()
      ensures Snap() == State(View(), LinkView(), currentwhite, fixed, gcstate, mainthread, running, registry, mt, sweepstrgc, sweepgc)
      ensures LinkView() == Links(rootgc, udata, strt, tmudata, uvhead)
    {
    }

    lemma ViewIs()
      ensures View() == MarkState(objs, color, gray, grayagain, weak, weakbits)
    {
    }

    method MarkValue(v: Value, ghost rs: set<Id>) returns (ghost added: seq<Id>)
      requires ClosedUnder(objs, rs) && rs <= color.Keys
      requires v.Ref? ==> v.id in rs
      modifies this`color, this`gray
      ensures MarkStep(objs, rs, old(color), color, added) && gray == added + old(gray)
      ensures Grows(old(color), color) && Whites(color) <= Whites(old(color))
      ensures ValueMarked(color, v) && OnlyDirect(objs, old(color), color, v)
      decreases Whites(color), 1
    {
      hide OnlyDirect;
      OnlyDirectRefl(objs, color, v);
      if v.Ref? && color[v.id].White? {
        added := ReallyMarkObject(v.id, rs);
      } else {
        added := [];
        assert gray == [] + gray;
      }
    }

    method ReallyMarkObject(o: Id, ghost rs: set<Id>) returns (ghost added: seq<Id>)
      requires ClosedUnder(objs, rs) && rs <= color.Keys
      requires o in rs && color[o].White?
      modifies this`color, this`gray
      ensures MarkStep(objs, rs, old(color), color, added) && gray == added + old(gray)
      ensures Grows(old(color), color) && Whites(color) <= Whites(old(color))
      ensures NonWhite(color, o) && OnlyDirect(objs, old(color), color, Ref(o))
      decreases Whites(color), 0
    {
      hide OnlyDirect;
      hide MarkStep;
      hide Marked;
      hide Points;
      hide ClosedUnder;
      hide Whites;
      ghost var c0 := color;
      RefsInside(objs, rs, o);
      WhitesDrop(c0, o, Gray);
      WhitesDrop(c0, o, Black);
      color := color[o := Gray];
      added := [];
      assert gray == [] + gray;
      OnlyDirectOne(objs, c0, o, Gray);
      if objs[o].String? {
        MarkStepRefl(objs, rs, color);
        MarkedLeaf(objs, color, o);
        MarkOne(objs, rs, c0, o, Gray, color, [], Gray);
      } else if objs[o].Userdata? {
        color := color[o := Black];
        assert color == c0[o := Black];
        ghost var added1 := MarkValue(objs[o].metatable, rs);
        ghost var c1 := color;
        added := MarkValue(objs[o].env, rs);
        MarkStepTrans(objs, rs, c0[o := Black], c1, added1, color, added);
        added := added + added1;
        MarkStepFixes(objs, rs, c0[o := Black], color, added);
        MarkedUserdata(objs, color, added, o);
        MarkOne(objs, rs, c0, o, Black, color, added, Black);
        DirectUserdata(objs, c0, c1, color, o);
      } else if objs[o].UpVal? {
        added := MarkValue(CellValue(objs, objs[o].cell), rs);
        ghost var c1 := color;
        DirectUpVal(objs, c0, c1, o);
        MarkStepFixes(objs, rs, c0[o := Gray], color, added);
        if objs[o].cell.Closed? {
          color := color[o := Black];
        }
        MarkedUpVal(objs, c1, added, o);
        MarkOne(objs, rs, c0, o, Gray, c1, added, color[o]);
        WhitesStep(objs, rs, c0, color, added);
      } else {
        gray := [o] + gray;
        added := [o];
        MarkGreyable(objs, rs, c0, o);
      }
    }

    method MarkValues(vs: seq<Value>, ghost rs: set<Id>) returns (ghost added: seq<Id>)
      requires ClosedUnder(objs, rs) && rs <= color.Keys
      requires forall r :: Ref(r) in vs ==> r in rs
      modifies this`color, this`gray
      ensures MarkStep(objs, rs, old(color), color, added) && gray == added + old(gray)
      ensures Grows(old(color), color)
      ensures forall r :: Ref(r) in vs ==> NonWhite(color, r)
    {
      hide MarkStep;
      hide ClosedUnder;
      MarkStepRefl(objs, rs, color);
      var i := 0;
      added := [];
      while i < |vs|
        invariant 0 <= i <= |vs|
        invariant MarkStep(objs, rs, old(color), color, added) && gray == added + old(gray)
        invariant Grows(old(color), color)
        invariant forall j :: 0 <= j < i ==> ValueMarked(color, vs[j])
      {
        ghost var c1 := color;
        assert vs[i] in vs;
        ghost var more := MarkValue(vs[i], rs);
        MarkStepTrans(objs, rs, old(color), c1, added, color, more);
        added := more + added;
        i := i + 1;
      }
    }

    method MarkEntry(e: Entry, m: Mode, ghost rs: set<Id>) returns (ghost added: seq<Id>)
      requires ClosedUnder(objs, rs) && rs <= color.Keys
      requires forall r :: EntrySpreads(e, m, r) ==> r in rs
      modifies this`color, this`gray
      ensures MarkStep(objs, rs, old(color), color, added) && gray == added + old(gray)
      ensures Grows(old(color), color)
      ensures EntryMarked(color, m, e)
    {
      hide MarkStep;
      hide ClosedUnder;
      MarkStepRefl(objs, rs, color);
      assert e.key.Ref? && !m.weakKey ==> EntrySpreads(e, m, e.key.id);
      assert e.val.Ref? && !m.weakValue ==> EntrySpreads(e, m, e.val.id);
      added := [];
      assert gray == [] + gray;
      if !m.weakKey {
        added := MarkValue(e.key, rs);
      }
      ghost var c1 := color;
      if !m.weakValue {
        ghost var more := MarkValue(e.val, rs);
        MarkStepTrans(objs, rs, old(color), c1, added, color, more);
        added := more + added;
      }
    }

    method MarkEntries(es: seq<Entry>, m: Mode, ghost rs: set<Id>) returns (ghost added: seq<Id>)
      requires ClosedUnder(objs, rs) && rs <= color.Keys
      requires forall e, r :: e in es && EntrySpreads(e, m, r) ==> r in rs
      modifies this`color, this`gray
      ensures MarkStep(objs, rs, old(color), color, added) && gray == added + old(gray)
      ensures Grows(old(color), color)
      ensures forall e :: e in es ==> EntryMarked(color, m, e)
    {
      hide MarkStep;
      hide ClosedUnder;
      hide EntrySpreads;
      MarkStepRefl(objs, rs, color);
      var i := |es|;
      added := [];
      while i > 0
        invariant 0 <= i <= |es|
        invariant MarkStep(objs, rs, old(color), color, added) && gray == added + old(gray)
        invariant Grows(old(color), color)
        invariant forall j :: i <= j < |es| ==> EntryMarked(color, m, es[j])
      {
        i := i - 1;
        ghost var c1 := color;
        assert es[i] in es;
        ghost var more := MarkEntry(es[i], m, rs);
        MarkStepTrans(objs, rs, old(color), c1, added, color, more);
        added := more + added;
      }
    }

    /** Marks what a table refers to strongly and tells whether it is weak; a weak one is linked
        on the weak list, with the mode that cleartable will use. */
    method TraverseTable(t: Id, ghost rs: set<Id>) returns (isWeak: bool, ghost added: seq<Id>)
      requires ClosedUnder(objs, rs) && rs <= color.Keys
      requires t in rs && objs[t].Table?
      modifies this`color, this`gray, this`weak, this`weakbits
      ensures MarkStep(objs, rs, old(color), color, added) && gray == added + old(gray)
      ensures Grows(old(color), color)
      ensures isWeak == (objs[t].mode.weakKey || objs[t].mode.weakValue)
      ensures weak == (if isWeak then [t] + old(weak) else old(weak))
      ensures weakbits == (if isWeak then old(weakbits)[t := objs[t].mode] else old(weakbits))
      ensures if isWeak then StrongSettled(objs, color, t) else Settled(objs, color, t)
    {
      hide MarkStep;
      hide StrongSettled;
      hide Settled;
      hide EntryMarked;
      hide Points;
      hide ClosedUnder;
      RefsInside(objs, rs, t);
      var h := objs[t];
      var m := h.mode;
      added := MarkValue(h.metatable, rs);
      isWeak := m.weakKey || m.weakValue;
      if isWeak {
        weakbits := weakbits[t := m];
        weak := [t] + weak;
      }
      if m.weakKey && m.weakValue {
        TableSettled(objs, color, t);
        return;
      }
      if !m.weakValue {
        ghost var c1 := color;
        ghost var more := MarkValues(h.arr, rs);
        MarkStepTrans(objs, rs, old(color), c1, added, color, more);
        added := more + added;
      }
      ghost var c1 := color;
      ghost var more := MarkEntries(h.node, m, rs);
      MarkStepTrans(objs, rs, old(color), c1, added, color, more);
      added := more + added;
      TableSettled(objs, color, t);
    }

    /** Marks everything a function, a prototype or a thread refers to. */
    method TraverseOther(o: Id, ghost rs: set<Id>) returns (ghost added: seq<Id>)
      requires ClosedUnder(objs, rs) && rs <= color.Keys
      requires o in rs && Greyable(objs[o]) && !objs[o].Table?
      modifies this`color, this`gray
      ensures MarkStep(objs, rs, old(color), color, added) && gray == added + old(gray)
      ensures Grows(old(color), color)
      ensures Settled(objs, color, o)
    {
      hide MarkStep;
      hide Points;
      hide ClosedUnder;
      hide Settled;
      RefsInside(objs, rs, o);
      if objs[o].Function? {
        added := MarkValue(objs[o].env, rs);
        ghost var c1 := color;
        ghost var more := MarkValue(objs[o].proto, rs);
        MarkStepTrans(objs, rs, old(color), c1, added, color, more);
        added := more + added;
        c1 := color;
        more := MarkValues(objs[o].upvals, rs);
        MarkStepTrans(objs, rs, old(color), c1, added, color, more);
        added := more + added;
      } else if objs[o].Proto? {
        added := MarkValues(objs[o].names, rs);
        ghost var c1 := color;
        ghost var more := MarkValues(objs[o].k, rs);
        MarkStepTrans(objs, rs, old(color), c1, added, color, more);
        added := more + added;
        c1 := color;
        more := MarkValues(objs[o].p, rs);
        MarkStepTrans(objs, rs, old(color), c1, added, color, more);
        added := more + added;
      } else {
        added := MarkValue(objs[o].gt, rs);
        ghost var c1 := color;
        ghost var more := MarkValues(objs[o].stack, rs);
        MarkStepTrans(objs, rs, old(color), c1, added, color, more);
        added := more + added;
      }
      OtherSettled(objs, color, o);
    }

    /** Traverses the first gray object. */
    method PropagateMark(ghost stale: set<Id>, ghost rs: set<Id>)
      requires MarkInv(View(), stale, rs) && gray != []
      modifies this`color, this`gray, this`grayagain, this`weak, this`weakbits
      ensures MarkInv(View(), stale, rs)
      ensures Grows(old(color), color)
      ensures 2 * |Whites(color)| + |gray| < 2 * |Whites(old(color))| + |old(gray)|
      ensures forall x :: x in old(grayagain) ==> x in grayagain
      ensures forall x :: x in old(weak) ==> x in weak
      ensures Propagated(old(View()), View())
    {
      hide MarkStep;
      hide Propagated;
      hide Settled;
      hide StrongSettled;
      hide Shades;
      hide Traversed;
      var o := gray[0];
      ghost var s0 := View();
      assert OnList(s0, o) && o in rs;
      color := color[o := Black];
      gray := gray[1..];
      if objs[o].Table? {
        var isWeak, added := TraverseTable(o, rs);
        if isWeak {
          ghost var s1 := s0.(gray := s0.gray[1..], weak := weak, bits := weakbits);
          MarkStepRecolor(objs, rs, s0.c, o, Black, color, added);
          StrongSettledGrows(objs, color, color[o := Gray], o);
          color := color[o := Gray];
          PropagateKeeps(s0, stale, rs, s1, color, added, View());
          PropagatedNow(s0, rs, s1, added, View());
        } else {
          ghost var s1 := s0.(gray := s0.gray[1..], c := s0.c[o := Black]);
          PropagateKeeps(s0, stale, rs, s1, color, added, View());
          PropagatedNow(s0, rs, s1, added, View());
        }
      } else if objs[o].Thread? {
        grayagain := [o] + grayagain;
        color := color[o := Gray];
        ghost var s1 := s0.(gray := s0.gray[1..], grayagain := grayagain);
        assert color == s0.c;
        ghost var added := TraverseOther(o, rs);
        PropagateKeeps(s0, stale, rs, s1, color, added, View());
        PropagatedNow(s0, rs, s1, added, View());
      } else {
        ghost var s1 := s0.(gray := s0.gray[1..], c := s0.c[o := Black]);
        ghost var added := TraverseOther(o, rs);
        PropagateKeeps(s0, stale, rs, s1, color, added, View());
        PropagatedNow(s0, rs, s1, added, View());
      }
    }

    method PropagateAll(ghost stale: set<Id>, ghost rs: set<Id>)
      requires MarkInv(View(), stale, rs)
      modifies this`color, this`gray, this`grayagain, this`weak, this`weakbits
      ensures MarkInv(View(), stale, rs) && gray == []
      ensures Grows(old(color), color)
      ensures forall x :: x in old(grayagain) ==> x in grayagain
      ensures forall x :: x in old(weak) ==> x in weak
      ensures old(WeakNotBlack(objs, color)) ==> WeakNotBlack(objs, color)
      ensures old(OnlyThreads(objs, grayagain)) ==> OnlyThreads(objs, grayagain)
    {
      hide MarkInv;
      hide Propagated;
      hide WeakNotBlack;
      hide OnlyThreads;
      while gray != []
        invariant old(WeakNotBlack(objs, color)) ==> WeakNotBlack(objs, color)
        invariant old(OnlyThreads(objs, grayagain)) ==> OnlyThreads(objs, grayagain)
        invariant MarkInv(View(), stale, rs)
        invariant Grows(old(color), color)
        invariant forall x :: x in old(grayagain) ==> x in grayagain
        invariant forall x :: x in old(weak) ==> x in weak
        decreases 2 * |Whites(color)| + |gray|
      {
        ghost var s0 := View();
        PropagateMark(stale, rs);
        PropagatedWeak(s0, View());
      }
    }

    /** markvalue, seen as a step of the mark phase. */
    method MarkRoot1(v: Value, ghost stale: set<Id>, ghost rs: set<Id>) returns (ghost added: seq<Id>)
      requires MarkInv(View(), stale, rs)
      requires v.Ref? ==> v.id in rs
      modifies this`color, this`gray
      ensures MarkInv(View(), stale, rs) && MarkStep(objs, rs, old(color), color, added)
      ensures Grows(old(color), color) && ValueMarked(color, v) && OnlyDirect(objs, old(color), color, v)
    {
      hide Shades;
      hide Traversed;
      hide OnlyDirect;
      ghost var s := View();
      added := MarkValue(v, rs);
      WhitesStep(objs, rs, s.c, color, added);
      MarkStepKeeps(s, stale, rs, color, added);
      assert View() == s.(c := color, gray := added + s.gray);
    }

    method MarkMt(ghost stale: set<Id>, ghost rs: set<Id>) returns (ghost added: seq<Id>)
      requires MarkInv(View(), stale, rs)
      requires forall r :: Ref(r) in mt ==> r in rs
      modifies this`color, this`gray
      ensures MarkInv(View(), stale, rs) && MarkStep(objs, rs, old(color), color, added)
      ensures Grows(old(color), color) && OnlyFrom(objs, old(color), color, mt)
      ensures forall r :: Ref(r) in mt ==> NonWhite(color, r)
    {
      hide MarkInv;
      hide MarkStep;
      hide OnlyDirect;
      hide OnlyFrom;
      var i := 0;
      added := [];
      MarkStepRefl(objs, rs, color);
      OnlyFromNone(objs, color, mt);
      while i < |mt|
        invariant 0 <= i <= |mt|
        invariant MarkInv(View(), stale, rs) && MarkStep(objs, rs, old(color), color, added)
        invariant Grows(old(color), color) && OnlyFrom(objs, old(color), color, mt)
        invariant forall j :: 0 <= j < i ==> ValueMarked(color, mt[j])
      {
        ghost var c := color;
        assert mt[i] in mt;
        ghost var more := MarkRoot1(mt[i], stale, rs);
        MarkStepTrans(objs, rs, old(color), c, added, color, more);
        OnlyFromMore(objs, old(color), c, color, mt, mt[i]);
        added := more + added;
        i := i + 1;
      }
    }

    method RemarkUpval(u: Id, ghost later: set<Id>, ghost rs: set<Id>)
      requires MarkInv(View(), later + {u}, rs) && u in objs && IsOpen(objs[u])
      modifies this`color, this`gray
      ensures MarkInv(View(), later, rs)
      ensures Grows(old(color), color) && (old(WeakNotBlack(objs, color)) ==> WeakNotBlack(objs, color))
    {
      hide MarkInv;
      hide MarkStep;
      hide WeakNotBlack;
      ghost var c := color;
      UpvalInside(View(), later + {u}, rs, u);
      if color[u] == Gray {
        ghost var added := MarkRoot1(CellValue(objs, objs[u].cell), later + {u}, rs);
        MarkStepWeak(objs, rs, c, color, added);
      }
      UpvalTraversed(View(), later, rs, u);
    }

    /** Open upvalues of threads that may be dead: their values are marked again. */
    method RemarkUpvals(ghost stale: set<Id>, ghost rs: set<Id>)
      requires MarkInv(View(), stale + IdSet(uvhead), rs)
      requires forall x :: x in uvhead ==> x in objs && IsOpen(objs[x])
      modifies this`color, this`gray
      ensures MarkInv(View(), stale, rs)
      ensures Grows(old(color), color) && (old(WeakNotBlack(objs, color)) ==> WeakNotBlack(objs, color))
    {
      hide MarkInv;
      hide WeakNotBlack;
      var i := 0;
      assert uvhead[0..] == uvhead;
      while i < |uvhead|
        invariant 0 <= i <= |uvhead|
        invariant old(WeakNotBlack(objs, color)) ==> WeakNotBlack(objs, color)
        invariant MarkInv(View(), stale + IdSet(uvhead[i..]), rs)
        invariant Grows(old(color), color)
      {
        assert uvhead[i] in uvhead;
        assert uvhead[i..] == [uvhead[i]] + uvhead[i + 1..];
        assert stale + IdSet(uvhead[i..]) == stale + IdSet(uvhead[i + 1..]) + {uvhead[i]};
        RemarkUpval(uvhead[i], stale + IdSet(uvhead[i + 1..]), rs);
        i := i + 1;
      }
      assert uvhead[i..] == [];
      assert stale + IdSet(uvhead[i..]) == stale;
    }

    /** Flags an unreached userdata as finalized, and tells whether it has a finalizer that is to be called. */
    method Separate1(u: Id) returns (waits: bool)
      requires u in objs && u in color && objs[u].Userdata?
      modifies this`objs
      ensures waits == old(Separable(objs, color, u))
      ensures objs == if color[u].White? then old(objs)[u := old(objs)[u].(finalized := true)] else old(objs)
    {
      if !color[u].White? || objs[u].finalized {
        waits := false;
      } else if !objs[u].hasGc {
        objs := objs[u := objs[u].(finalized := true)];
        waits := false;
      } else {
        objs := objs[u := objs[u].(finalized := true)];
        waits := true;
      }
    }

    /** Puts the unreached userdata that have a finalizer on the list of those to be finalized. */
    method SeparateUdata() returns (ghost moved: seq<Id>)
      requires UdataKnown(objs, color, udata)
      modifies this`objs, this`udata, this`tmudata
      ensures Split(old(udata), udata, moved) && tmudata == old(tmudata) + moved
      ensures forall x :: x in moved ==> old(Separable(objs, color, x))
      ensures moved == old(Waiting(objs, color, udata)) && udata == old(Staying(objs, color, udata))
      ensures Flagged(old(objs), color, old(udata), objs) && SeparatedFrom(old(objs), objs)
    {
      hide Separable;
      hide Flagged;
      hide Split;
      hide Waiting;
      hide Staying;
      moved := [];
      var i, kept := 0, [];
      assert udata[..0] == [] && tmudata == old(tmudata) + moved;
      NothingSeparated(objs, color);
      while i < |udata|
        invariant 0 <= i <= |udata| && udata == old(udata)
        invariant Split(udata[..i], kept, moved) && tmudata == old(tmudata) + moved
        invariant forall x :: x in moved ==> old(Separable(objs, color, x))
        invariant moved == Waiting(old(objs), color, udata[..i]) && kept == Staying(old(objs), color, udata[..i])
        invariant Flagged(old(objs), color, udata[..i], objs)
      {
        var u := udata[i];
        assert u in udata && u !in udata[..i];
        assert udata[..i + 1] == udata[..i] + [u];
        OneMore(old(objs), color, udata[..i], u);
        FlaggedMore(old(objs), color, udata[..i], objs, u);
        var waits := Separate1(u);
        if waits {
          SplitMove(udata[..i], kept, moved, u);
          moved := moved + [u];
          tmudata := tmudata + [u];
        } else {
          SplitKeep(udata[..i], kept, moved, u);
          kept := kept + [u];
        }
        i := i + 1;
      }
      assert udata[..i] == udata;
      FlaggedFrom(old(objs), color, udata, objs);
      udata := kept;
    }

    method MarkTmu1(u: Id, ghost later: set<Id>, ghost rs: set<Id>)
      requires MarkInv(View(), later + {u}, rs)
      requires u in rs && u in objs && objs[u].Userdata?
      requires forall x :: x in color ==> color[x] != White(Other(currentwhite))
      modifies this`color, this`gray
      ensures MarkInv(View(), later, rs)
      ensures Grows(old(color), color) && NonWhite(color, u)
      ensures forall x :: x in color ==> color[x] != White(Other(currentwhite))
      ensures old(WeakNotBlack(objs, color)) ==> WeakNotBlack(objs, color)
    {
      hide Traversed;
      hide Settled;
      hide MarkEffect;
      hide MarkStep;
      hide WeakNotBlack;
      ghost var s := View();
      color := color[u := White(currentwhite)];
      ghost var added := ReallyMarkObject(u, rs);
      Remark(objs, rs, s.c, u, currentwhite, color, added);
      MarkedWeak(objs, rs, s.c, color, added);
      MarkStepKeeps(s, later + {u}, rs, color, added);
      assert View() == s.(c := color, gray := added + s.gray);
      UserdataTraversed(View(), later, rs, u);
    }

    /** The userdata to be finalized are marked like any other object, even if a previous cycle left them marked. */
    method MarkTmu(ghost rs: set<Id>)
      requires MarkInv(View(), IdSet(tmudata), rs)
      requires forall u :: u in tmudata ==> u in rs && u in objs && objs[u].Userdata?
      requires forall x :: x in color ==> color[x] != White(Other(currentwhite))
      modifies this`color, this`gray
      ensures MarkInv(View(), {}, rs)
      ensures Grows(old(color), color)
      ensures forall u :: u in tmudata ==> NonWhite(color, u)
      ensures old(WeakNotBlack(objs, color)) ==> WeakNotBlack(objs, color)
    {
      hide MarkInv;
      hide WeakNotBlack;
      var i := 0;
      assert tmudata[0..] == tmudata;
      while i < |tmudata|
        invariant 0 <= i <= |tmudata|
        invariant old(WeakNotBlack(objs, color)) ==> WeakNotBlack(objs, color)
        invariant MarkInv(View(), IdSet(tmudata[i..]), rs)
        invariant Grows(old(color), color)
        invariant forall x :: x in color ==> color[x] != White(Other(currentwhite))
        invariant forall j :: 0 <= j < i ==> NonWhite(color, tmudata[j])
      {
        var u := tmudata[i];
        assert u in tmudata;
        assert tmudata[i..] == [u] + tmudata[i + 1..];
        assert IdSet(tmudata[i..]) == IdSet(tmudata[i + 1..]) + {u};
        MarkTmu1(u, IdSet(tmudata[i + 1..]), rs);
        i := i + 1;
      }
      assert tmudata[i..] == [];
      assert IdSet(tmudata[i..]) == {};
    }

    /** Whether a weak table must drop this key or value; strings count as values and are kept. */
    method IsCleared(v: Value, isKey: bool) returns (cleared: bool)
      requires v.Ref? ==> v.id in objs && v.id in color
      modifies this`color
      ensures Grows(old(color), color)
      ensures forall x :: x in color && color[x] != old(color)[x] ==> x in objs && objs[x].String? && color[x] == Gray && v == Ref(x)
      ensures StringsMarked(objs, if v.Ref? && objs[v.id].String? then {v.id} else {}, old(color), color)
      ensures !cleared ==> ValueMarked(color, v)
      ensures cleared == Drops(objs, old(color), v, isKey)
      ensures cleared <==> !(if isKey then StaysAsKey(objs, old(color), v) else StaysAsValue(objs, old(color), v))
    {
      if !v.Ref? {
        return false;
      }
      if objs[v.id].String? {
        if color[v.id].White? {
          color := color[v.id := Gray];
        }
        return false;
      }
      cleared := color[v.id].White? || (objs[v.id].Userdata? && !isKey && objs[v.id].finalized);
    }

    method ClearValues(vs: seq<Value>, ghost rs: set<Id>) returns (kept: seq<Value>)
      requires forall r :: Ref(r) in vs ==> r in objs && r in color && (objs[r].String? ==> r in rs)
      modifies this`color
      ensures Grows(old(color), color) && StringsMarked(objs, rs, old(color), color)
      ensures ValuesCleared(vs, kept, color) && kept == ValuesLeft(objs, old(color), vs)
    {
      var i := |vs|;
      kept := [];
      FewerPointsRefl(objs);
      while i > 0
        invariant 0 <= i <= |vs| && |kept| == |vs| - i
        invariant forall j :: i <= j < |vs| ==> kept[j - i] == if Drops(objs, old(color), vs[j], false) then Nil else vs[j]
        invariant Grows(old(color), color) && StringsMarked(objs, rs, old(color), color)
        invariant forall j :: i <= j < |vs| ==> kept[j - i] == Nil || (kept[j - i] == vs[j] && ValueMarked(color, vs[j]))
      {
        i := i - 1;
        assert vs[i] in vs;
        DropsSame(objs, rs, old(color), objs, color);
        var cleared := IsCleared(vs[i], false);
        kept := [if cleared then Nil else vs[i]] + kept;
      }
      forall r | Ref(r) in kept
        ensures Ref(r) in vs && NonWhite(color, r)
      {
        var j :| 0 <= j < |kept| && kept[j] == Ref(r);
        assert kept[j - i] == vs[j];
      }
    }

    /** Whether an entry of a weak table has to go. */
    method EntryIsCleared(e: Entry, ghost rs: set<Id>) returns (cleared: bool)
      requires forall r :: EntryPoints(e, r) ==> r in objs && r in color && (objs[r].String? ==> r in rs)
      modifies this`color
      ensures Grows(old(color), color) && StringsMarked(objs, rs, old(color), color)
      ensures cleared == (Drops(objs, old(color), e.key, true) || Drops(objs, old(color), e.val, false))
      ensures !cleared ==> ValueMarked(color, e.key) && ValueMarked(color, e.val)
    {
      FewerPointsRefl(objs);
      assert e.key.Ref? ==> EntryPoints(e, e.key.id);
      assert e.val.Ref? ==> EntryPoints(e, e.val.id);
      cleared := IsCleared(e.key, true);
      if !cleared {
        DropsSame(objs, rs, old(color), objs, color);
        cleared := IsCleared(e.val, false);
      }
    }

    method ClearEntries(es: seq<Entry>, ghost rs: set<Id>) returns (kept: seq<Entry>)
      requires forall e, r :: e in es && EntryPoints(e, r) ==> r in objs && r in color && (objs[r].String? ==> r in rs)
      modifies this`color
      ensures Grows(old(color), color) && StringsMarked(objs, rs, old(color), color)
      ensures EntriesCleared(es, kept, color) && kept == EntriesLeft(objs, old(color), es)
    {
      hide Drops;
      hide EntryPoints;
      var i := |es|;
      kept := [];
      FewerPointsRefl(objs);
      assert es[i..] == [];
      while i > 0
        invariant 0 <= i <= |es|
        invariant kept == EntriesLeft(objs, old(color), es[i..])
        invariant Grows(old(color), color) && StringsMarked(objs, rs, old(color), color)
        invariant EntriesCleared(es, kept, color)
      {
        ghost var rest := es[i..];
        i := i - 1;
        var e := es[i];
        assert e in es && es[i..] == [e] + rest && es[i..][1..] == rest;
        DropsSame(objs, rs, old(color), objs, color);
        var cleared := EntryIsCleared(e, rs);
        if !cleared {
          kept := [e] + kept;
        }
      }
      assert es[0..] == es;
    }

    /** Removes from one weak table the entries whose key or value was not reached. */
    method ClearOne(t: Id, ghost rs: set<Id>)
      requires ClosedUnder(objs, rs) && rs <= color.Keys && NoneDangling(objs) && color.Keys == objs.Keys
      requires t in rs && objs[t].Table? && t in weakbits && weakbits[t] == objs[t].mode && StrongSettled(objs, color, t)
      modifies this`objs, this`color
      ensures FewerPoints(old(objs), objs) && SameButTables(old(objs), objs)
      ensures objs == old(objs)[t := TableLeft(old(objs), old(color), old(objs)[t])]
      ensures Grows(old(color), color) && StringsMarked(old(objs), rs, old(color), color)
      ensures Settled(objs, color, t)
    {
      hide Points;
      hide StrongSettled;
      hide Settled;
      hide ClosedUnder;
      hide ValuesCleared;
      hide EntriesCleared;
      RefsInside(objs, rs, t);
      TableRefsThere(objs, t);
      ghost var h, c := objs, color;
      assert rs <= objs.Keys;
      var arr := objs[t].arr;
      if weakbits[t].weakValue {
        arr := ClearValues(arr, rs);
      }
      ghost var c1 := color;
      SameEntriesLeft(objs, rs, c, c1, objs[t].node);
      var node := ClearEntries(objs[t].node, rs);
      assert weakbits[t].weakValue ==> ValuesCleared(objs[t].arr, arr, color) by {
        if weakbits[t].weakValue {
          ValuesClearedGrows(objs[t].arr, arr, c1, color);
        }
      }
      objs := objs[t := objs[t].(arr := arr, node := node)];
      ClearedTable(h, c, color, t, h[t].mode, arr, node, objs);
      OneTableFewerPoints(h, objs, t);
    }

    /** Removes from all tables on the weak list the entries that were not reached. */
    method ClearTables(ghost rs: set<Id>)
      requires MarkInv(View(), {}, rs) && gray == [] && NoneDangling(objs)
      modifies this`objs, this`color
      ensures FewerPoints(old(objs), objs) && SameButTables(old(objs), objs)
      ensures Grows(old(color), color) && StringsMarked(old(objs), rs, old(color), color)
      ensures forall x :: NonWhite(color, x) ==> x in rs
      ensures AllSettled(objs, color)
      ensures weak == [] ==> objs == old(objs) && color == old(color)
      ensures WeakCleared(old(objs), old(color), weak, objs)
    {
      hide *;
      var i := 0;
      ghost var h, c := objs, color;
      ViewIs();
      WeakTraversed(View(), rs);
      ClearingStarts(h, c, weak, rs);
      WeakClearedStarts(h, c);
      assert weak[..0] == [];
      while i < |weak|
        invariant 0 <= i <= |weak|
        invariant WeakCleared(h, c, weak[..i], objs)
        invariant Clearing(h, c, weak, rs, i, objs, color)
        invariant i == 0 ==> objs == h && color == c
      {
        ghost var h1, c1 := objs, color;
        ClearingNext(h, c, weak, rs, i, objs, color, weakbits);
        ClearingFacts(h, c, weak, rs, i, objs, color);
        ClearOne(weak[i], rs);
        WeakClearedStep(h, rs, c, weak, i, h1, c1, objs);
        ClearingStep(h, c, weak, rs, i, h1, c1, objs, color);
        i := i + 1;
      }
      AllSettledAfter(h, c, weak, rs, objs, color);
      assert weak[..i] == weak;
    }

    /** The atomic step up to the point where the userdata to be finalized are known: everything that was
        left stale by the incremental phase is traversed again. */
    method RemarkAll(ghost rs: set<Id>)
      requires Inv(Snap(), rs) && gcstate == Propagate && gray == []
      requires forall r :: r in Roots(Snap()) ==> r in rs
      modifies this`color, this`gray, this`grayagain, this`weak, this`weakbits
      ensures MarkInv(View(), IdSet(tmudata), rs) && gray == []
      ensures Grows(old(color), color)
      ensures NonWhite(color, running) && forall r :: Ref(r) in mt ==> NonWhite(color, r)
      ensures OnlyThreads(objs, grayagain) && (old(WeakNotBlack(objs, color)) ==> WeakNotBlack(objs, color))
    {
      hide *;
      ghost var s := Snap();
      SnapIs();
      ViewIs();
      AtomicStart(s, rs);
      ghost var c0 := color;
      ghost var stale1 := IdSet(grayagain) + IdSet(weak) + IdSet(tmudata);
      RemarkUpvals(stale1, rs);
      ghost var c1 := color;
      PropagateAll(stale1, rs);
      GrowsTrans(c0, c1, color);
      ghost var stale2 := IdSet(s.m.grayagain) + IdSet(tmudata);
      ViewIs();
      IdSetsMoved(stale1, stale2, s.m.weak, weak);
      GrayFromWeak(View(), stale1, stale2, rs);
      gray := weak;
      weak := [];
      ViewIs();
      ghost var c2 := color;
      ghost var added1 := MarkRoot1(Ref(running), stale2, rs);
      MarkStepWeak(objs, rs, c2, color, added1);
      GrowsTrans(c0, c2, color);
      ghost var c3 := color;
      ghost var added2 := MarkMt(stale2, rs);
      MarkStepWeak(objs, rs, c3, color, added2);
      GrowsTrans(c0, c3, color);
      ghost var c4 := color;
      PropagateAll(stale2, rs);
      GrowsTrans(c0, c4, color);
      GrowsTrans(c3, c4, color);
      ghost var c5 := color;
      ViewIs();
      IdSetsMoved(stale2, IdSet(tmudata), s.m.grayagain, grayagain);
      GrayFromGrayAgain(View(), stale2, IdSet(tmudata), rs);
      gray := grayagain;
      grayagain := [];
      NoneThreads(objs);
      ViewIs();
      PropagateAll(IdSet(tmudata), rs);
      GrowsTrans(c0, c5, color);
      GrowsTrans(c3, c5, color);
      GrowsTrans(c4, c5, color);
      KeepsMarks(c3, color, Ref(running));
      KeepsAllMarks(c4, color, mt);
    }

    method RemarkReached(ghost rs: set<Id>)
      requires Inv(Snap(), rs) && gcstate == Propagate && gray == []
      requires forall r :: r in Roots(Snap()) ==> r in rs
      modifies this`color, this`gray, this`grayagain, this`weak, this`weakbits
      ensures Remarked(old(Snap()), View(), rs)
    {
      hide *;
      ghost var s0 := Snap();
      SnapIs();
      ViewIs();
      SparedServes(s0, rs);
      RemarkAll(Spared(s0));
      ViewIs();
      RemarkedNow(s0, View(), rs);
    }

    method SeparateReached(ghost rs: set<Id>) returns (ghost c1: Colors, ghost moved: seq<Id>)
      requires Inv(Snap(), rs) && gcstate == Propagate && gray == []
      requires forall r :: r in Roots(Snap()) ==> r in rs
      requires forall u :: u in udata && Separable(objs, color, u) ==> u in rs
      modifies this`objs, this`color, this`gray, this`grayagain, this`weak, this`weakbits, this`udata, this`tmudata
      ensures c1 == color
      ensures Separated(old(Snap()), Snap(), c1, moved, rs)
      ensures FinalizersQueued(old(Snap()), Snap()) && FinalizersOnce(old(Snap()), Snap())
      ensures SetAside(old(Snap()), Snap())
    {
      hide *;
      ghost var s0 := Snap();
      SnapIs();
      ViewIs();
      RemarkReached(rs);
      ghost var m1 := View();
      ViewIs();
      RemarkedFacts(s0, m1, rs);
      c1 := color;
      moved := SeparateUdata();
      ViewIs();
      SnapIs();
      SeparatedNow(s0, m1, rs, Snap(), moved);
    }

    /** The atomic step up to the clearing of the weak tables. */
    method FinishMarking(ghost rs: set<Id>)
      requires Inv(Snap(), rs) && gcstate == Propagate && gray == []
      requires forall r :: r in Roots(Snap()) ==> r in rs
      requires forall u :: u in udata && Separable(objs, color, u) ==> u in rs
      modifies this`objs, this`color, this`gray, this`grayagain, this`weak, this`weakbits, this`udata, this`tmudata
      ensures Finished(old(Snap()), Snap(), rs) && SeparatedFrom(old(objs), objs)
      ensures FinalizersQueued(old(Snap()), Snap()) && FinalizersOnce(old(Snap()), Snap())
    {
      hide *;
      ghost var s0 := Snap();
      SnapIs();
      ViewIs();
      ghost var c1, moved := SeparateReached(rs);
      ghost var s1 := Snap();
      SnapIs();
      ViewIs();
      SeparatedFacts(s0, s1, c1, moved, rs);
      SetAsideIs(s0, s1);
      MarkTmu(rs);
      ghost var c3 := color;
      PropagateAll({}, rs);
      ViewIs();
      SnapIs();
      SetAsideIs(s0, Snap());
      FinishedNow(s0, s1, c1, c3, Snap(), moved, rs);
      FewerPointsRefl(objs);
      QueuedLater(s0, s1, Snap());
      OnceLater(s0, s1, Snap());
    }

    method Flip()
      modifies this`currentwhite, this`gcstate, this`sweepstrgc, this`sweepgc
      ensures Snap() == old(Snap()).(cw := Other(old(currentwhite)), phase := SweepString, sweepstrgc := 0, sweepgc := 0)
    {
      hide *;
      SnapIs();
      currentwhite := Other(currentwhite);
      sweepstrgc := 0;
      sweepgc := 0;
      gcstate := SweepString;
      SnapIs();
    }

    /** The end of the mark phase: nothing marked refers to anything unmarked, the userdata to be
        finalized are preserved, weak tables are cleared, and the other white becomes the dead one. */
    method Atomic(ghost rs: set<Id>)
      requires Inv(Snap(), rs) && gcstate == Propagate && gray == []
      requires forall r :: r in Roots(Snap()) ==> r in rs
      requires forall u :: u in udata && Separable(objs, color, u) ==> u in rs
      modifies this`objs, this`color, this`gray, this`grayagain, this`weak, this`weakbits, this`udata, this`tmudata, this`currentwhite, this`gcstate, this`sweepstrgc, this`sweepgc
      ensures Inv(Snap(), rs) && gcstate == SweepString
      ensures AtomicDone(old(Snap()), Snap(), rs)
    {
      hide *;
      ghost var s0 := Snap();
      SnapIs();
      ViewIs();
      FinishMarking(rs);
      ghost var s4 := Snap();
      ViewIs();
      SnapIs();
      FinishedFacts(s0, s4, rs);
      ClearTables(rs);
      ViewIs();
      SnapIs();
      ghost var s5 := Snap();
      Flip();
      SnapIs();
      AtomicEnd(s0, s4, s5, Snap(), rs);
    }

    /** The forward barrier: the value is marked during propagation; in any other phase the owner is
        whitened instead, so that it does not trigger the barrier again. */
    method BarrierF(o: Id, v: Id, ghost rs: set<Id>) returns (ghost added: seq<Id>)
      requires gcstate == Propagate ==> ClosedUnder(objs, rs) && rs <= color.Keys && v in rs
      requires v in color && color[v].White? && o in color
      modifies this`color, this`gray
      ensures gray == added + old(gray)
      ensures gcstate == Propagate ==> MarkStep(objs, rs, old(color), color, added) && NonWhite(color, v)
      ensures gcstate != Propagate ==> added == [] && color == old(color)[o := White(currentwhite)]
    {
      if gcstate == Propagate {
        added := ReallyMarkObject(v, rs);
      } else {
        color := color[o := White(currentwhite)];
        added := [];
        assert gray == [] + gray;
      }
    }

    /** Closes the first open upvalue of `t`: it takes its own copy of the value, leaves both lists of
        open upvalues, and is linked with the other objects. */
    method UnlinkFirst(t: Id)
      requires HasOpen(Snap(), t)
      modifies this`objs, this`rootgc, this`uvhead, this`sweepgc
      ensures Snap() == ClosedState(old(Snap()), t)
    {
      var u := objs[t].openupval[0];
      uvhead := Without(uvhead, u);
      var v := CellValue(objs, objs[u].cell);
      objs := objs[t := objs[t].(openupval := objs[t].openupval[1..])][u := UpVal(Closed(v))];
      rootgc := [u] + rootgc;
      if sweepgc > 0 {
        sweepgc := sweepgc + 1;
      }
    }

    /** luaC_linkupval for an upvalue that is marked. */
    method ShadeClosed(u: Id, ghost rs: set<Id>) returns (ghost added: seq<Id>)
      requires u in objs && u in color && objs[u].UpVal? && objs[u].cell.Closed? && color[u] != Black
      requires gcstate == Propagate ==> ClosedUnder(objs, rs) && rs <= color.Keys && (color[u] == Gray ==> u in rs)
      modifies this`color, this`gray
      ensures gray == added + old(gray)
      ensures gcstate != Propagate ==> added == [] && color == (if old(color)[u] == Gray then old(color)[u := White(currentwhite)] else old(color))
      ensures gcstate == Propagate ==>
        && MarkEffect(objs, rs, if old(color)[u] == Gray then old(color)[u := Black] else old(color), color, added)
        && (NonWhite(color, u) ==> ValueMarked(color, objs[u].cell.v))
    {
      added := [];
      assert gray == [] + gray;
      MarkStepRefl(objs, rs, color);
      if color[u] == Gray {
        if gcstate == Propagate {
          color := color[u := Black];
          MarkStepRefl(objs, rs, color);
          var v := objs[u].cell.v;
          if v.Ref? {
            RefsInside(objs, rs, u);
            if color[v.id].White? {
              added := BarrierF(u, v.id, rs);
            }
          }
        } else {
          color := color[u := White(currentwhite)];
        }
      }
    }

    method CloseFirst(t: Id, ghost rs: set<Id>)
      requires Inv(Snap(), rs) && HasOpen(Snap(), t) && Live(Snap().Sw(), objs[t].openupval[0])
      modifies this`objs, this`rootgc, this`uvhead, this`sweepgc, this`color, this`gray
      ensures Inv(Snap(), rs) && SweepRel(old(Snap()), Snap())
      ensures Snap().m.h == ClosedFirst(old(objs), t) && Snap().l == ClosedState(old(Snap()), t).l && sweepgc == ClosedState(old(Snap()), t).sweepgc
    {
      hide *;
      ghost var s0 := Snap();
      SnapIs();
      ViewIs();
      ClosedStateIs(s0, t);
      var u := objs[t].openupval[0];
      CloseReady(s0, t, rs);
      UnlinkFirst(t);
      SnapIs();
      ViewIs();
      ghost var added := ShadeClosed(u, rs);
      SnapIs();
      ViewIs();
      CloseDone(s0, t, rs, Snap(), added);
    }

    /** A dead open upvalue leaves the list of its thread and the list of all open upvalues, and is freed. */
    method FreeUpVal(t: Id, j: nat)
      requires t in objs && objs[t].Thread? && j < |objs[t].openupval|
      modifies this`objs, this`color, this`uvhead
      ensures Snap() == UpValFreed(old(Snap()), t, j)
    {
      var u := objs[t].openupval[j];
      uvhead := Without(uvhead, u);
      objs := Unlinked(objs, t, j) - {u};
      color := color - {u};
    }

    /** One round of luaF_close: the first open upvalue is freed if it is dead and closed if it is not. */
    method CloseNext(t: Id, ghost rs: set<Id>)
      requires Inv(Snap(), rs) && HasOpen(Snap(), t)
      modifies this`objs, this`rootgc, this`uvhead, this`sweepgc, this`color, this`gray
      ensures Closes(old(Snap()), Snap(), t, rs)
      ensures t in objs && objs[t].Thread? && |objs[t].openupval| < old(if t in objs && objs[t].Thread? then |objs[t].openupval| else 0)
    {
      hide *;
      ghost var s1 := Snap();
      SnapIs();
      ViewIs();
      InvBasic(s1, rs);
      ClosedStateIs(s1, t);
      OpenKnown(s1, t, 0);
      LiveIs(s1, objs[t].openupval[0]);
      if Dead(color, currentwhite, fixed, objs[t].openupval[0]) {
        UpValFreedInv(s1, t, 0, rs);
        FreeKeepsCursor(s1, t, 0);
        RemoveAtLength(objs[t].openupval, 0);
        FreeUpVal(t, 0);
      } else {
        CloseFirst(t, rs);
        SnapIs();
        CloseKeepsCursor(s1, t, Snap(), rs);
      }
      SnapIs();
      ViewIs();
      CursorKeptIs(s1, Snap(), t);
      ClosesNow(s1, Snap(), t, rs);
    }

    /** luaF_close: no open upvalue of `t` at or above `level` is left at the head of its list. */
    method LuaFClose(t: Id, level: nat, ghost rs: set<Id>)
      requires Inv(Snap(), rs) && t in objs && objs[t].Thread?
      modifies this`objs, this`rootgc, this`uvhead, this`sweepgc, this`color, this`gray
      ensures Closes(old(Snap()), Snap(), t, rs)
      ensures t in objs && objs[t].Thread?
      ensures objs[t].openupval == [] || var u := objs[t].openupval[0];
                u in objs && objs[u].UpVal? && objs[u].cell.Open? && objs[u].cell.slot < level
    {
      hide *;
      ghost var s0 := Snap();
      SnapIs();
      ViewIs();
      ClosesRefl(s0, t, rs);
      while objs[t].openupval != []
        invariant t in objs && objs[t].Thread?
        invariant Closes(s0, Snap(), t, rs)
        decreases |objs[t].openupval|
      {
        ghost var s1 := Snap();
        SnapIs();
        ViewIs();
        ClosesFirst(s0, s1, t, rs);
        if objs[objs[t].openupval[0]].cell.slot < level {
          return;
        }
        CloseNext(t, rs);
        ClosesTrans(s0, s1, Snap(), t, rs);
      }
    }

    /** The sweep of the open upvalues of a thread. */
    method SweepOpenUpvals(t: Id, ghost rs: set<Id>)
      requires Inv(Snap(), rs) && gcstate == Sweep && t in objs && objs[t].Thread?
      modifies this`objs, this`color, this`uvhead
      ensures UpvalsSwept(old(Snap()), Snap(), t, if t in objs && objs[t].Thread? then |objs[t].openupval| else 0, rs)
    {
      hide *;
      ghost var s0 := Snap();
      SnapIs();
      ViewIs();
      UpvalsNoneSwept(s0, t, rs);
      var p := 0;
      while p < |objs[t].openupval|
        invariant t in objs && objs[t].Thread? && p <= |objs[t].openupval|
        invariant UpvalsSwept(s0, Snap(), t, p, rs)
        decreases |objs[t].openupval| - p
      {
        ghost var s1 := Snap();
        SnapIs();
        ViewIs();
        UpvalsSweptFacts(s0, s1, t, p, rs);
        var u := objs[t].openupval[p];
        LiveIs(s1, u);
        if !Dead(color, currentwhite, fixed, u) {
          UpvalWhitenedSwept(s0, s1, t, p, rs);
          color := color[u := White(currentwhite)];
          WhitenedIs(s1, u);
          SnapIs();
          ViewIs();
          p := p + 1;
        } else {
          UpvalFreedSwept(s0, s1, t, p, rs);
          FreeUpVal(t, p);
          SnapIs();
          ViewIs();
        }
        UpvalsSweptFacts(s0, Snap(), t, p, rs);
      }
    }

    method UnlinkObject(i: nat)
      requires i < |AllObjects(LinkView())|
      modifies this`objs, this`color, this`rootgc, this`udata
      ensures Snap() == ObjectFreed(old(Snap()), i)
    {
      var x := if i < |rootgc| then rootgc[i] else udata[i - |rootgc|];
      if i < |rootgc| {
        rootgc := RemoveAt(rootgc, i);
      } else {
        udata := RemoveAt(udata, i - |rootgc|);
      }
      objs := objs - {x};
      color := color - {x};
    }

    /** Frees the object under the cursor; a thread first closes its upvalues. */
    method FreeCurrent(ghost rs: set<Id>)
      requires Inv(Snap(), rs) && gcstate == Sweep && sweepgc < |AllObjects(LinkView())|
      requires !Live(Snap().Sw(), AllObjects(LinkView())[sweepgc])
      modifies this`objs, this`color, this`gray, this`rootgc, this`udata, this`uvhead, this`sweepgc
      ensures Inv(Snap(), rs) && SweepRel(old(Snap()), Snap())
      ensures SweepLeft(Snap()) < SweepLeft(old(Snap()))
    {
      hide *;
      ghost var s0 := Snap();
      SnapIs();
      ViewIs();
      ObjectKnown(s0, sweepgc, rs);
      AllObjectsIs(s0.l);
      var fromEnd := |rootgc| - sweepgc;
      var x := if sweepgc < |rootgc| then rootgc[sweepgc] else udata[sweepgc - |rootgc|];
      if objs[x].Thread? {
        LuaFClose(x, 0, rs);
      } else {
        NotClosed(s0, rs);
      }
      SnapIs();
      ViewIs();
      ClosedForFree(s0, Snap(), x, fromEnd, rs);
      UnlinkObject(|rootgc| - fromEnd);
    }

    /** One round of sweeplist over the objects. */
    method SweepOne(ghost rs: set<Id>)
      requires Inv(Snap(), rs) && gcstate == Sweep && sweepgc < |AllObjects(LinkView())|
      modifies this`objs, this`color, this`gray, this`rootgc, this`udata, this`uvhead, this`sweepgc
      ensures Inv(Snap(), rs) && SweepRel(old(Snap()), Snap())
      ensures SweepLeft(Snap()) < SweepLeft(old(Snap()))
    {
      hide *;
      ghost var s0 := Snap();
      SnapIs();
      ViewIs();
      ObjectKnown(s0, sweepgc, rs);
      AllObjectsIs(s0.l);
      var curr := if sweepgc < |rootgc| then rootgc[sweepgc] else udata[sweepgc - |rootgc|];
      if objs[curr].Thread? {
        SweepOpenUpvals(curr, rs);
      }
      SnapIs();
      ViewIs();
      ghost var s1 := Snap();
      ReadyToSweep(s0, s1, curr, rs);
      if !Dead(color, currentwhite, fixed, curr) {
        KeepInv(s1, curr, rs);
        WhitenedIs(s1, curr);
        color := color[curr := White(currentwhite)];
        sweepgc := sweepgc + 1;
      } else {
        FreeCurrent(rs);
      }
      SnapIs();
      ViewIs();
      SweepRelTrans(s0, s1, Snap());
    }

    /** sweeplist over at most `count` objects. */
    method SweepList(count: nat, ghost rs: set<Id>)
      requires Inv(Snap(), rs) && gcstate == Sweep
      modifies this`objs, this`color, this`gray, this`rootgc, this`udata, this`uvhead, this`sweepgc
      ensures Inv(Snap(), rs) && SweepRel(old(Snap()), Snap())
      ensures SweepLeft(Snap()) < SweepLeft(old(Snap())) || (SweepLeft(Snap()) == SweepLeft(old(Snap())) && (count == 0 || sweepgc >= |rootgc| + |udata|))
    {
      hide *;
      var n := count;
      ghost var s0 := Snap();
      SnapIs();
      InvBasic(s0, rs);
      SweepRelRefl(s0);
      while sweepgc < |rootgc| + |udata| && n > 0
        invariant Inv(Snap(), rs) && SweepRel(s0, Snap())
        invariant SweepLeft(Snap()) < SweepLeft(s0) || (n == count && SweepLeft(Snap()) == SweepLeft(s0))
        decreases n
      {
        ghost var s1 := Snap();
        SnapIs();
        AllObjectsIs(s1.l);
        SweepOne(rs);
        SweepRelTrans(s0, s1, Snap());
        n := n - 1;
      }
    }

    method FreeString(b: nat, i: nat)
      requires b < |strt| && i < |strt[b]|
      modifies this`objs, this`color, this`strt
      ensures Snap() == StringFreed(old(Snap()), b, i)
    {
      var x := strt[b][i];
      strt := strt[b := RemoveAt(strt[b], i)];
      objs := objs - {x};
      color := color - {x};
    }

    /** One round of sweeplist over a bucket. */
    method SweepString1(b: nat, p: nat, ghost s0: State, ghost rs: set<Id>) returns (next: nat)
      requires BucketSwept(s0, Snap(), b, p, rs) && b < |strt| && p < |strt[b]|
      modifies this`objs, this`color, this`strt
      ensures BucketSwept(s0, Snap(), b, next, rs)
      ensures b < |strt| && next <= |strt[b]| && |strt[b]| - next < old(if b < |strt| then |strt[b]| else 0) - p
    {
      hide *;
      ghost var s1 := Snap();
      SnapIs();
      ViewIs();
      BucketSweptFacts(s0, s1, b, p, rs);
      var x := strt[b][p];
      LiveIs(s1, x);
      if !Dead(color, currentwhite, fixed, x) {
        StringWhitenedSwept(s0, s1, b, p, rs);
        WhitenedIs(s1, x);
        color := color[x := White(currentwhite)];
        next := p + 1;
      } else {
        StringFreedSwept(s0, s1, b, p, rs);
        FreeString(b, p);
        next := p;
      }
      SnapIs();
      ViewIs();
      BucketSweptFacts(s0, Snap(), b, next, rs);
    }

    /** One step of the GCSsweepstring phase: a whole bucket is swept. */
    method SweepStringStep(ghost rs: set<Id>)
      requires Inv(Snap(), rs) && gcstate == SweepString
      modifies this`objs, this`color, this`strt, this`sweepstrgc, this`gcstate
      ensures Inv(Snap(), rs) && StepRel(old(Snap()), Snap())
      ensures |strt| == |old(strt)| && sweepstrgc == old(sweepstrgc) + 1 && sweepgc == 0
      ensures gcstate == (if sweepstrgc >= |strt| then Sweep else SweepString)
    {
      hide *;
      ghost var s0 := Snap();
      SnapIs();
      BucketStart(s0, rs);
      var b: nat := sweepstrgc;
      var p: nat := 0;
      while p < |strt[b]|
        invariant b < |strt| && p <= |strt[b]|
        invariant BucketSwept(s0, Snap(), b, p, rs)
        modifies this`objs, this`color, this`strt
        decreases |strt[b]| - p
      {
        p := SweepString1(b, p, s0, rs);
      }
      ghost var s2 := Snap();
      SnapIs();
      BucketSweptFacts(s0, s2, b, p, rs);
      BucketCount(s0, s2, b, p, rs);
      sweepstrgc := sweepstrgc + 1;
      if sweepstrgc >= |strt| {
        gcstate := Sweep;
      }
      SnapIs();
      BucketDone(s0, s2, Snap(), rs);
    }

    /** One step of the GCSsweep phase: at most GCSWEEPMAX objects are swept. */
    method SweepStep(ghost rs: set<Id>)
      requires Inv(Snap(), rs) && gcstate == Sweep
      modifies this`objs, this`color, this`gray, this`rootgc, this`udata, this`uvhead, this`sweepgc, this`gcstate
      ensures Inv(Snap(), rs) && StepRel(old(Snap()), Snap())
      ensures gcstate == Finalize || (gcstate == Sweep && SweepLeft(Snap()) < SweepLeft(old(Snap())))
    {
      hide *;
      ghost var s0 := Snap();
      SweepList(GCSWEEPMAX, rs);
      ghost var s1 := Snap();
      SnapIs();
      SomeAreSwept();
      SweepRelStep(s0, s1);
      if sweepgc >= |rootgc| + |udata| {
        SweepEnds(s0, s1, rs);
        gcstate := Finalize;
      }
      SnapIs();
      ViewIs();
    }

    method MarkRoots(ghost stale: set<Id>, ghost rs: set<Id>) returns (ghost added: seq<Id>)
      requires MarkInv(View(), stale, rs)
      requires RootsInside(objs, mainthread, registry, mt, rs)
      modifies this`color, this`gray
      ensures MarkInv(View(), stale, rs) && MarkStep(objs, rs, old(color), color, added)
      ensures Grows(old(color), color) && NonWhite(color, mainthread) && ValueMarked(color, registry)
      ensures OnlyFrom(objs, old(color), color, RootValues(Snap())) && AllMarked(color, RootValues(Snap()))
    {
      hide *;
      RootsInsideIs(objs, mainthread, registry, mt, rs);
      ghost var c0 := color;
      ghost var a1 := MarkRoot1(Ref(mainthread), stale, rs);
      ghost var c1 := color;
      ghost var a2 := MarkRoot1(objs[mainthread].gt, stale, rs);
      ghost var c2 := color;
      ghost var a3 := MarkRoot1(registry, stale, rs);
      ghost var c3 := color;
      ghost var a4 := MarkMt(stale, rs);
      MarksKept(c0, c1, c2, c3, color, mainthread, registry);
      MarkStepTrans(objs, rs, c0, c1, a1, c2, a2);
      MarkStepTrans(objs, rs, c0, c2, a2 + a1, c3, a3);
      MarkStepTrans(objs, rs, c0, c3, a3 + (a2 + a1), color, a4);
      added := a4 + (a3 + (a2 + a1));
      SnapIs();
      ViewIs();
      RootsDone(Snap(), c0, c1, c2, c3, color);
    }

    method EmptyLists()
      modifies this`gray, this`grayagain, this`weak
      ensures View() == old(View()).(gray := [], grayagain := [], weak := [])
      ensures gray == [] && grayagain == [] && weak == []
    {
      hide *;
      ViewIs();
      gray := [];
      grayagain := [];
      weak := [];
      ViewIs();
    }

    /** Empties the lists and marks the roots. */
    method StartMarking(ghost rs: set<Id>) returns (ghost added: seq<Id>)
      requires Inv(Snap(), rs) && (gcstate == Pause || gcstate == Finalize)
      requires ClosedUnder(objs, rs) && (forall r :: r in Roots(Snap()) ==> r in rs)
      modifies this`color, this`gray, this`grayagain, this`weak
      ensures Started(old(Snap()), Snap(), rs) && Begun(old(Snap()), Snap())
      ensures MarkEffect(objs, rs, old(color), color, added)
    {
      hide *;
      ghost var s0 := Snap();
      SnapIs();
      ViewIs();
      MarkStart(s0, rs);
      RootsIn(s0, rs);
      EmptyLists();
      ghost var s1 := Snap();
      SnapIs();
      added := MarkRoots(IdSet(tmudata) + IdSet(uvhead), rs);
      WhitesStep(objs, rs, s0.m.c, color, added);
      SnapIs();
      ViewIs();
      StartedIs(s0, Snap(), rs);
      RootValuesSame(s0, Snap());
      BegunNow(s0, rs, added, Snap());
    }

    /** Starts a cycle. */
    method MarkRoot(ghost rs: set<Id>)
      requires Inv(Snap(), rs) && (gcstate == Pause || gcstate == Finalize)
      requires ClosedUnder(objs, rs) && (forall r :: r in Roots(Snap()) ==> r in rs)
      modifies this`color, this`gray, this`grayagain, this`weak, this`gcstate
      ensures Inv(Snap(), rs) && gcstate == Propagate && Begun(old(Snap()), Snap()) && grayagain == [] && weak == []
      ensures BlackToMarked(Snap()) <==> old(WaitingSettled(Snap()))
      ensures NoBlackWeak(Snap()) && forall x :: x in objs && objs[x].Table? && x in color ==> color[x] != Black
    {
      hide *;
      ghost var s0 := Snap();
      SnapIs();
      ViewIs();
      ghost var added := StartMarking(rs);
      ghost var s1 := Snap();
      SnapIs();
      ViewIs();
      StartedLists(s0, s1, rs);
      gcstate := Propagate;
      SnapIs();
      ViewIs();
      MarkStarted(s0, s1, rs);
      BegunLater(s0, s1, Snap());
      BegunColours(s0, rs, added, Snap());
    }

    /** One step of the GCSpropagate phase: one gray object is traversed, or the mark phase ends. */
    method PropagateStep(ghost rs: set<Id>)
      requires Inv(Snap(), rs) && gcstate == Propagate
      requires forall r :: r in Roots(Snap()) ==> r in rs
      requires forall u :: gray == [] && u in udata && Separable(objs, color, u) ==> u in rs
      modifies this`objs, this`color, this`gray, this`grayagain, this`weak, this`weakbits, this`udata, this`tmudata, this`currentwhite, this`gcstate, this`sweepstrgc, this`sweepgc
      ensures Inv(Snap(), rs)
      ensures if old(gray) != []
              then objs == old(objs) && Snap() == old(Snap()).(m := View()) && Propagated(old(View()), View())
                && 2 * |Whites(color)| + |gray| < 2 * |Whites(old(color))| + |old(gray)|
              else gcstate == SweepString && AtomicDone(old(Snap()), Snap(), rs)
    {
      hide *;
      if gray != [] {
        ghost var s0 := Snap();
        SnapIs();
        ViewIs();
        PropagateInv(s0, rs);
        PropagateMark(Stale(s0), rs);
        SnapIs();
        ViewIs();
        PropagateKept(s0, Snap(), rs);
      } else {
        Atomic(rs);
      }
    }

    /** Takes the first userdata off the list of those to be finalized and links it with the others. */
    method TakeUdata(ghost rs: set<Id>) returns (u: Id)
      requires Inv(Snap(), rs) && gcstate == Finalize && tmudata != []
      modifies this`color, this`udata, this`tmudata
      ensures Snap() == Finalizing(old(Snap())) && u == old(tmudata)[0] && udata == [u] + old(udata)
      ensures u in objs && running in objs && objs[running].Thread?
      ensures Inv(Snap(), objs.Keys)
    {
      hide *;
      ghost var s0 := Snap();
      SnapIs();
      ViewIs();
      FinalizingInv(s0, rs);
      FinalizingIs(s0);
      u := tmudata[0];
      tmudata := tmudata[1..];
      udata := [u] + udata;
      color := color[u := White(currentwhite)];
      SnapIs();
      ViewIs();
      InvAnyRs(Snap(), rs, objs.Keys);
    }

    /** Pushes a value on the stack of the running thread; stack writes have no barrier. */
    method Push(v: Value)
      requires Inv(Snap(), objs.Keys) && running in objs && objs[running].Thread?
      requires v.Ref? ==> Live(Snap().Sw(), v.id)
      modifies this`objs
      ensures Inv(Snap(), objs.Keys)
      ensures objs == old(objs)[running := old(objs)[running].(stack := old(objs)[running].stack + [v])]
    {
      hide *;
      ghost var s0 := Snap();
      SnapIs();
      ViewIs();
      StackLive(s0, v);
      var stack := objs[running].stack + [v];
      AddsFromStack(objs, running, stack);
      StackInv(s0, running, stack);
      StackWrittenIs(objs, running, stack);
      objs := objs[running := objs[running].(stack := stack)];
      SnapIs();
      ViewIs();
      assert objs.Keys == old(objs).Keys;
    }

    /** One step of the GCSfinalize phase: the first waiting userdata is handed to its finalizer, or the
        cycle ends. The call itself is whatever the program does next. */
    method FinalizeStep(ghost rs: set<Id>)
      requires Inv(Snap(), rs) && gcstate == Finalize
      modifies this`objs, this`color, this`udata, this`tmudata, this`gcstate
      ensures Inv(Snap(), rs)
      ensures objs.Keys == old(objs).Keys
      ensures old(tmudata) == [] ==> Snap() == old(Snap()).(phase := Pause)
      ensures old(tmudata) != [] ==> gcstate == Finalize && tmudata == old(tmudata)[1..]
      ensures old(tmudata) != [] ==> objs == FinalizerCalled(old(objs), running, old(tmudata)[0])
    {
      hide *;
      ghost var s0 := Snap();
      SnapIs();
      ViewIs();
      if tmudata == [] {
        FinalizeEnds(s0, rs);
        gcstate := Pause;
        SnapIs();
      } else {
        var u := TakeUdata(rs);
        FinalizingIs(s0);
        SnapIs();
        ViewIs();
        FinalizerCalledIs(objs, running, u);
        if objs[u].Userdata? && objs[u].hasGc {
          FinalizingLive(Snap(), u);
          Push(Ref(u));
          SnapIs();
        }
        InvAnyRs(Snap(), objs.Keys, rs);
      }
    }

    /** One step of the collector, with any `rs` that contains what the step may mark. */
    method SingleStepIn(ghost rs: set<Id>)
      requires Inv(Snap(), rs)
      requires gcstate == Pause || gcstate == Propagate ==> Contains(Snap(), rs)
      modifies this
      ensures Stepped(old(Snap()), Snap(), rs)
    {
      hide *;
      ghost var s0 := Snap();
      SnapIs();
      ViewIs();
      if gcstate == Pause {
        ContainsIs(s0, rs);
        MarkRoot(rs);
        SnapIs();
        ViewIs();
        SteppedPause(s0, Snap(), rs);
      } else if gcstate == Propagate {
        ContainsIs(s0, rs);
        PropagateStep(rs);
        SnapIs();
        ViewIs();
        SteppedPropagate(s0, Snap(), rs);
      } else if gcstate == SweepString {
        SweepStringStep(rs);
        SnapIs();
        SteppedSweepString(s0, Snap(), rs);
      } else if gcstate == Sweep {
        SweepStep(rs);
        SnapIs();
        SteppedSweep(s0, Snap(), rs);
      } else {
        FinalizeStep(rs);
        SnapIs();
        ViewIs();
        SameRootNow(s0, Snap());
        SteppedFinalize(s0, Snap(), rs);
      }
    }

    /** singlestep, at any moment of any run: nothing that the roots reach is freed, and no userdata whose finalizer has
        still to be called. */
    method SingleStep()
      requires Inv(Snap(), objs.Keys)
      modifies this
      ensures Inv(Snap(), objs.Keys)
      ensures Stepped(old(Snap()), Snap(), old(objs.Keys))
      ensures forall x :: Accessible(old(objs), old(Roots(Snap())), x) || Pending(old(objs), x) ==> x in objs
    {
      hide *;
      ghost var s0 := Snap();
      ghost var rs := objs.Keys;
      SnapIs();
      ViewIs();
      if gcstate != SweepString && gcstate != Sweep {
        AllContains(s0);
      }
      SingleStepIn(rs);
      SnapIs();
      ViewIs();
      SteppedSafe(s0, Snap(), rs);
      SteppedAll(s0, Snap(), rs);
      AccessibleAllLive(s0, rs);
    }

    /** The first part of luaC_fullgc: a pending sweep is finished, and everything is marked and swept anew. What
        was strongly accessible remains, and only what was accessible, or reached from userdata with a finalizer,
        or fixed. */
    method MarkAndSweep()
      requires Inv(Snap(), objs.Keys)
      modifies this
      ensures Inv(Snap(), objs.Keys) && gcstate == Finalize && SameRoot(old(Snap()), Snap())
      ensures forall x :: StrongAccessible(old(objs), old(Roots(Snap())), x) ==> x in objs
      ensures forall x :: x in objs ==> MarkAccessible(old(objs), old(Roots(Snap()) + PendingUdata(objs)), x) || x in old(fixed)
      ensures Collected(old(Snap()), Snap())
    {
      hide *;
      ghost var s0 := Snap();
      SnapIs();
      ViewIs();
      FinishSweep();
      ghost var s1 := Snap();
      SnapIs();
      ViewIs();
      ghost var rs, reach := Keepable(s1), Reach(s1);
      KeepableServes(s1);
      MarkRoot(reach);
      ghost var s2 := Snap();
      SnapIs();
      ViewIs();
      StartedWider(s1, s2);
      CollectsStart(s1, s2);
      ghost var s3 := s2;
      while gcstate != Finalize
        invariant Collects(s2, s3, Snap(), rs, reach)
        decreases PhasesLeft(gcstate), WorkLeft(Snap())
      {
        ghost var s4 := Snap();
        SnapIs();
        CollectsReady(s2, s3, s4, rs, reach);
        SingleStepIn(MayMark(s4, rs, reach));
        SnapIs();
        CollectsStep(s2, s3, s4, Snap(), rs, reach);
        s3 := if s4.phase == Propagate then Snap() else s3;
      }
      SnapIs();
      ViewIs();
      CollectsIs(s2, s3, Snap(), rs, reach);
      CollectingEnds(s0, s1, s2, Snap());
      CollectedNow(s0, s1, s2, s3, Snap());
    }

    /** luaC_fullgc, from any state of the collector. What the roots reach strongly remains, and only what marking
        reaches from them, or from userdata with a finalizer, or what is fixed. All userdata that the roots do not
        reach are handed to their finalizers, and weak tables hold what remains and has not been finalized. Without
        finalizers exactly what is strongly accessible or fixed remains, apart from strings. */
    method FullGC()
      requires Inv(Snap(), objs.Keys)
      modifies this
      ensures Inv(Snap(), objs.Keys) && gcstate == Pause && tmudata == [] && SameRoot(old(Snap()), Snap())
      ensures forall x :: StrongAccessible(old(objs), old(Roots(Snap())), x) ==> x in objs
      ensures forall x :: x in objs ==> MarkAccessible(old(objs), old(Roots(Snap()) + PendingUdata(objs)), x) || x in old(fixed)
      ensures forall x :: Accessible(objs, Roots(Snap()), x) ==> x in objs && Live(Snap().Sw(), x)
      ensures HandedOver(old(Snap()), Snap()) && TablesLeft(old(objs), objs)
      ensures old(NoFinalizers(objs)) ==>
                forall x :: x in old(objs) && !old(objs)[x].String? ==>
                  (x in objs <==> StrongAccessible(old(objs), old(Roots(Snap())), x) || x in old(fixed))
      ensures old(NoWeakTables(objs) && NoFinalizers(objs)) ==>
                forall x :: x in objs <==> Accessible(old(objs), old(Roots(Snap())), x) || x in old(fixed)
      ensures old(tmudata) == [] ==> Roots(Snap()) == old(Roots(Snap()))
    {
      hide *;
      ghost var s0 := Snap();
      SnapIs();
      ViewIs();
      MarkAndSweep();
      CallFinalizers(s0);
      SnapIs();
      ViewIs();
      AccessibleAllLive(Snap(), objs.Keys);
      LiveIn(Snap());
      FixedStay(Snap());
      SameRootFixed(s0, Snap());
      if NoFinalizers(s0.m.h) {
        forall x
          ensures x in s0.m.h && !s0.m.h[x].String? ==> (x in objs <==> StrongAccessible(s0.m.h, Roots(s0), x) || x in s0.fixed)
          ensures NoWeakTables(s0.m.h) ==> (x in objs <==> Accessible(s0.m.h, Roots(s0), x) || x in s0.fixed)
        {
          BoundsCoincide(s0, x);
        }
      }
      if s0.l.tmudata == [] {
        RootsSame(s0, Snap());
      }
    }

    /** The last part of a cycle: the waiting finalizers are called, one after the other. */
    method CallFinalizers(ghost s0: State)
      requires Inv(Snap(), objs.Keys) && gcstate == Finalize && SameRoot(s0, Snap()) && Collected(s0, Snap())
      modifies this
      ensures Inv(Snap(), objs.Keys) && gcstate == Pause && tmudata == [] && SameRoot(s0, Snap())
      ensures objs.Keys == old(objs.Keys)
      ensures HandedOver(s0, Snap()) && TablesLeft(s0.m.h, objs)
    {
      hide *;
      ghost var s1 := Snap();
      ghost var kept := objs.Keys;
      SnapIs();
      ViewIs();
      CollectedStack(s0, s1);
      HandingStarts(s1);
      ghost var k := 0;
      while gcstate != Pause
        invariant Inv(Snap(), objs.Keys) && (gcstate == Finalize || gcstate == Pause) && SameRoot(s0, Snap())
        invariant objs.Keys == kept && (gcstate == Pause ==> tmudata == []) && Handing(s1, Snap(), k)
        decreases PhasesLeft(gcstate), WorkLeft(Snap())
      {
        ghost var s2 := Snap();
        SnapIs();
        ViewIs();
        SingleStep();
        SnapIs();
        ViewIs();
        FinalStep(s2, Snap(), kept);
        SameRootTrans(s0, s2, Snap());
        StepProgress(s2, Snap(), kept);
        HandingStep(s1, s2, Snap(), k, kept);
        k := if s2.l.tmudata == [] then k else k + 1;
      }
      SnapIs();
      ViewIs();
      CollectedThenCalled(s0, s1, Snap(), k);
    }

    method ResetCursors()
      modifies this`sweepstrgc, this`sweepgc, this`gcstate
      ensures Snap() == old(Snap()).(phase := SweepString, sweepstrgc := 0, sweepgc := 0)
    {
      hide *;
      SnapIs();
      sweepstrgc := 0;
      sweepgc := 0;
      gcstate := SweepString;
      SnapIs();
    }

    /** Outside a sweep, luaC_fullgc first resets the cursors and the lists. */
    method ResetSweep(ghost rs: set<Id>)
      requires Inv(Snap(), rs)
      modifies this
      ensures Inv(Snap(), rs) && StepRel(old(Snap()), Snap()) && (gcstate == SweepString || gcstate == Sweep || gcstate == Finalize)
    {
      hide *;
      ghost var s0 := Snap();
      SnapIs();
      ViewIs();
      StepRelRefl(s0);
      if gcstate == Pause || gcstate == Propagate {
        ResetInv(s0, rs);
        EmptyLists();
        SnapIs();
        ResetCursors();
        SnapIs();
      }
    }

    /** The first part of luaC_fullgc: a pending sweep is finished, or one that frees nothing whitens everything. */
    method FinishSweep()
      requires Inv(Snap(), objs.Keys)
      modifies this
      ensures Inv(Snap(), objs.Keys) && gcstate == Finalize && StepRel(old(Snap()), Snap())
    {
      hide *;
      ghost var s0 := Snap();
      ghost var rs := objs.Keys;
      ResetSweep(rs);
      while gcstate != Finalize
        invariant Inv(Snap(), rs) && StepRel(s0, Snap()) && (gcstate == SweepString || gcstate == Sweep || gcstate == Finalize)
        decreases PhasesLeft(gcstate), WorkLeft(Snap())
      {
        ghost var s1 := Snap();
        SnapIs();
        SingleStepIn(rs);
        SnapIs();
        SweepingStep(s1, Snap(), rs);
        StepRelTrans(s0, s1, Snap());
        StepProgress(s1, Snap(), rs);
      }
      SnapIs();
      InvAnyRs(Snap(), rs, objs.Keys);
    }
  }
}
