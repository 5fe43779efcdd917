/** What the running program does to the heap while the collector is anywhere in its cycle. */
module Program {
  import opened Wrappers
  import opened LuaObjects
  import opened Marking
  import opened Places
  import opened States
  import opened Sweeps
  import opened Writes
  import opened TriColour
  import opened Cycle
  import opened Collector

  /** luaC_link. */
  method Link(g: GlobalState, id: Id, ob: Object)
    requires Inv(g.Snap(), g.objs.Keys) && id !in g.objs
    requires !ob.String? && !ob.Userdata? && !ob.UpVal? && (ob.Thread? ==> ob.openupval == [])
    requires NewRefsLive(g.Snap(), g.objs[id := ob], id)
    modifies g`objs, g`color, g`rootgc, g`sweepgc
    ensures Inv(g.Snap(), g.objs.Keys) && Live(g.Snap().Sw(), id)
    ensures g.Snap() == LinkedNew(old(g.Snap()), id, ob) && g.objs == old(g.objs)[id := ob]
    ensures forall x :: old(Live(g.Snap().Sw(), x)) ==> Live(g.Snap().Sw(), x)
    ensures TablesKept(old(g.Snap()), g.Snap())
  {
    hide *;
    ghost var s0 := g.Snap();
    g.SnapIs();
    g.ViewIs();
    LinkedNewInv(s0, id, ob);
    g.rootgc := [id] + g.rootgc;
    if g.sweepgc > 0 {
      g.sweepgc := g.sweepgc + 1;
    }
    g.objs := g.objs[id := ob];
    g.color := g.color[id := White(g.currentwhite)];
    g.SnapIs();
    g.ViewIs();
    LinkedNewIs(s0, id, ob, g.Snap());
    TablesKeptNew(s0, g.Snap(), id, ob);
  }

  /** luaS_newudata: userdata are linked after the main thread. */
  method LinkUdata(g: GlobalState, id: Id, ob: Object)
    requires Inv(g.Snap(), g.objs.Keys) && id !in g.objs && ob.Userdata?
    requires NewRefsLive(g.Snap(), g.objs[id := ob], id)
    modifies g`objs, g`color, g`udata, g`sweepgc
    ensures Inv(g.Snap(), g.objs.Keys) && Live(g.Snap().Sw(), id)
    ensures g.Snap() == LinkedUdata(old(g.Snap()), id, ob) && g.udata == [id] + old(g.udata)
    ensures g.objs == old(g.objs)[id := ob]
    ensures TablesKept(old(g.Snap()), g.Snap())
  {
    hide *;
    ghost var s0 := g.Snap();
    g.SnapIs();
    g.ViewIs();
    LinkedUdataInv(s0, id, ob);
    g.udata := [id] + g.udata;
    if g.sweepgc > |g.rootgc| {
      g.sweepgc := g.sweepgc + 1;
    }
    g.objs := g.objs[id := ob];
    g.color := g.color[id := White(g.currentwhite)];
    g.SnapIs();
    g.ViewIs();
    LinkedUdataIs(s0, id, ob, g.Snap());
    TablesKeptNew(s0, g.Snap(), id, ob);
  }

  /** luaS_newlstr when the string is not in its bucket. */
  method LinkString(g: GlobalState, id: Id, hash: nat)
    requires Inv(g.Snap(), g.objs.Keys) && id !in g.objs && |g.strt| > 0
    modifies g`objs, g`color, g`strt
    ensures Inv(g.Snap(), g.objs.Keys) && Live(g.Snap().Sw(), id)
    ensures g.Snap() == LinkedString(old(g.Snap()), id, hash) && g.objs == old(g.objs)[id := String(hash)]
    ensures TablesKept(old(g.Snap()), g.Snap())
  {
    hide *;
    ghost var s0 := g.Snap();
    g.SnapIs();
    g.ViewIs();
    LinkedStringInv(s0, id, hash);
    LinkedStringIs(s0, id, hash);
    var b := Bucket(hash, |g.strt|);
    g.strt := g.strt[b := [id] + g.strt[b]];
    g.objs := g.objs[id := String(hash)];
    g.color := g.color[id := White(g.currentwhite)];
    g.SnapIs();
    g.ViewIs();
    TablesKeptNew(s0, g.Snap(), id, String(hash));
  }

  /** changewhite of an object that the program has found again, when it is dead. */
  method Revive(g: GlobalState, u: Id)
    requires Inv(g.Snap(), g.objs.Keys) && u in g.objs && u in g.color
    requires forall r :: Points(g.objs, u, r) ==> Live(g.Snap().Sw(), r)
    modifies g`color
    ensures Inv(g.Snap(), g.objs.Keys) && Live(g.Snap().Sw(), u)
    ensures forall x :: old(Live(g.Snap().Sw(), x)) ==> Live(g.Snap().Sw(), x)
    ensures g.color == if old(g.color[u]) == White(Other(g.currentwhite)) then old(g.color)[u := White(g.currentwhite)] else old(g.color)
    ensures TablesKept(old(g.Snap()), g.Snap())
  {
    hide *;
    ghost var s0 := g.Snap();
    g.SnapIs();
    g.ViewIs();
    if g.color[u] == White(Other(g.currentwhite)) {
      ResurrectInv(s0, u);
      WhitenedIs(s0, u);
      g.color := g.color[u := White(g.currentwhite)];
      g.SnapIs();
      g.ViewIs();
      TablesKeptOne(s0, g.Snap(), u);
    } else {
      NotDeadLive(s0, u);
      TablesKeptSame(s0, s0);
    }
  }

  /** luaS_newlstr when the string is found: a dead one is resurrected. */
  method FoundString(g: GlobalState, x: Id)
    requires Inv(g.Snap(), g.objs.Keys) && x in g.objs && g.objs[x].String? && x in g.color
    modifies g`color
    ensures Inv(g.Snap(), g.objs.Keys) && Live(g.Snap().Sw(), x)
    ensures g.color == if old(g.color[x]) == White(Other(g.currentwhite)) then old(g.color)[x := White(g.currentwhite)] else old(g.color)
    ensures TablesKept(old(g.Snap()), g.Snap())
  {
    hide *;
    NoStringPoints(g.objs, x);
    Revive(g, x);
  }

  /** A write of `v` into an object that is not a table, followed by the forward barrier. */
  method WriteOwned(g: GlobalState, x: Id, ob: Object, v: Value)
    requires Inv(g.Snap(), g.objs.Keys) && Live(g.Snap().Sw(), x)
    requires Writes1(g.objs, x, ob, g.objs[x := ob]) && !ob.Table?
    requires AddsOnly(g.objs, x, ob, v) && (v.Ref? ==> Live(g.Snap().Sw(), v.id))
    modifies g`objs, g`color, g`gray
    ensures Inv(g.Snap(), g.objs.Keys) && g.objs == old(g.objs)[x := ob]
    ensures TablesKept(old(g.Snap()), g.Snap())
  {
    hide *;
    ghost var s0 := g.Snap();
    g.SnapIs();
    g.ViewIs();
    WriteReady(s0, x, ob, v);
    g.objs := g.objs[x := ob];
    if v.Ref? && g.color[v.id].White? && g.color[x] == Black {
      g.ViewIs();
      ghost var added := g.BarrierF(x, v.id, g.objs.Keys);
      g.SnapIs();
      g.ViewIs();
      BarrierDone(s0, x, ob, v.id, g.Snap(), added);
      if g.gcstate == Propagate {
        TablesKeptMarked(s0, x, ob, g.objs.Keys, g.Snap(), added);
      } else {
        TablesKeptOne(s0, g.Snap(), x);
      }
    } else {
      WriteNoBarrier(s0, x, ob, v);
      g.SnapIs();
      g.ViewIs();
      TablesKeptOne(s0, g.Snap(), x);
    }
  }

  /** luaC_barrierback. */
  method BarrierBack(g: GlobalState, t: Id)
    requires t in g.color
    modifies g`color, g`grayagain
    ensures g.Snap() == BarredBack(old(g.Snap()), t) && g.color == old(g.color)[t := Gray]
  {
    g.color := g.color[t := Gray];
    g.grayagain := [t] + g.grayagain;
  }

  /** A write of `v` into a table, followed by the backward barrier. */
  method WriteTable(g: GlobalState, t: Id, ob: Object, v: Value)
    requires Inv(g.Snap(), g.objs.Keys) && Live(g.Snap().Sw(), t)
    requires Writes1(g.objs, t, ob, g.objs[t := ob]) && ob.Table?
    requires AddsOnly(g.objs, t, ob, v) && (v.Ref? ==> Live(g.Snap().Sw(), v.id))
    modifies g`objs, g`color, g`grayagain
    ensures Inv(g.Snap(), g.objs.Keys) && g.objs == old(g.objs)[t := ob]
    ensures g.Snap().l == old(g.Snap()).l && forall x :: Live(g.Snap().Sw(), x) <==> old(Live(g.Snap().Sw(), x))
    ensures TableWritten(old(g.Snap()), g.Snap(), t, ob, v)
  {
    hide *;
    ghost var s0 := g.Snap();
    g.SnapIs();
    g.ViewIs();
    WriteReady(s0, t, ob, v);
    g.objs := g.objs[t := ob];
    g.SnapIs();
    g.ViewIs();
    if v.Ref? && g.color[v.id].White? && g.color[t] == Black {
      ghost var s1 := g.Snap();
      BarrierBack(g, t);
      g.SnapIs();
      g.ViewIs();
      TableBarred(s0, t, ob, v, s1, g.Snap());
    } else {
      WriteNoBarrier(s0, t, ob, v);
      WrittenLive(s0, t, ob, g.Snap());
    }
    TableWrittenIs(s0, g.Snap(), t, ob, v);
  }

  lemma TableWrittenIs(s0: State, s: State, t: Id, ob: Object, v: Value)
    requires s.m.h == s0.m.h[t := ob] && t in s0.m.c && s.phase == s0.phase
    requires s.m.c == if v.Ref? && v.id in s0.m.c && s0.m.c[v.id].White? && s0.m.c[t] == Black then s0.m.c[t := Gray] else s0.m.c
    ensures TableWritten(s0, s, t, ob, v)
  {
  }

  /** Writes to the stack of a thread; there is no barrier. */
  method WriteStack(g: GlobalState, t: Id, stack: seq<Value>)
    requires Inv(g.Snap(), g.objs.Keys) && t in g.objs && g.objs[t].Thread?
    requires forall r :: StackAdds(g.objs, t, stack, r) ==> Live(g.Snap().Sw(), r)
    modifies g`objs
    ensures Inv(g.Snap(), g.objs.Keys) && g.objs == old(g.objs)[t := old(g.objs)[t].(stack := stack)]
    ensures forall x :: Live(g.Snap().Sw(), x) <==> old(Live(g.Snap().Sw(), x))
    ensures g.objs.Keys == old(g.objs).Keys
    ensures TablesKept(old(g.Snap()), g.Snap())
  {
    hide *;
    ghost var s0 := g.Snap();
    g.SnapIs();
    g.ViewIs();
    LiveIn(s0);
    StackInv(s0, t, stack);
    StackWrittenIs(g.objs, t, stack);
    WrittenLive(s0, t, g.objs[t].(stack := stack), s0.(m := s0.m.(h := g.objs[t := g.objs[t].(stack := stack)])));
    g.objs := g.objs[t := g.objs[t].(stack := stack)];
    g.SnapIs();
    g.ViewIs();
    KeysSame(s0.m.h, t, g.objs);
    TablesKeptStack(s0, g.Snap(), t, stack);
  }

  lemma KeysSame(h: Heap, t: Id, h1: Heap)
    requires t in h && t in h1 && h1 == h[t := h1[t]]
    ensures h1.Keys == h.Keys
  {
  }

  /** A new upvalue for the slot `level` is linked at position `i`, after those of higher slots. */
  ghost predicate LinkedAt(s0: State, id: Id, level: nat, i: nat, s: State) {
    && s0.running in s0.m.h && s0.m.h[s0.running].Thread? && i <= |s0.m.h[s0.running].openupval|
    && s == LinkedOpen(s0, id, s0.running, level, i)
    && var os := s0.m.h[s0.running].openupval;
       && (forall k :: 0 <= k < i ==> SlotAbove(s0.m.h, os[k], level))
       && (i < |os| ==> !SlotAbove(s0.m.h, os[i], level))
  }

  ghost predicate SlotAbove(h: Heap, u: Id, level: nat) {
    u in h && h[u].UpVal? && h[u].cell.Open? && h[u].cell.slot > level
  }

  lemma SlotAboveIs(h: Heap, u: Id, level: nat)
    requires u in h && h[u].UpVal? && h[u].cell.Open?
    ensures SlotAbove(h, u, level) == (h[u].cell.slot > level)
  {
  }

  lemma LinkedAtIs(s: State, id: Id, level: nat, i: nat)
    requires s.running in s.m.h && s.m.h[s.running].Thread? && i <= |s.m.h[s.running].openupval|
    requires forall k :: 0 <= k < i ==> SlotAbove(s.m.h, s.m.h[s.running].openupval[k], level)
    requires i < |s.m.h[s.running].openupval| ==> !SlotAbove(s.m.h, s.m.h[s.running].openupval[i], level)
    ensures LinkedAt(s, id, level, i, LinkedOpen(s, id, s.running, level, i))
  {
  }

  /** A new open upvalue, linked into the list of the running thread at position `i`, and into the global list. */
  method LinkUpval(g: GlobalState, level: nat, id: Id, i: nat)
    requires Inv(g.Snap(), g.objs.Keys) && id !in g.objs
    requires g.running in g.objs && g.objs[g.running].Thread? && i <= |g.objs[g.running].openupval|
    modifies g`objs, g`color, g`uvhead
    ensures Inv(g.Snap(), g.objs.Keys) && Live(g.Snap().Sw(), id)
    ensures g.Snap() == old(LinkedOpen(g.Snap(), id, g.running, level, i))
    ensures id in g.objs && g.objs[id] == UpVal(Open(g.running, level)) && g.running in g.objs
    ensures forall x :: old(Live(g.Snap().Sw(), x)) ==> Live(g.Snap().Sw(), x)
    ensures old(g.objs).Keys <= g.objs.Keys <= old(g.objs).Keys + {id}
    ensures TablesKept(old(g.Snap()), g.Snap())
  {
    hide *;
    ghost var s0 := g.Snap();
    var t := g.running;
    g.SnapIs();
    g.ViewIs();
    RunningLive(s0);
    LinkedOpenInv(s0, id, t, level, i);
    LinkedOpenIs(s0, id, t, level, i);
    var os := g.objs[t].openupval;
    g.objs := g.objs[t := g.objs[t].(openupval := os[..i] + [id] + os[i..])][id := UpVal(Open(t, level))];
    g.color := g.color[id := White(g.currentwhite)];
    g.uvhead := [id] + g.uvhead;
    g.SnapIs();
    g.ViewIs();
    TablesKeptUpval(s0, id, t, level, i);
  }

  /** All that has happened is that open upvalues were created. */
  ghost predicate Grown(h: Heap, h1: Heap) {
    && (forall x :: x in h && !h[x].Thread? ==> x in h1 && h1[x] == h[x])
    && (forall x :: x in h && h[x].Thread? ==> x in h1 && h1[x].Thread? && h1[x].gt == h[x].gt && h1[x].stack == h[x].stack)
    && (forall x :: x in h1 && x !in h ==> IsOpen(h1[x]))
  }

  lemma GrownSame(h: Heap)
    ensures Grown(h, h)
  {
  }

  lemma GrownTwice(h0: Heap, h1: Heap, h2: Heap)
    requires Grown(h0, h1) && Grown(h1, h2)
    ensures Grown(h0, h2)
  {
  }

  lemma GrownOpen(s: State, id: Id, t: Id, slot: nat, i: nat)
    requires t in s.m.h && s.m.h[t].Thread? && i <= |s.m.h[t].openupval| && id !in s.m.h
    ensures Grown(s.m.h, LinkedOpen(s, id, t, slot, i).m.h)
  {
  }

  /** luaF_findupval: the open upvalue of the running thread for a stack slot. A dead one that is found is
      resurrected; if there is none, a new one goes into the list in front of the first lower slot. */
  method FindUpval(g: GlobalState, level: nat, id: Id) returns (u: Id)
    requires Inv(g.Snap(), g.objs.Keys) && id !in g.objs
    modifies g`objs, g`color, g`uvhead
    ensures Inv(g.Snap(), g.objs.Keys) && Live(g.Snap().Sw(), u)
    ensures u in g.objs && g.objs[u].UpVal? && g.objs[u].cell == Open(g.running, level)
    ensures forall x :: old(Live(g.Snap().Sw(), x)) ==> Live(g.Snap().Sw(), x)
    ensures g.running in g.objs && old(g.objs).Keys <= g.objs.Keys <= old(g.objs).Keys + {id}
    ensures u != id ==> g.objs == old(g.objs)
    ensures u == id ==> exists i: nat :: LinkedAt(old(g.Snap()), id, level, i, g.Snap())
    ensures TablesKept(old(g.Snap()), g.Snap()) && Grown(old(g.objs), g.objs)
  {
    hide *;
    ghost var s0 := g.Snap();
    var t := g.running;
    g.SnapIs();
    g.ViewIs();
    RunningLive(s0);
    OpenListKnown(s0, t);
    var i := 0;
    while i < |g.objs[t].openupval| && g.objs[g.objs[t].openupval[i]].cell.slot >= level
      invariant g.Snap() == s0 && g.objs == s0.m.h && g.color == s0.m.c && g.currentwhite == s0.cw
      invariant 0 <= i <= |g.objs[t].openupval|
      invariant forall k :: 0 <= k < i ==> SlotAbove(s0.m.h, g.objs[t].openupval[k], level)
    {
      SlotAboveIs(g.objs, g.objs[t].openupval[i], level);
      if g.objs[g.objs[t].openupval[i]].cell.slot == level {
        u := g.objs[t].openupval[i];
        FoundUpval(s0, t, i);
        GrownSame(g.objs);
        Revive(g, u);
        return;
      }
      i := i + 1;
    }
    if i < |g.objs[t].openupval| {
      SlotAboveIs(g.objs, g.objs[t].openupval[i], level);
    }
    u := id;
    LinkedAtIs(s0, id, level, i);
    GrownOpen(s0, id, t, level, i);
    LinkUpval(g, level, id, i);
    g.SnapIs();
    g.ViewIs();
  }

  /** `o` holds `v` in one of its fields. */
  predicate Holds(o: Object, v: Value) {
    match o
    case String(_) => false
    case Userdata(mt, env, _, _) => v == mt || v == env
    case UpVal(_) => false
    case Function(env, p, us) => v == env || v == p || v in us
    case Table(mt, a, n, _) => v == mt || v in a || exists i :: 0 <= i < |n| && (n[i].key == v || n[i].val == v)
    case Thread(gt, st, _) => v == gt || v in st
    case Proto(ns, k, p) => v in ns || v in k || v in p
  }

  lemma HoldsPoints(h: Heap, x: Id, r: Id)
    requires x in h
    ensures Holds(h[x], Ref(r)) ==> Points(h, x, r)
    ensures Points(h, x, r) && !h[x].UpVal? ==> Holds(h[x], Ref(r))
  {
    if h[x].Table? {
      forall i | 0 <= i < |h[x].node| && (h[x].node[i].key == Ref(r) || h[x].node[i].val == Ref(r))
        ensures EntryPoints(h[x].node[i], r) && h[x].node[i] in h[x].node
      {
      }
    }
  }

  /** Every reference in `ob` is in `o` too, or among `vs`. */
  predicate RefsAmong(ob: Object, o: Object, vs: seq<Value>) {
    match ob
    case String(_) => true
    case Userdata(mt, env, _, _) => Among(mt, o, vs) && Among(env, o, vs)
    case UpVal(_) => false
    case Function(env, p, us) => Among(env, o, vs) && Among(p, o, vs) && AllAmong(us, o, vs)
    case Table(mt, a, n, _) =>
      Among(mt, o, vs) && AllAmong(a, o, vs) && forall i :: 0 <= i < |n| ==> Among(n[i].key, o, vs) && Among(n[i].val, o, vs)
    case Thread(gt, st, os) => Among(gt, o, vs) && AllAmong(st, o, vs) && os == []
    case Proto(ns, k, p) => AllAmong(ns, o, vs) && AllAmong(k, o, vs) && AllAmong(p, o, vs)
  }

  predicate Among(v: Value, o: Object, vs: seq<Value>) {
    v.Ref? ==> v in vs || Holds(o, v)
  }

  predicate AllAmong(us: seq<Value>, o: Object, vs: seq<Value>) {
    forall i :: 0 <= i < |us| ==> Among(us[i], o, vs)
  }

  lemma RefsAmongPoints(h: Heap, id: Id, ob: Object, o: Object, vs: seq<Value>)
    requires RefsAmong(ob, o, vs)
    ensures forall r :: Points(h[id := ob], id, r) ==> Ref(r) in vs || Holds(o, Ref(r))
  {
    forall r | Points(h[id := ob], id, r)
      ensures Ref(r) in vs || Holds(o, Ref(r))
    {
      HoldsPoints(h[id := ob], id, r);
      assert Holds(ob, Ref(r));
      hide Holds(o, Ref(r));
    }
  }

  ghost function StackSlot(h: Heap, t: Id, i: nat): Option<Value> {
    if t in h && h[t].Thread? && i < |h[t].stack| then Some(h[t].stack[i]) else None
  }

  ghost function StackObject(h: Heap, t: Id, i: nat): Option<Value> {
    var v := StackSlot(h, t, i);
    if v.Some? && v.v.Ref? then v else None
  }

  /** The upvalue `n` of the function in slot `f`. */
  ghost function UpvalOf(h: Heap, t: Id, f: nat, n: nat): Option<Value> {
    var o := StackObject(h, t, f);
    if o.Some? && o.v.id in h && h[o.v.id].Function? && n < |h[o.v.id].upvals|
       && h[o.v.id].upvals[n].Ref? && h[o.v.id].upvals[n].id in h && h[h[o.v.id].upvals[n].id].UpVal?
    then Some(h[o.v.id].upvals[n]) else None
  }

  lemma StackSlotIs(h: Heap, t: Id, i: nat)
    requires t in h && h[t].Thread?
    ensures StackSlot(h, t, i) == if i < |h[t].stack| then Some(h[t].stack[i]) else None
    ensures StackObject(h, t, i) == if i < |h[t].stack| && h[t].stack[i].Ref? then Some(h[t].stack[i]) else None
  {
  }

  lemma UpvalOfIs(h: Heap, t: Id, f: nat, n: nat)
    ensures var o := StackObject(h, t, f);
            UpvalOf(h, t, f, n) ==
            if o.Some? && o.v.Ref? && o.v.id in h && h[o.v.id].Function? && n < |h[o.v.id].upvals|
               && h[o.v.id].upvals[n].Ref? && h[o.v.id].upvals[n].id in h && h[h[o.v.id].upvals[n].id].UpVal?
            then Some(h[o.v.id].upvals[n]) else None
  {
  }

  /** A value in a slot of a thread, or on top of its stack. */
  ghost function SlotSet(h: Heap, t: Id, i: nat, v: Value): Heap {
    if t in h && h[t].Thread?
    then h[t := h[t].(stack := if i < |h[t].stack| then h[t].stack[i := v] else h[t].stack + [v])] else h
  }

  lemma SlotSetIs(h: Heap, t: Id, i: nat, v: Value)
    requires t in h && h[t].Thread?
    ensures SlotSet(h, t, i, v) == h[t := h[t].(stack := if i < |h[t].stack| then h[t].stack[i := v] else h[t].stack + [v])]
  {
  }

  /** A value in the cell of an upvalue. */
  ghost function CellSet(h: Heap, u: Id, v: Value): Heap
    requires u in h && h[u].UpVal?
  {
    match h[u].cell
    case Closed(_) => h[u := UpVal(Closed(v))]
    case Open(t, i) =>
      if t in h && h[t].Thread? && i < |h[t].stack| then h[t := h[t].(stack := h[t].stack[i := v])] else h
  }

  lemma CellSetIs(h: Heap, u: Id, v: Value)
    requires u in h && h[u].UpVal?
    ensures h[u].cell.Closed? ==> CellSet(h, u, v) == h[u := UpVal(Closed(v))]
    ensures h[u].cell.Open? && h[u].cell.th in h && h[h[u].cell.th].Thread? ==>
              var t, i := h[u].cell.th, h[u].cell.slot;
              CellSet(h, u, v) == if i < |h[t].stack| then h[t := h[t].(stack := h[t].stack[i := v])] else h
  {
  }

  /** The value in a slot of the running thread, which is live. */
  method ReadSlot(g: GlobalState, i: nat) returns (v: Option<Value>)
    requires Inv(g.Snap(), g.objs.Keys)
    ensures v == StackSlot(g.objs, g.running, i)
    ensures g.running in g.objs && g.objs[g.running].Thread?
    ensures v.Some? ==> i < |g.objs[g.running].stack| && v.v == g.objs[g.running].stack[i]
    ensures v.None? ==> i >= |g.objs[g.running].stack|
    ensures v.Some? && v.v.Ref? ==> Live(g.Snap().Sw(), v.v.id) && v.v.id in g.objs && v.v.id in g.color
  {
    hide *;
    g.SnapIs();
    g.ViewIs();
    RunningLive(g.Snap());
    StackSlotIs(g.objs, g.running, i);
    if i < |g.objs[g.running].stack| {
      v := Some(g.objs[g.running].stack[i]);
      assert v.v in g.objs[g.running].stack;
    } else {
      v := None;
    }
  }

  /** The object in a slot, if there is one. */
  method ReadObject(g: GlobalState, i: nat) returns (v: Option<Value>)
    requires Inv(g.Snap(), g.objs.Keys)
    ensures v == StackObject(g.objs, g.running, i)
    ensures v.Some? ==> v.v.Ref? && Live(g.Snap().Sw(), v.v.id) && v.v.id in g.objs && v.v.id in g.color
  {
    hide *;
    v := ReadSlot(g, i);
    StackSlotIs(g.objs, g.running, i);
    if v.Some? && !v.v.Ref? {
      v := None;
    }
  }

  lemma HeldLive(s: State, x: Id, v: Value)
    requires Inv(s, s.m.h.Keys) && Live(s.Sw(), x) && x in s.m.h && Holds(s.m.h[x], v)
    ensures v.Ref? ==> Live(s.Sw(), v.id) && v.id in s.m.h
  {
    hide Inv;
    hide Live;
    if v.Ref? {
      HoldsPoints(s.m.h, x, v.id);
      RefLive(s, x, v.id);
    }
  }

  lemma CellLive(s: State, u: Id)
    requires Inv(s, s.m.h.Keys) && Live(s.Sw(), u) && u in s.m.h && s.m.h[u].UpVal?
    ensures var v := CellValue(s.m.h, s.m.h[u].cell); v.Ref? ==> Live(s.Sw(), v.id)
  {
    hide Inv;
    hide Live;
    hide CellValue;
    var v := CellValue(s.m.h, s.m.h[u].cell);
    if v.Ref? {
      assert Points(s.m.h, u, v.id);
      RefLive(s, u, v.id);
    }
  }

  lemma UpvalHeld(o: Object, n: nat)
    requires o.Function? && n < |o.upvals|
    ensures Holds(o, o.upvals[n])
  {
  }

  /** The upvalue `n` of the function in slot `f`. */
  method ReadUpval(g: GlobalState, f: nat, n: nat) returns (v: Option<Value>)
    requires Inv(g.Snap(), g.objs.Keys)
    ensures v == UpvalOf(g.objs, g.running, f, n)
    ensures v.Some? ==> v.v.Ref? && Live(g.Snap().Sw(), v.v.id) && v.v.id in g.objs && g.objs[v.v.id].UpVal?
  {
    hide *;
    g.SnapIs();
    g.ViewIs();
    var o := ReadObject(g, f);
    UpvalOfIs(g.objs, g.running, f, n);
    v := None;
    if o.Some? && g.objs[o.v.id].Function? && n < |g.objs[o.v.id].upvals| && g.objs[o.v.id].upvals[n].Ref? {
      var u := g.objs[o.v.id].upvals[n];
      UpvalHeld(g.objs[o.v.id], n);
      HeldLive(g.Snap(), o.v.id, u);
      if g.objs[u.id].UpVal? {
        v := Some(u);
      }
    }
  }

  lemma AddsPushed(h: Heap, t: Id, v: Value)
    requires t in h && h[t].Thread?
    ensures forall r :: StackAdds(h, t, h[t].stack + [v], r) ==> v == Ref(r)
  {
  }

  lemma AddsDropped(h: Heap, t: Id, n: nat)
    requires t in h && h[t].Thread? && n <= |h[t].stack|
    ensures forall r :: !StackAdds(h, t, h[t].stack[..n], r)
  {
  }

  lemma OnlyLive(s: State, t: Id, stack: seq<Value>, v: Value)
    requires v.Ref? ==> Live(s.Sw(), v.id)
    requires forall r :: StackAdds(s.m.h, t, stack, r) ==> v == Ref(r)
    ensures forall r :: StackAdds(s.m.h, t, stack, r) ==> Live(s.Sw(), r)
  {
    hide StackAdds;
    hide Live;
  }

  /** Puts a live value into a slot of the running thread, or on top of its stack. */
  method SetSlot(g: GlobalState, i: nat, v: Value)
    requires Inv(g.Snap(), g.objs.Keys) && (v.Ref? ==> Live(g.Snap().Sw(), v.id))
    modifies g`objs
    ensures Inv(g.Snap(), g.objs.Keys) && g.objs.Keys == old(g.objs).Keys
    ensures g.objs == SlotSet(old(g.objs), g.running, i, v)
    ensures TablesKept(old(g.Snap()), g.Snap())
  {
    hide *;
    g.SnapIs();
    g.ViewIs();
    RunningLive(g.Snap());
    SlotSetIs(g.objs, g.running, i, v);
    var stack := g.objs[g.running].stack;
    if i < |stack| {
      AddsOneSlot(g.objs, g.running, i, v);
      WriteStack(g, g.running, stack[i := v]);
    } else {
      AddsPushed(g.objs, g.running, v);
      WriteStack(g, g.running, stack + [v]);
    }
  }

  lemma CellThread(s: State, u: Id)
    requires Inv(s, s.m.h.Keys) && u in s.m.h && s.m.h[u].UpVal?
    ensures u in s.m.c
    ensures s.m.h[u].cell.Open? ==> s.m.h[u].cell.th in s.m.h && s.m.h[s.m.h[u].cell.th].Thread? && s.m.c[u] != Black
  {
    hide MarkInv;
    hide Points;
    InvBasic(s, s.m.h.Keys);
    if s.m.h[u].cell.Open? {
      assert IsOpen(s.m.h[u]);
    }
  }

  lemma ClosedWrite(h: Heap, u: Id, v: Value)
    requires u in h && h[u].UpVal? && h[u].cell.Closed?
    ensures Writes1(h, u, UpVal(Closed(v)), h[u := UpVal(Closed(v))]) && AddsOnly(h, u, UpVal(Closed(v)), v)
  {
  }

  /** OP_SETUPVAL. An open upvalue is never black, so its barrier does nothing. */
  method SetUpval(g: GlobalState, u: Id, v: Value)
    requires Inv(g.Snap(), g.objs.Keys) && Live(g.Snap().Sw(), u) && u in g.objs && g.objs[u].UpVal?
    requires v.Ref? ==> Live(g.Snap().Sw(), v.id)
    modifies g`objs, g`color, g`gray
    ensures Inv(g.Snap(), g.objs.Keys) && g.objs.Keys == old(g.objs).Keys
    ensures g.objs == CellSet(old(g.objs), u, v)
    ensures TablesKept(old(g.Snap()), g.Snap())
  {
    hide *;
    g.SnapIs();
    g.ViewIs();
    CellThread(g.Snap(), u);
    CellSetIs(g.objs, u, v);
    if g.objs[u].cell.Closed? {
      ClosedWrite(g.objs, u, v);
      ghost var h := g.objs;
      WriteOwned(g, u, UpVal(Closed(v)), v);
      KeysSame(h, u, g.objs);
    } else {
      var t, i := g.objs[u].cell.th, g.objs[u].cell.slot;
      assert g.color[u] != Black;
      var stack := g.objs[t].stack;
      if i < |stack| {
        AddsOneSlot(g.objs, t, i, v);
        OnlyLive(g.Snap(), t, stack[i := v], v);
        WriteStack(g, t, stack[i := v]);
      } else {
        TablesKeptSame(g.Snap(), g.Snap());
      }
    }
  }

  lemma StoreReady(h: Heap, x: Id, ob: Object, v: Value)
    requires x in h && SameKind(h[x], ob) && !ob.UpVal? && RefsAmong(ob, h[x], [v])
    ensures Writes1(h, x, ob, h[x := ob]) && AddsOnly(h, x, ob, v)
  {
    hide RefsAmong;
    hide Holds;
    hide Points;
    RefsAmongPoints(h, x, ob, h[x], [v]);
    forall r | Adds(h, h[x := ob], x, r)
      ensures v == Ref(r)
    {
      HoldsPoints(h, x, r);
    }
  }

  /** Any write to an object that adds at most the reference `v`, with the barrier its kind calls for. */
  method Store(g: GlobalState, x: Id, ob: Object, v: Value)
    requires Inv(g.Snap(), g.objs.Keys) && Live(g.Snap().Sw(), x) && x in g.objs
    requires SameKind(g.objs[x], ob) && !ob.UpVal? && RefsAmong(ob, g.objs[x], [v])
    requires v.Ref? ==> Live(g.Snap().Sw(), v.id)
    modifies g`objs, g`color, g`gray, g`grayagain
    ensures Inv(g.Snap(), g.objs.Keys) && g.objs.Keys == old(g.objs).Keys
    ensures g.objs == old(g.objs)[x := ob]
    ensures if ob.Table? then TableWritten(old(g.Snap()), g.Snap(), x, ob, v) else TablesKept(old(g.Snap()), g.Snap())
  {
    hide *;
    g.SnapIs();
    g.ViewIs();
    ghost var h := g.objs;
    StoreReady(g.objs, x, ob, v);
    if ob.Table? {
      WriteTable(g, x, ob, v);
    } else {
      WriteOwned(g, x, ob, v);
    }
    KeysSame(h, x, g.objs);
  }

  lemma NewReady(s: State, id: Id, ob: Object, vs: seq<Value>)
    requires RefsAmong(ob, String(0), vs) && forall r :: Ref(r) in vs ==> Live(s.Sw(), r)
    ensures NewRefsLive(s, s.m.h[id := ob], id)
  {
    hide RefsAmong;
    hide Points;
    hide Live;
    RefsAmongPoints(s.m.h, id, ob, String(0), vs);
  }

  /** Allocates an object that holds only what is on the stack, or in `vs`, and pushes it. */
  method New(g: GlobalState, dst: nat, id: Id, ob: Object, vs: seq<Value>)
    requires Inv(g.Snap(), g.objs.Keys) && id !in g.objs && (ob.Thread? ==> ob.openupval == [])
    requires !ob.String? && !ob.UpVal? && RefsAmong(ob, String(0), vs)
    requires forall r :: Ref(r) in vs ==> Live(g.Snap().Sw(), r)
    modifies g`objs, g`color, g`rootgc, g`udata, g`sweepgc
    ensures Inv(g.Snap(), g.objs.Keys) && g.objs.Keys == old(g.objs).Keys + {id}
    ensures g.objs == SlotSet(old(g.objs)[id := ob], g.running, dst, Ref(id))
    ensures TablesKept(old(g.Snap()), g.Snap())
  {
    hide *;
    ghost var s0 := g.Snap();
    g.SnapIs();
    g.ViewIs();
    NewReady(g.Snap(), id, ob, vs);
    if ob.Userdata? {
      LinkUdata(g, id, ob);
    } else {
      Link(g, id, ob);
    }
    ghost var s1 := g.Snap();
    SetSlot(g, dst, Ref(id));
    TablesKeptTrans(s0, s1, g.Snap());
  }

  /** Where a new closure takes an upvalue from; a new upvalue gets the address `newId`. */
  datatype Capture = FromStack(slot: nat, newId: Id) | FromClosure(n: nat)

  ghost predicate AllLiveIn(s: State, vs: seq<Value>) {
    forall r :: Ref(r) in vs ==> Live(s.Sw(), r)
  }

  lemma MoreLive(s: State, s1: State, vs: seq<Value>, u: Id)
    requires AllLiveIn(s, vs) && Live(s1.Sw(), u)
    requires forall x :: Live(s.Sw(), x) ==> Live(s1.Sw(), x)
    ensures AllLiveIn(s1, vs + [Ref(u)])
  {
    hide Live;
  }

  /** `v` is the upvalue that the capture asks for: the open one of a slot, or one of the enclosing closure. */
  ghost predicate Captured(h: Heap, t: Id, f: nat, c: Capture, v: Value) {
    && v.Ref? && v.id in h && h[v.id].UpVal?
    && match c
       case FromStack(slot, _) => h[v.id].cell == Open(t, slot)
       case FromClosure(n) => UpvalOf(h, t, f, n) == Some(v)
  }

  ghost predicate AllCaptured(h: Heap, t: Id, f: nat, captures: seq<Capture>, ups: seq<Value>) {
    |ups| <= |captures| && forall i :: 0 <= i < |ups| ==> Captured(h, t, f, captures[i], ups[i])
  }

  /** The address is in use, or there is no such upvalue. */
  ghost predicate Refused(h: Heap, t: Id, f: nat, c: Capture) {
    match c
    case FromStack(_, newId) => newId in h
    case FromClosure(n) => UpvalOf(h, t, f, n).None?
  }

  lemma CapturedStays(h: Heap, h1: Heap, t: Id, f: nat, captures: seq<Capture>, ups: seq<Value>)
    requires AllCaptured(h, t, f, captures, ups) && Grown(h, h1)
    ensures AllCaptured(h1, t, f, captures, ups)
  {
  }

  lemma CapturedMore(h: Heap, t: Id, f: nat, captures: seq<Capture>, ups: seq<Value>, u: Id)
    requires AllCaptured(h, t, f, captures, ups) && |ups| < |captures| && u in h && h[u].UpVal?
    requires match captures[|ups|]
             case FromStack(slot, _) => h[u].cell == Open(t, slot)
             case FromClosure(n) => UpvalOf(h, t, f, n) == Some(Ref(u))
    ensures AllCaptured(h, t, f, captures, ups + [Ref(u)])
  {
    hide UpvalOf;
  }

  /** The new closure has the upvalues that its captures ask for, and it is in the slot `dst`. */
  ghost predicate ClosureMade(h0: Heap, t: Id, dst: nat, id: Id, f: nat, env: Value, proto: Value, captures: seq<Capture>, h1: Heap) {
    exists h, ups ::
      Grown(h0, h) && |ups| == |captures| && AllCaptured(h, t, f, captures, ups)
      && h1 == SlotSet(h[id := Function(env, proto, ups)], t, dst, Ref(id))
  }

  /** OP_CLOSURE: the upvalues of the new closure, shared with the open ones and with the enclosing closure. */
  method CaptureUpvals(g: GlobalState, f: nat, captures: seq<Capture>, vs: seq<Value>) returns (ups: seq<Value>, ok: bool)
    requires Inv(g.Snap(), g.objs.Keys) && AllLiveIn(g.Snap(), vs)
    modifies g`objs, g`color, g`uvhead
    ensures Inv(g.Snap(), g.objs.Keys) && old(g.objs).Keys <= g.objs.Keys
    ensures AllLiveIn(g.Snap(), vs + ups) && (ok ==> |ups| == |captures|)
    ensures !ok ==> |ups| < |captures| && Refused(g.objs, g.running, f, captures[|ups|])
    ensures TablesKept(old(g.Snap()), g.Snap()) && Grown(old(g.objs), g.objs)
    ensures AllCaptured(g.objs, g.running, f, captures, ups)
  {
    hide *;
    ups, ok := [], true;
    ghost var start := g.Snap();
    TablesKeptSame(start, start);
    NothingAdded(vs);
    GrownSame(g.objs);
    NothingCaptured(g.objs, g.running, f, captures);
    for i := 0 to |captures|
      invariant Inv(g.Snap(), g.objs.Keys) && old(g.objs).Keys <= g.objs.Keys
      invariant AllLiveIn(g.Snap(), vs + ups) && |ups| == i && TablesKept(start, g.Snap())
      invariant Grown(old(g.objs), g.objs) && AllCaptured(g.objs, g.running, f, captures, ups)
    {
      ghost var s0, h := g.Snap(), g.objs;
      var u: Id;
      if captures[i].FromStack? {
        if captures[i].newId in g.objs {
          RefusedIs(g.objs, g.running, f, captures[i]);
          ok := false;
          return;
        }
        u := FindUpval(g, captures[i].slot, captures[i].newId);
        TablesKeptTrans(start, s0, g.Snap());
        GrownTwice(old(g.objs), h, g.objs);
        CapturedStays(h, g.objs, g.running, f, captures, ups);
      } else {
        var from := ReadUpval(g, f, captures[i].n);
        if from.None? {
          RefusedIs(g.objs, g.running, f, captures[i]);
          ok := false;
          return;
        }
        u := from.v.id;
      }
      MoreLive(s0, g.Snap(), vs + ups, u);
      SeqAssoc(vs, ups, [Ref(u)]);
      CapturedMore(g.objs, g.running, f, captures, ups, u);
      ups := ups + [Ref(u)];
    }
  }

  lemma RefusedIs(h: Heap, t: Id, f: nat, c: Capture)
    ensures c.FromStack? ==> (Refused(h, t, f, c) <==> c.newId in h)
    ensures c.FromClosure? ==> (Refused(h, t, f, c) <==> UpvalOf(h, t, f, c.n).None?)
  {
    hide UpvalOf;
  }

  lemma NothingCaptured(h: Heap, t: Id, f: nat, captures: seq<Capture>)
    ensures AllCaptured(h, t, f, captures, [])
  {
  }

  lemma NothingAdded(vs: seq<Value>)
    ensures vs + [] == vs
  {
  }

  lemma SeqAssoc(a: seq<Value>, b: seq<Value>, c: seq<Value>)
    ensures a + b + c == a + (b + c)
  {
  }

  lemma NewClosureReady(s: State, id: Id, env: Value, proto: Value, ups: seq<Value>)
    requires AllLiveIn(s, [env, proto] + ups)
    ensures RefsAmong(Function(env, proto, ups), String(0), [env, proto] + ups)
    ensures forall r :: Ref(r) in [env, proto] + ups ==> Live(s.Sw(), r)
  {
    hide Live;
  }

  lemma BothLive(s: State, a: Value, b: Value)
    requires a.Ref? ==> Live(s.Sw(), a.id)
    requires b.Ref? ==> Live(s.Sw(), b.id)
    ensures AllLiveIn(s, [a, b])
  {
    hide Live;
  }

  /** No closure can be made, since some address is in use or some upvalue does not exist. */
  ghost predicate NoClosure(h: Heap, t: Id, id: Id, f: nat, captures: seq<Capture>) {
    id in h || exists i :: 0 <= i < |captures| && Refused(h, t, f, captures[i])
  }

  lemma NoClosureIs(h: Heap, t: Id, id: Id, f: nat, captures: seq<Capture>, i: nat)
    requires id in h || (i < |captures| && Refused(h, t, f, captures[i]))
    ensures NoClosure(h, t, id, f, captures)
  {
    hide Refused;
  }

  /** OP_CLOSURE. Nothing but open upvalues is created if an address is in use or an upvalue does not exist. */
  method NewClosure(g: GlobalState, dst: nat, id: Id, f: nat, env: Value, proto: Value, captures: seq<Capture>) returns (made: bool)
    requires Inv(g.Snap(), g.objs.Keys)
    requires env.Ref? ==> Live(g.Snap().Sw(), env.id)
    requires proto.Ref? ==> Live(g.Snap().Sw(), proto.id)
    modifies g`objs, g`color, g`rootgc, g`udata, g`sweepgc, g`uvhead
    ensures Inv(g.Snap(), g.objs.Keys) && old(g.objs).Keys <= g.objs.Keys
    ensures TablesKept(old(g.Snap()), g.Snap())
    ensures if made then ClosureMade(old(g.objs), g.running, dst, id, f, env, proto, captures, g.objs)
            else Grown(old(g.objs), g.objs) && NoClosure(g.objs, g.running, id, f, captures)
  {
    hide *;
    ghost var s0, h0 := g.Snap(), g.objs;
    BothLive(g.Snap(), env, proto);
    var ups, ok := CaptureUpvals(g, f, captures, [env, proto]);
    made := ok && id !in g.objs;
    if made {
      NewClosureReady(g.Snap(), id, env, proto, ups);
      ghost var s1, h := g.Snap(), g.objs;
      New(g, dst, id, Function(env, proto, ups), [env, proto] + ups);
      TablesKeptTrans(s0, s1, g.Snap());
      ClosureMadeIs(h0, g.running, dst, id, f, env, proto, captures, h, ups);
    } else {
      NoClosureIs(g.objs, g.running, id, f, captures, |ups|);
    }
  }

  lemma ClosureMadeIs(h0: Heap, t: Id, dst: nat, id: Id, f: nat, env: Value, proto: Value, captures: seq<Capture>, h: Heap, ups: seq<Value>)
    requires Grown(h0, h) && |ups| == |captures| && AllCaptured(h, t, f, captures, ups)
    ensures ClosureMade(h0, t, dst, id, f, env, proto, captures, SlotSet(h[id := Function(env, proto, ups)], t, dst, Ref(id)))
  {
    hide Grown;
    hide AllCaptured;
    hide SlotSet;
  }

  lemma StackLiveIn(s: State)
    requires Inv(s, s.m.h.Keys)
    ensures s.running in s.m.h && s.m.h[s.running].Thread? && AllLiveIn(s, s.m.h[s.running].stack)
  {
    hide Inv;
    hide Live;
    RunningLive(s);
  }

  lemma AllLiveInIs(s: State, vs: seq<Value>)
    requires AllLiveIn(s, vs)
    ensures forall r :: Ref(r) in vs ==> Live(s.Sw(), r)
  {
  }

  /** luaF_close on the running thread. */
  method Close(g: GlobalState, level: nat)
    requires Inv(g.Snap(), g.objs.Keys)
    modifies g`objs, g`rootgc, g`uvhead, g`sweepgc, g`color, g`gray
    ensures Inv(g.Snap(), g.objs.Keys) && g.running in g.objs && g.objs[g.running].Thread?
    ensures SweepRel(old(g.Snap()), g.Snap())
    ensures var us := g.objs[g.running].openupval;
      us == [] || (us[0] in g.objs && g.objs[us[0]].UpVal? && g.objs[us[0]].cell.Open? && g.objs[us[0]].cell.slot < level)
  {
    hide *;
    ghost var s0 := g.Snap();
    g.SnapIs();
    g.ViewIs();
    RunningLive(s0);
    ghost var rs := g.objs.Keys;
    g.LuaFClose(g.running, level, rs);
    g.SnapIs();
    g.ViewIs();
    ClosedKeeps(s0, g.Snap(), g.running, rs);
  }

  lemma ClosedKeeps(s0: State, s: State, t: Id, rs: set<Id>)
    requires Closes(s0, s, t, rs) && rs == s0.m.h.Keys
    ensures Inv(s, s.m.h.Keys) && SweepRel(s0, s) && s.running == s0.running
  {
    hide Points;
    hide Live;
    hide Basic;
    hide Lists;
    hide Shades;
    hide Traversed;
  }

  /** Leaving a function or a block: the upvalues at or above the level are closed, then the slots go. */
  method Leave(g: GlobalState, level: nat)
    requires Inv(g.Snap(), g.objs.Keys)
    modifies g`objs, g`rootgc, g`uvhead, g`sweepgc, g`color, g`gray
    ensures Inv(g.Snap(), g.objs.Keys)
    ensures forall x :: old(Live(g.Snap().Sw(), x)) ==> x in g.objs
    ensures g.running in g.objs && g.objs[g.running].Thread? && g.running in old(g.objs) && old(g.objs)[g.running].Thread?
    ensures var stack := old(g.objs)[g.running].stack;
            g.objs[g.running].stack == if level <= |stack| then stack[..level] else stack
    ensures TablesKept(old(g.Snap()), g.Snap())
  {
    hide *;
    ghost var s0 := g.Snap();
    g.SnapIs();
    g.ViewIs();
    Close(g, level);
    g.SnapIs();
    g.ViewIs();
    LeftLive(s0, g.Snap());
    TablesKeptSwept(s0, g.Snap());
    ghost var s1 := g.Snap();
    var stack := g.objs[g.running].stack;
    if level <= |stack| {
      AddsDropped(g.objs, g.running, level);
      WriteStack(g, g.running, stack[..level]);
      TablesKeptTrans(s0, s1, g.Snap());
    }
  }

  lemma LeftLive(s0: State, s: State)
    requires SweepRel(s0, s)
    ensures forall x :: Live(s0.Sw(), x) ==> x in s.m.h
    ensures forall t :: t in s.m.h && s.m.h[t].Thread? ==> t in s0.m.h && s0.m.h[t].Thread? && s0.m.h[t].stack == s.m.h[t].stack
  {
    assert forall t :: t in s.m.h ==> t in s0.m.h && SameContents(s0.m.h, s.m.h, t);
    LiveIn(s);
    hide Live;
    hide Points;
    hide Basic;
  }

  /** lua_setmetatable for a basic type: a root changes, without a barrier. */
  method SetTypeMeta(g: GlobalState, i: nat, v: Value)
    requires Inv(g.Snap(), g.objs.Keys) && i < |g.mt| && (v.Ref? ==> Live(g.Snap().Sw(), v.id))
    modifies g`mt
    ensures Inv(g.Snap(), g.objs.Keys) && g.mt == old(g.mt)[i := v]
  {
    hide *;
    ghost var s0 := g.Snap();
    g.SnapIs();
    g.ViewIs();
    TypeMetaInv(s0, i, v);
    g.mt := g.mt[i := v];
    g.SnapIs();
    g.ViewIs();
  }

  lemma TypeMetaInv(s: State, i: nat, v: Value)
    requires Inv(s, s.m.h.Keys) && i < |s.mt| && (v.Ref? ==> Live(s.Sw(), v.id))
    ensures Inv(s.(mt := s.mt[i := v]), s.m.h.Keys)
  {
    hide Inv;
    hide Live;
    InvBasic(s, s.m.h.Keys);
    RunningLive(s);
    var s1 := s.(mt := s.mt[i := v]);
    forall r | r in Roots(s1)
      ensures Live(s.Sw(), r)
    {
      assert r in Roots(s) || v == Ref(r);
    }
    RootsInv(s, s1);
  }

  /** lua_resume and lua_yield: another thread runs. */
  method SwitchTo(g: GlobalState, t: Id)
    requires Inv(g.Snap(), g.objs.Keys) && t in g.objs && g.objs[t].Thread? && Live(g.Snap().Sw(), t)
    modifies g`running
    ensures Inv(g.Snap(), g.objs.Keys) && g.running == t
  {
    hide *;
    ghost var s0 := g.Snap();
    g.SnapIs();
    g.ViewIs();
    SwitchInv(s0, t);
    g.running := t;
    g.SnapIs();
    g.ViewIs();
  }

  lemma SwitchInv(s: State, t: Id)
    requires Inv(s, s.m.h.Keys) && t in s.m.h && s.m.h[t].Thread? && Live(s.Sw(), t)
    ensures Inv(s.(running := t), s.m.h.Keys)
  {
    hide Inv;
    hide Live;
    InvBasic(s, s.m.h.Keys);
    var s1 := s.(running := t);
    forall r | r in Roots(s1)
      ensures Live(s.Sw(), r)
    {
      assert r in Roots(s) || r == t;
    }
    RootsInv(s, s1);
  }

  /** luaS_fix. */
  method FixString(g: GlobalState, x: Id)
    requires Inv(g.Snap(), g.objs.Keys) && x in g.objs && g.objs[x].String?
    modifies g`fixed
    ensures Inv(g.Snap(), g.objs.Keys) && g.fixed == old(g.fixed) + {x}
  {
    hide *;
    ghost var s0 := g.Snap();
    g.SnapIs();
    g.ViewIs();
    FixInv(s0, x);
    g.fixed := g.fixed + {x};
    g.SnapIs();
    g.ViewIs();
  }

  /** One step of a run: a step of the collector, or an operation of the program. Operands are slots of the
      stack of the running thread; `id` is the address that the allocator returns. An operation whose
      operands do not fit does nothing. */
  datatype Action =
    | Collect
    | MarkAndSweep
    | FullCollect
    | Load(dst: nat, number: int)
    | Move(dst: nat, src: nat)
    | GetHeld(dst: nat, src: nat, v: Value)
    | GetUpval(dst: nat, f: nat, n: nat)
    | NewObject(dst: nat, id: Id, ob: Object)
    | NewString(dst: nat, id: Id, hash: nat)
    | Intern(dst: nat, x: Id)
    | Closure(dst: nat, id: Id, f: nat, env: nat, proto: nat, captures: seq<Capture>)
    | StoreIn(x: nat, ob: Object, src: nat)
    | StoreUpval(f: nat, n: nat, src: nat)
    | Return(level: nat)
    | TypeMeta(i: nat, src: nat)
    | Resume(t: Id)
    | Fix(x: Id)

  /** The heap after an operation of the program; OP_CLOSURE, which may create several upvalues, and returning,
      which may close some, are specified where they are implemented. */
  ghost function After(h: Heap, t: Id, a: Action): Heap {
    match a
    case Load(dst, n) => SlotSet(h, t, dst, Plain(n))
    case Move(dst, src) =>
      var v := StackSlot(h, t, src);
      if v.Some? then SlotSet(h, t, dst, v.v) else h
    case GetHeld(dst, src, v) =>
      var x := StackObject(h, t, src);
      if x.Some? && x.v.Ref? && x.v.id in h && Holds(h[x.v.id], v) then SlotSet(h, t, dst, v) else h
    case GetUpval(dst, f, n) =>
      var u := UpvalOf(h, t, f, n);
      if u.Some? && u.v.Ref? && u.v.id in h && h[u.v.id].UpVal?
      then SlotSet(h, t, dst, CellValue(h, h[u.v.id].cell)) else h
    case NewObject(dst, id, ob) =>
      if Allocatable(h, t, id, ob) then SlotSet(h[id := ob], t, dst, Ref(id)) else h
    case NewString(dst, id, hash) =>
      if id !in h then SlotSet(h[id := String(hash)], t, dst, Ref(id)) else h
    case Intern(dst, x) =>
      if x in h && h[x].String? then SlotSet(h, t, dst, Ref(x)) else h
    case StoreIn(i, ob, src) =>
      var x, v := StackObject(h, t, i), StackSlot(h, t, src);
      if x.Some? && v.Some? && x.v.Ref? && x.v.id in h && SameKind(h[x.v.id], ob) && !ob.UpVal? && RefsAmong(ob, h[x.v.id], [v.v])
      then h[x.v.id := ob] else h
    case StoreUpval(f, n, src) =>
      var u, v := UpvalOf(h, t, f, n), StackSlot(h, t, src);
      if u.Some? && v.Some? && u.v.Ref? && u.v.id in h && h[u.v.id].UpVal? then CellSet(h, u.v.id, v.v) else h
    case _ => h
  }

  /** The new object holds only what is on the stack. */
  predicate Allocatable(h: Heap, t: Id, id: Id, ob: Object) {
    && id !in h && !ob.String? && !ob.UpVal? && (ob.Thread? ==> ob.openupval == [])
    && t in h && h[t].Thread? && RefsAmong(ob, String(0), h[t].stack)
  }

  lemma AllocatableIs(h: Heap, t: Id, id: Id, ob: Object)
    requires Allocatable(h, t, id, ob)
    ensures id !in h && !ob.String? && !ob.UpVal? && (ob.Thread? ==> ob.openupval == [])
    ensures t in h && h[t].Thread? && RefsAmong(ob, String(0), h[t].stack)
  {
    hide RefsAmong;
  }

  lemma AfterRead(h: Heap, t: Id, a: Action)
    ensures a.Load? ==> After(h, t, a) == SlotSet(h, t, a.dst, Plain(a.number))
    ensures a.Move? ==>
              var v := StackSlot(h, t, a.src);
              After(h, t, a) == if v.Some? then SlotSet(h, t, a.dst, v.v) else h
    ensures a.GetHeld? ==>
              var x := StackObject(h, t, a.src);
              After(h, t, a) ==
              if x.Some? && x.v.Ref? && x.v.id in h && Holds(h[x.v.id], a.v) then SlotSet(h, t, a.dst, a.v) else h
    ensures a.GetUpval? ==>
              var u := UpvalOf(h, t, a.f, a.n);
              After(h, t, a) ==
              if u.Some? && u.v.Ref? && u.v.id in h && h[u.v.id].UpVal?
              then SlotSet(h, t, a.dst, CellValue(h, h[u.v.id].cell)) else h
  {
  }

  lemma AfterNew(h: Heap, t: Id, a: Action)
    ensures a.NewObject? ==>
              After(h, t, a) == if Allocatable(h, t, a.id, a.ob) then SlotSet(h[a.id := a.ob], t, a.dst, Ref(a.id)) else h
    ensures a.NewString? ==>
              After(h, t, a) == if a.id !in h then SlotSet(h[a.id := String(a.hash)], t, a.dst, Ref(a.id)) else h
    ensures a.Intern? ==>
              After(h, t, a) == if a.x in h && h[a.x].String? then SlotSet(h, t, a.dst, Ref(a.x)) else h
  {
  }

  lemma AfterStore(h: Heap, t: Id, a: Action)
    ensures a.StoreIn? ==>
              var x, v := StackObject(h, t, a.x), StackSlot(h, t, a.src);
              After(h, t, a) ==
              if x.Some? && v.Some? && x.v.Ref? && x.v.id in h && SameKind(h[x.v.id], a.ob) && !a.ob.UpVal?
                 && RefsAmong(a.ob, h[x.v.id], [v.v])
              then h[x.v.id := a.ob] else h
    ensures a.StoreUpval? ==>
              var u, v := UpvalOf(h, t, a.f, a.n), StackSlot(h, t, a.src);
              After(h, t, a) ==
              if u.Some? && v.Some? && u.v.Ref? && u.v.id in h && h[u.v.id].UpVal? then CellSet(h, u.v.id, v.v) else h
  {
  }

  lemma AfterRoots(h: Heap, t: Id, a: Action)
    ensures a.TypeMeta? || a.Resume? || a.Fix? ==> After(h, t, a) == h
  {
  }

  /** The heap after OP_CLOSURE: a closure is in the slot, or there is none to be made. */
  ghost predicate ClosureAfter(h: Heap, t: Id, a: Action, h1: Heap)
    requires a.Closure?
  {
    var env, proto := StackSlot(h, t, a.env), StackSlot(h, t, a.proto);
    if env.None? || proto.None? then h1 == h
    else || ClosureMade(h, t, a.dst, a.id, a.f, env.v, proto.v, a.captures, h1)
         || (Grown(h, h1) && NoClosure(h1, t, a.id, a.f, a.captures))
  }

  lemma ClosureAfterIs(h: Heap, t: Id, a: Action, h1: Heap)
    requires a.Closure?
    ensures var env, proto := StackSlot(h, t, a.env), StackSlot(h, t, a.proto);
      ClosureAfter(h, t, a, h1) <==>
      if env.None? || proto.None? then h1 == h
      else ClosureMade(h, t, a.dst, a.id, a.f, env.v, proto.v, a.captures, h1)
           || (Grown(h, h1) && NoClosure(h1, t, a.id, a.f, a.captures))
  {
    hide StackSlot;
    hide ClosureMade;
    hide Grown;
    hide NoClosure;
  }

  /** What an operation of the program does to the roots, and that the collector stays where it is in its cycle. */
  ghost predicate RootsAfter(s0: State, a: Action, s: State) {
    && s.phase == s0.phase && s.cw == s0.cw && s.l.tmudata == s0.l.tmudata
    && s.mainthread == s0.mainthread && s.registry == s0.registry
    && s.mt == (if a.TypeMeta? && a.i < |s0.mt| && StackSlot(s0.m.h, s0.running, a.src).Some?
                then s0.mt[a.i := StackSlot(s0.m.h, s0.running, a.src).v] else s0.mt)
    && s.running == (if a.Resume? && a.t in s0.m.h && s0.m.h[a.t].Thread? && a.t in s0.m.c && s0.m.c[a.t] != White(Other(s0.cw))
                     then a.t else s0.running)
    && s.fixed == (if a.Fix? && a.x in s0.m.h && s0.m.h[a.x].String? then s0.fixed + {a.x} else s0.fixed)
  }

  lemma RootsAfterSame(s0: State, a: Action, s: State)
    requires s.phase == s0.phase && s.cw == s0.cw && s.l.tmudata == s0.l.tmudata
    requires s.mainthread == s0.mainthread && s.registry == s0.registry && s.fixed == s0.fixed
    requires s.running == s0.running && s.mt == s0.mt && !a.TypeMeta? && !a.Resume? && !a.Fix?
    ensures RootsAfter(s0, a, s)
  {
  }

  /** The operations that put a value found in the heap into a slot. */
  method PerformRead(g: GlobalState, a: Action)
    requires Inv(g.Snap(), g.objs.Keys)
    modifies g`objs
    ensures Inv(g.Snap(), g.objs.Keys) && g.objs.Keys == old(g.objs).Keys
    ensures a.Load? || a.Move? || a.GetHeld? || a.GetUpval? ==> g.objs == After(old(g.objs), g.running, a)
    ensures TablesKept(old(g.Snap()), g.Snap())
  {
    hide *;
    TablesKeptSame(g.Snap(), g.Snap());
    g.SnapIs();
    g.ViewIs();
    AfterRead(g.objs, g.running, a);
    if a.Load? {
      SetSlot(g, a.dst, Plain(a.number));
    } else if a.Move? {
      var v := ReadSlot(g, a.src);
      if v.Some? {
        SetSlot(g, a.dst, v.v);
      }
    } else if a.GetHeld? {
      var x := ReadObject(g, a.src);
      if x.Some? && Holds(g.objs[x.v.id], a.v) {
        HeldLive(g.Snap(), x.v.id, a.v);
        SetSlot(g, a.dst, a.v);
      }
    } else if a.GetUpval? {
      var u := ReadUpval(g, a.f, a.n);
      if u.Some? {
        CellLive(g.Snap(), u.v.id);
        SetSlot(g, a.dst, CellValue(g.objs, g.objs[u.v.id].cell));
      }
    }
  }

  /** The operations that allocate, or find a string. */
  method PerformNew(g: GlobalState, a: Action)
    requires Inv(g.Snap(), g.objs.Keys)
    modifies g`objs, g`color, g`rootgc, g`udata, g`sweepgc, g`uvhead, g`strt
    ensures Inv(g.Snap(), g.objs.Keys) && old(g.objs).Keys <= g.objs.Keys
    ensures a.NewObject? || a.NewString? || a.Intern? ==> g.objs == After(old(g.objs), g.running, a)
    ensures a.Closure? ==> ClosureAfter(old(g.objs), g.running, a, g.objs)
    ensures TablesKept(old(g.Snap()), g.Snap())
  {
    hide *;
    ghost var s0 := g.Snap();
    TablesKeptSame(s0, s0);
    g.SnapIs();
    g.ViewIs();
    StackLiveIn(g.Snap());
    AfterNew(g.objs, g.running, a);
    if a.NewObject? {
      var stack := g.objs[g.running].stack;
      if Allocatable(g.objs, g.running, a.id, a.ob) {
        AllocatableIs(g.objs, g.running, a.id, a.ob);
        AllLiveInIs(g.Snap(), stack);
        New(g, a.dst, a.id, a.ob, stack);
      }
    } else if a.NewString? {
      if a.id !in g.objs {
        Buckets(g.Snap());
        LinkString(g, a.id, a.hash);
        ghost var s1 := g.Snap();
        SetSlot(g, a.dst, Ref(a.id));
        TablesKeptTrans(s0, s1, g.Snap());
      }
    } else if a.Intern? {
      if a.x in g.objs && g.objs[a.x].String? {
        InvBasic(g.Snap(), g.objs.Keys);
        FoundString(g, a.x);
        ghost var s1 := g.Snap();
        SetSlot(g, a.dst, Ref(a.x));
        TablesKeptTrans(s0, s1, g.Snap());
      }
    } else if a.Closure? {
      var env := ReadSlot(g, a.env);
      var proto := ReadSlot(g, a.proto);
      if env.Some? && proto.Some? {
        var made := NewClosure(g, a.dst, a.id, a.f, env.v, proto.v, a.captures);
        g.SnapIs();
        g.ViewIs();
      }
      ClosureAfterIs(s0.m.h, g.running, a, g.objs);
    }
  }

  /** The operation makes a black table weak, by storing a value that is not white. */
  ghost predicate WeakensBlack(s: State, a: Action) {
    a.StoreIn? && a.ob.Table?
    && var x, v := StackObject(s.m.h, s.running, a.x), StackSlot(s.m.h, s.running, a.src);
       && x.Some? && v.Some? && x.v.Ref? && x.v.id in s.m.h && SameKind(s.m.h[x.v.id], a.ob)
       && RefsAmong(a.ob, s.m.h[x.v.id], [v.v]) && WeakensBlackTable(s, x.v.id, a.ob, v.v)
  }

  lemma WeakensIs(s: State, a: Action)
    ensures !a.StoreIn? || !a.ob.Table? ==> !WeakensBlack(s, a)
    ensures a.StoreIn? && a.ob.Table? ==>
              var x, v := StackObject(s.m.h, s.running, a.x), StackSlot(s.m.h, s.running, a.src);
              WeakensBlack(s, a) <==>
              (x.Some? && v.Some? && x.v.Ref? && x.v.id in s.m.h && SameKind(s.m.h[x.v.id], a.ob)
               && RefsAmong(a.ob, s.m.h[x.v.id], [v.v]) && WeakensBlackTable(s, x.v.id, a.ob, v.v))
  {
    hide RefsAmong;
    hide SameKind;
    hide WeakensBlackTable;
    hide StackObject;
    hide StackSlot;
  }

  lemma KeepsNoBlackWeak(s0: State, s: State)
    requires TablesKept(s0, s) && s.phase == s0.phase
    ensures NoBlackWeak(s0) ==> NoBlackWeak(s)
  {
    if NoBlackWeak(s0) {
    }
  }

  /** The operations that write to objects other than the stack. */
  method PerformStore(g: GlobalState, a: Action)
    requires Inv(g.Snap(), g.objs.Keys)
    modifies g`objs, g`color, g`gray, g`grayagain
    ensures Inv(g.Snap(), g.objs.Keys) && g.objs.Keys == old(g.objs).Keys
    ensures a.StoreIn? || a.StoreUpval? ==> g.objs == After(old(g.objs), g.running, a)
    ensures old(NoBlackWeak(g.Snap())) ==> (NoBlackWeak(g.Snap()) <==> !old(WeakensBlack(g.Snap(), a)))
  {
    hide *;
    ghost var s0 := g.Snap();
    g.SnapIs();
    g.ViewIs();
    AfterStore(g.objs, g.running, a);
    WeakensIs(s0, a);
    if a.StoreIn? {
      var x := ReadObject(g, a.x);
      var v := ReadSlot(g, a.src);
      if x.Some? && v.Some? && SameKind(g.objs[x.v.id], a.ob) && !a.ob.UpVal? && RefsAmong(a.ob, g.objs[x.v.id], [v.v]) {
        Store(g, x.v.id, a.ob, v.v);
        if a.ob.Table? {
          if NoBlackWeak(s0) {
            WrittenNoBlackWeak(s0, g.Snap(), x.v.id, a.ob, v.v);
          }
        } else {
          g.SnapIs();
          KeepsNoBlackWeak(s0, g.Snap());
        }
      }
    } else if a.StoreUpval? {
      var u := ReadUpval(g, a.f, a.n);
      var v := ReadSlot(g, a.src);
      if u.Some? && v.Some? {
        SetUpval(g, u.v.id, v.v);
        g.SnapIs();
        KeepsNoBlackWeak(s0, g.Snap());
      }
    }
  }

  /** The operations that change what the roots are. */
  method PerformRoots(g: GlobalState, a: Action)
    requires Inv(g.Snap(), g.objs.Keys) && (a.TypeMeta? || a.Resume? || a.Fix?)
    modifies g`mt, g`running, g`fixed
    ensures Inv(g.Snap(), g.objs.Keys) && RootsAfter(old(g.Snap()), a, g.Snap())
  {
    hide *;
    ghost var s0 := g.Snap();
    g.SnapIs();
    g.ViewIs();
    if a.TypeMeta? {
      var v := ReadSlot(g, a.src);
      if v.Some? && a.i < |g.mt| {
        SetTypeMeta(g, a.i, v.v);
      }
    } else if a.Resume? {
      if a.t in g.objs && g.objs[a.t].Thread? && a.t in g.color && g.color[a.t] != White(Other(g.currentwhite)) {
        NotDeadLive(g.Snap(), a.t);
        SwitchTo(g, a.t);
      }
    } else {
      if a.x in g.objs && g.objs[a.x].String? {
        FixString(g, a.x);
      }
    }
    g.SnapIs();
    g.ViewIs();
    RootsChanged(s0, a, g.Snap());
  }

  lemma RootsChanged(s0: State, a: Action, s: State)
    requires a.TypeMeta? || a.Resume? || a.Fix?
    requires s == s0.(mt := s.mt, running := s.running, fixed := s.fixed)
    requires s.mt == if a.TypeMeta? && a.i < |s0.mt| && StackSlot(s0.m.h, s0.running, a.src).Some?
                     then s0.mt[a.i := StackSlot(s0.m.h, s0.running, a.src).v] else s0.mt
    requires s.running == if a.Resume? && a.t in s0.m.h && s0.m.h[a.t].Thread? && a.t in s0.m.c && s0.m.c[a.t] != White(Other(s0.cw))
                          then a.t else s0.running
    requires s.fixed == if a.Fix? && a.x in s0.m.h && s0.m.h[a.x].String? then s0.fixed + {a.x} else s0.fixed
    ensures RootsAfter(s0, a, s)
  {
  }

  lemma Buckets(s: State)
    requires Inv(s, s.m.h.Keys)
    ensures |s.l.strt| > 0
  {
    hide Points;
    InvLinked(s, s.m.h.Keys);
    HasBuckets(s.m.h, s.l);
  }

  predicate OfCollector(a: Action) {
    a.Collect? || a.MarkAndSweep? || a.FullCollect?
  }

  /** No step frees an object that the program can reach; a full collection may clear weak references on its way. */
  method Perform(g: GlobalState, a: Action)
    requires Inv(g.Snap(), g.objs.Keys)
    modifies g
    ensures Inv(g.Snap(), g.objs.Keys)
    ensures a.Collect? ==> Stepped(old(g.Snap()), g.Snap(), old(g.objs.Keys))
    ensures a.MarkAndSweep? ==> g.gcstate == Finalize
    ensures a.FullCollect? ==> g.gcstate == Pause
    ensures !OfCollector(a) && !a.Closure? && !a.Return? ==> g.objs == After(old(g.objs), old(g.running), a)
    ensures a.Closure? ==> ClosureAfter(old(g.objs), old(g.running), a, g.objs)
    ensures !OfCollector(a) ==> RootsAfter(old(g.Snap()), a, g.Snap())
    ensures a.Collect? || !OfCollector(a) ==> forall x :: Accessible(old(g.objs), old(Roots(g.Snap())), x) ==> x in g.objs
    ensures forall x :: StrongAccessible(old(g.objs), old(Roots(g.Snap())), x) ==> x in g.objs
    ensures old(Quiet(g.Snap())) ==> Quiet(g.Snap())
    ensures old(NoBlackWeak(g.Snap())) ==> (NoBlackWeak(g.Snap()) <==> !old(WeakensBlack(g.Snap(), a)))
  {
    hide *;
    ghost var s0 := g.Snap();
    g.SnapIs();
    g.ViewIs();
    ReachedInHeap(s0);
    OfCollectorIs(a);
    if !a.StoreIn? {
      WeakensIs(s0, a);
    }
    if a.Collect? {
      g.SingleStep();
      CollectKeeps(s0, g.Snap(), s0.m.h.Keys);
    } else if a.MarkAndSweep? {
      g.MarkAndSweep();
      g.SnapIs();
      NotMarking(g.Snap());
    } else if a.FullCollect? {
      g.FullGC();
      g.SnapIs();
      g.ViewIs();
      NotMarking(g.Snap());
    } else if a.StoreIn? || a.StoreUpval? {
      PerformStore(g, a);
      g.SnapIs();
      g.ViewIs();
      QuietSame(s0, g.Snap());
      RootsAfterSame(s0, a, g.Snap());
    } else {
      PerformOther(g, a);
      RootsAfterPhase(s0, a, g.Snap());
      QuietSame(s0, g.Snap());
      KeepsNoBlackWeak(s0, g.Snap());
    }
  }

  /** The operations after which no table is black that was not black before. */
  method PerformOther(g: GlobalState, a: Action)
    requires Inv(g.Snap(), g.objs.Keys) && !OfCollector(a) && !a.StoreIn? && !a.StoreUpval?
    modifies g`objs, g`color, g`gray, g`rootgc, g`udata, g`sweepgc, g`uvhead, g`strt, g`mt, g`running, g`fixed
    ensures Inv(g.Snap(), g.objs.Keys) && TablesKept(old(g.Snap()), g.Snap()) && RootsAfter(old(g.Snap()), a, g.Snap())
    ensures !a.Closure? && !a.Return? ==> g.objs == After(old(g.objs), old(g.running), a)
    ensures a.Closure? ==> ClosureAfter(old(g.objs), old(g.running), a, g.objs)
    ensures forall x :: Accessible(old(g.objs), old(Roots(g.Snap())), x) ==> x in g.objs
  {
    hide *;
    ghost var s0 := g.Snap();
    g.SnapIs();
    g.ViewIs();
    ReachedInHeap(s0);
    OfCollectorIs(a);
    if a.Load? || a.Move? || a.GetHeld? || a.GetUpval? {
      PerformRead(g, a);
    } else if a.NewObject? || a.NewString? || a.Intern? || a.Closure? {
      PerformNew(g, a);
    } else if a.Return? {
      Leave(g, a.level);
    } else {
      AfterRoots(g.objs, g.running, a);
      PerformRoots(g, a);
      g.SnapIs();
      g.ViewIs();
      TablesKeptSame(s0, g.Snap());
    }
    if !a.TypeMeta? && !a.Resume? && !a.Fix? {
      g.SnapIs();
      g.ViewIs();
      RootsAfterSame(s0, a, g.Snap());
    }
  }

  lemma RootsAfterPhase(s0: State, a: Action, s: State)
    requires RootsAfter(s0, a, s)
    ensures s.phase == s0.phase && s.l.tmudata == s0.l.tmudata
  {
  }

  lemma OfCollectorIs(a: Action)
    ensures OfCollector(a) <==> a.Collect? || a.MarkAndSweep? || a.FullCollect?
  {
  }

  lemma CollectKeeps(s0: State, s: State, rs: set<Id>)
    requires Stepped(s0, s, rs)
    ensures Quiet(s0) ==> Quiet(s)
    ensures NoBlackWeak(s0) ==> NoBlackWeak(s)
  {
    hide Stepped;
    if Quiet(s0) {
      SteppedQuiet(s0, s, rs);
    }
    if NoBlackWeak(s0) {
      SteppedNoBlackWeak(s0, s, rs);
    }
  }

  lemma NotMarking(s: State)
    requires s.phase == Finalize || (s.phase == Pause && s.l.tmudata == [])
    ensures Quiet(s) && NoBlackWeak(s)
  {
  }

  lemma QuietSame(s0: State, s: State)
    requires s.phase == s0.phase && s.l.tmudata == s0.l.tmudata
    ensures Quiet(s0) ==> Quiet(s)
  {
  }

  lemma ReachedInHeap(s: State)
    requires Inv(s, s.m.h.Keys)
    ensures forall x :: Accessible(s.m.h, Roots(s), x) ==> x in s.m.h && Live(s.Sw(), x)
    ensures forall x :: StrongAccessible(s.m.h, Roots(s), x) ==> Accessible(s.m.h, Roots(s), x)
  {
    hide Inv;
    hide Points;
    hide StrongPoints;
    AccessibleAllLive(s, s.m.h.Keys);
    LiveIn(s);
    hide Live;
    forall x | StrongAccessible(s.m.h, Roots(s), x)
      ensures Accessible(s.m.h, Roots(s), x)
    {
      StrongIsAccessible(s.m.h, Roots(s), x);
    }
  }

  /** What holds at every moment of a run. */
  ghost predicate Sound(s: State) {
    Inv(s, s.m.h.Keys) && forall x :: Accessible(s.m.h, Roots(s), x) ==> x in s.m.h && Live(s.Sw(), x)
  }

  /** The state `trace[i + 1]` is what `script[i]` makes of `trace[i]`, as far as weak tables are concerned. */
  ghost predicate WeakTraced(trace: seq<State>, script: seq<Action>)
    requires |trace| <= |script| + 1
  {
    forall i :: 0 <= i < |trace| - 1 && NoBlackWeak(trace[i]) ==> (NoBlackWeak(trace[i + 1]) <==> !WeakensBlack(trace[i], script[i]))
  }

  ghost predicate AllSound(trace: seq<State>) {
    forall s :: s in trace ==> Sound(s)
  }

  ghost predicate AllQuiet(trace: seq<State>) {
    forall s :: s in trace ==> Quiet(s) && BlackToMarked(s)
  }

  /** Any interleaving of steps of the collector and of the program, from any state that satisfies the
      invariant, and at every moment of it: no reference that the program can follow leads to a freed object, and
      no black object refers to a white one unless userdata were waiting when the run began. */
  method Run(g: GlobalState, script: seq<Action>) returns (ghost trace: seq<State>)
    requires Inv(g.Snap(), g.objs.Keys)
    modifies g
    ensures |trace| == |script| + 1 && trace[0] == old(g.Snap()) && trace[|script|] == g.Snap()
    ensures AllSound(trace) && WeakTraced(trace, script)
    ensures old(Quiet(g.Snap())) ==> AllQuiet(trace)
    ensures Inv(g.Snap(), g.objs.Keys)
    ensures forall x :: Accessible(g.objs, Roots(g.Snap()), x) ==> x in g.objs && Live(g.Snap().Sw(), x)
  {
    hide *;
    ghost var s0 := g.Snap();
    trace := [s0];
    g.SnapIs();
    g.ViewIs();
    TraceStarts(s0, script);
    for i := 0 to |script|
      invariant Inv(g.Snap(), g.objs.Keys) && g.objs == g.Snap().m.h
      invariant |trace| == i + 1 && trace[0] == s0 && trace[i] == g.Snap()
      invariant AllSound(trace) && WeakTraced(trace, script)
      invariant Quiet(s0) ==> AllQuiet(trace)
    {
      ghost var s1 := g.Snap();
      Perform(g, script[i]);
      g.SnapIs();
      g.ViewIs();
      TraceGrows(trace, script, g.Snap());
      trace := trace + [g.Snap()];
    }
    ReachedInHeap(g.Snap());
  }

  lemma TraceStarts(s: State, script: seq<Action>)
    requires Inv(s, s.m.h.Keys)
    ensures AllSound([s]) && WeakTraced([s], script) && (Quiet(s) ==> AllQuiet([s]))
  {
    hide Inv;
    hide Quiet;
    hide BlackToMarked;
    ReachedInHeap(s);
    if Quiet(s) {
      QuietBlack(s);
    }
  }

  lemma TraceGrows(trace: seq<State>, script: seq<Action>, s: State)
    requires 0 < |trace| <= |script| && AllSound(trace) && WeakTraced(trace, script) && Inv(s, s.m.h.Keys)
    requires var s1 := trace[|trace| - 1];
      && (Quiet(s1) ==> Quiet(s))
      && (NoBlackWeak(s1) ==> (NoBlackWeak(s) <==> !WeakensBlack(s1, script[|trace| - 1])))
    ensures AllSound(trace + [s]) && WeakTraced(trace + [s], script)
    ensures AllQuiet(trace) ==> AllQuiet(trace + [s])
  {
    hide Inv;
    hide Quiet;
    hide BlackToMarked;
    hide NoBlackWeak;
    hide WeakensBlack;
    hide Live;
    hide Accessible;
    ReachedInHeap(s);
    assert trace[|trace| - 1] in trace;
    if Quiet(s) {
      QuietBlack(s);
    }
  }

  /** From a new state, no black object ever refers to a white one, whatever the program and the collector do. */
  method RunFromStart(main: Id, buckets: nat, script: seq<Action>) returns (g: GlobalState, ghost trace: seq<State>)
    requires buckets > 0
    ensures |trace| == |script| + 1 && trace[|script|] == g.Snap() && AllSound(trace) && AllQuiet(trace)
    ensures WeakTraced(trace, script) && NoBlackWeak(trace[0])
  {
    hide *;
    g := new GlobalState(main, buckets);
    trace := Run(g, script);
  }
}
