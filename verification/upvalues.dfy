/** Upvalues: stack slots that are shared with closures, and that outlive their block in a cell of their own. */
module Upvalues {

  type Value = int

  /** Where an upvalue's value is: in a slot of the stack while the block is active, then in the upvalue. */
  datatype Place = Open(slot: nat) | Closed(v: Value)

  class UpVal {
    var v: Place

    constructor (level: nat)
      ensures v == Open(level)
    {
      v := Open(level);
    }
  }

  /** An upvalue of a new closure: OP_MOVE names a slot, OP_GETUPVAL an upvalue of the enclosing closure. */
  datatype Capture = FromStack(slot: nat) | FromClosure(n: nat)

  datatype Op =
    | NewLocal(v: Value)
    | SetLocal(slot: nat, v: Value)
    | GetLocal(slot: nat)
    | MakeClosure(cl: nat, captures: seq<Capture>)
    | GetUpval(cl: nat, n: nat)
    | SetUpval(cl: nat, n: nat, v: Value)
    | ExitBlock(level: nat)

  datatype Output = Nothing | Read(v: Value)

  // ---- the meaning of a program: each local variable is a cell on a heap ----

  /** `env` gives the cell of each active local variable, `closures` the cells that each closure has captured. */
  datatype Cells = Cells(heap: seq<Value>, env: seq<nat>, closures: seq<seq<nat>>)

  predicate Captured(c: Cells, cl: nat, n: nat) {
    cl < |c.closures| && n < |c.closures[cl]| && c.closures[cl][n] < |c.heap|
  }

  predicate Bound(c: Cells, slot: nat) {
    slot < |c.env| && c.env[slot] < |c.heap|
  }

  predicate CanCapture(c: Cells, cl: nat, x: Capture) {
    match x
    case FromStack(s) => s < |c.env|
    case FromClosure(n) => cl < |c.closures| && n < |c.closures[cl]|
  }

  function CapturedCell(c: Cells, cl: nat, x: Capture): nat
    requires CanCapture(c, cl, x)
  {
    match x
    case FromStack(s) => c.env[s]
    case FromClosure(n) => c.closures[cl][n]
  }

  function CapturedCells(c: Cells, cl: nat, xs: seq<Capture>): seq<nat>
    requires forall i :: 0 <= i < |xs| ==> CanCapture(c, cl, xs[i])
  {
    seq(|xs|, i requires 0 <= i < |xs| => CapturedCell(c, cl, xs[i]))
  }

  /** One step; an operation that does not fit does nothing. */
  function Step(c: Cells, op: Op): (Cells, Output) {
    match op
    case NewLocal(v) => (c.(heap := c.heap + [v], env := c.env + [|c.heap|]), Nothing)
    case SetLocal(s, v) => (if Bound(c, s) then c.(heap := c.heap[c.env[s] := v]) else c, Nothing)
    case GetLocal(s) => (c, if Bound(c, s) then Read(c.heap[c.env[s]]) else Nothing)
    case MakeClosure(cl, xs) =>
      (if forall i :: 0 <= i < |xs| ==> CanCapture(c, cl, xs[i]) then c.(closures := c.closures + [CapturedCells(c, cl, xs)]) else c, Nothing)
    case GetUpval(cl, n) => (c, if Captured(c, cl, n) then Read(c.heap[c.closures[cl][n]]) else Nothing)
    case SetUpval(cl, n, v) => (if Captured(c, cl, n) then c.(heap := c.heap[c.closures[cl][n] := v]) else c, Nothing)
    case ExitBlock(level) => (if level <= |c.env| then c.(env := c.env[..level]) else c, Nothing)
  }

  function Steps(c: Cells, ops: seq<Op>): Cells {
    if ops == [] then c else Step(Steps(c, ops[..|ops| - 1]), ops[|ops| - 1]).0
  }

  function Outputs(c: Cells, ops: seq<Op>): seq<Output> {
    if ops == [] then []
    else Outputs(c, ops[..|ops| - 1]) + [Step(Steps(c, ops[..|ops| - 1]), ops[|ops| - 1]).1]
  }

  predicate Distinct(s: seq<nat>) {
    forall i, j :: 0 <= i < j < |s| ==> s[i] != s[j]
  }

  // ---- how the stack and the upvalues represent the cells ----

  /** What each upvalue is at the moment. */
  type Places = map<UpVal, Place>

  /** The list of open upvalues goes from the top of the stack downwards, with at most one for each slot. */
  ghost predicate Sorted(open: seq<UpVal>, pl: Places) {
    && (forall i :: 0 <= i < |open| ==> open[i] in pl && pl[open[i]].Open?)
    && forall i, j :: 0 <= i < j < |open| ==> pl[open[i]].slot > pl[open[j]].slot
  }

  /** The local variables hold what their cells hold. */
  ghost predicate LocalsOk(stack: seq<Value>, c: Cells) {
    && |c.env| == |stack| && Distinct(c.env)
    && forall s :: 0 <= s < |stack| ==> c.env[s] < |c.heap| && stack[s] == c.heap[c.env[s]]
  }

  /** An upvalue shares the slot of its variable; or it holds the value itself, and its variable is not among
      the first `n`. */
  ghost predicate UpvalOk(open: seq<UpVal>, pl: Places, cellOf: map<UpVal, nat>, c: Cells, u: UpVal, n: nat) {
    && u in pl && u in cellOf && cellOf[u] < |c.heap|
    && match pl[u]
       case Open(s) => s < |c.env| && c.env[s] == cellOf[u] && u in open
       case Closed(v) => v == c.heap[cellOf[u]] && forall s :: 0 <= s < |c.env| && s < n ==> c.env[s] != cellOf[u]
  }

  ghost predicate UpvalsOk(open: seq<UpVal>, pl: Places, cellOf: map<UpVal, nat>, c: Cells, n: nat) {
    && (forall u :: u in cellOf ==> UpvalOk(open, pl, cellOf, c, u, n))
    && (forall u, w :: u in cellOf && w in cellOf && cellOf[u] == cellOf[w] ==> u == w)
    && (forall u :: u in open ==> u in cellOf)
  }

  ghost predicate ClosuresOk(closures: seq<seq<UpVal>>, cellOf: map<UpVal, nat>, c: Cells) {
    && |c.closures| == |closures|
    && forall i :: 0 <= i < |closures| ==> ClosureOk(closures[i], c.closures[i], cellOf)
  }

  ghost predicate ClosureOk(us: seq<UpVal>, ids: seq<nat>, cellOf: map<UpVal, nat>) {
    |ids| == |us| && forall n :: 0 <= n < |us| ==> us[n] in cellOf && cellOf[us[n]] == ids[n]
  }

  /** The representation, while the upvalues of slots from `n` on may have been closed already. */
  ghost predicate Represents(stack: seq<Value>, open: seq<UpVal>, closures: seq<seq<UpVal>>, pl: Places, cellOf: map<UpVal, nat>, c: Cells, n: nat) {
    Sorted(open, pl) && LocalsOk(stack, c) && UpvalsOk(open, pl, cellOf, c, n) && ClosuresOk(closures, cellOf, c) && pl.Keys == cellOf.Keys
  }

  function ValueIn(stack: seq<Value>, p: Place): Value {
    match p
    case Open(s) => if s < |stack| then stack[s] else 0
    case Closed(v) => v
  }

  /** Reading through an upvalue reads its cell. */
  lemma ReadsCell(stack: seq<Value>, open: seq<UpVal>, closures: seq<seq<UpVal>>, pl: Places, cellOf: map<UpVal, nat>, c: Cells, n: nat, u: UpVal)
    requires Represents(stack, open, closures, pl, cellOf, c, n) && u in cellOf
    ensures u in pl && cellOf[u] < |c.heap| && ValueIn(stack, pl[u]) == c.heap[cellOf[u]]
  {
    assert UpvalOk(open, pl, cellOf, c, u, n);
  }

  /** The open upvalue of a slot is the only upvalue of its variable. */
  lemma FoundOpen(stack: seq<Value>, open: seq<UpVal>, closures: seq<seq<UpVal>>, pl: Places, cellOf: map<UpVal, nat>, c: Cells, level: nat, i: nat)
    requires Represents(stack, open, closures, pl, cellOf, c, |stack|) && i < |open| && open[i] in pl && pl[open[i]] == Open(level)
    ensures open[i] in cellOf && level < |c.env| && cellOf[open[i]] == c.env[level]
  {
    assert open[i] in open;
    assert UpvalOk(open, pl, cellOf, c, open[i], |stack|);
  }

  lemma NewOpen(stack: seq<Value>, open: seq<UpVal>, closures: seq<seq<UpVal>>, pl: Places, cellOf: map<UpVal, nat>, c: Cells, level: nat, i: nat, u: UpVal)
    requires Represents(stack, open, closures, pl, cellOf, c, |stack|) && level < |stack| && i <= |open| && u !in pl
    requires forall j :: 0 <= j < i ==> pl[open[j]].slot > level
    requires i < |open| ==> pl[open[i]].slot < level
    ensures Represents(stack, open[..i] + [u] + open[i..], closures, pl[u := Open(level)], cellOf[u := c.env[level]], c, |stack|)
  {
    var open1, pl1, cellOf1 := open[..i] + [u] + open[i..], pl[u := Open(level)], cellOf[u := c.env[level]];
    assert forall w :: w in open1 <==> w in open || w == u by {
      InsertedMembers(open, i, u);
    }
    NewSorted(open, pl, level, i, u);
    forall w | w in cellOf
      ensures UpvalOk(open1, pl1, cellOf1, c, w, |stack|) && cellOf[w] != c.env[level]
    {
      assert UpvalOk(open, pl, cellOf, c, w, |stack|);
      NotThisSlot(open, pl, level, i, w);
    }
    assert forall k :: 0 <= k < |closures| ==> ClosureOk(closures[k], c.closures[k], cellOf);
    assert forall us, ids :: ClosureOk(us, ids, cellOf) ==> ClosureOk(us, ids, cellOf1);
  }

  lemma InsertedMembers(open: seq<UpVal>, i: nat, u: UpVal)
    requires i <= |open|
    ensures forall w :: w in open[..i] + [u] + open[i..] <==> w in open || w == u
  {
    assert open == open[..i] + open[i..];
  }

  lemma NewSorted(open: seq<UpVal>, pl: Places, level: nat, i: nat, u: UpVal)
    requires Sorted(open, pl) && i <= |open| && u !in pl
    requires forall j :: 0 <= j < i ==> pl[open[j]].slot > level
    requires i < |open| ==> pl[open[i]].slot < level
    ensures Sorted(open[..i] + [u] + open[i..], pl[u := Open(level)])
  {
    var open1 := open[..i] + [u] + open[i..];
    assert forall j :: 0 <= j < |open1| ==> open1[j] == if j < i then open[j] else if j == i then u else open[j - 1];
    assert forall j :: i <= j < |open| ==> pl[open[j]].slot < level;
  }

  /** No upvalue in the list is that of the slot where the search stopped. */
  lemma NotThisSlot(open: seq<UpVal>, pl: Places, level: nat, i: nat, w: UpVal)
    requires Sorted(open, pl) && i <= |open|
    requires forall j :: 0 <= j < i ==> pl[open[j]].slot > level
    requires i < |open| ==> pl[open[i]].slot < level
    ensures w in open ==> w in pl && pl[w] != Open(level)
  {
    assert forall j :: i <= j < |open| ==> pl[open[j]].slot < level;
  }

  /** One iteration of luaF_close: the first open upvalue gets its own copy of the value. */
  lemma ClosedFirst(stack: seq<Value>, open: seq<UpVal>, closures: seq<seq<UpVal>>, pl: Places, cellOf: map<UpVal, nat>, c: Cells, n: nat)
    requires Represents(stack, open, closures, pl, cellOf, c, n) && open != [] && pl[open[0]].slot >= n
    ensures open[0] in pl && pl[open[0]].Open? && pl[open[0]].slot < |stack|
    ensures Represents(stack, open[1..], closures, pl[open[0] := Closed(stack[pl[open[0]].slot])], cellOf, c, n)
    ensures var pl1 := pl[open[0] := Closed(stack[pl[open[0]].slot])]; forall w :: w in pl ==> ValueIn(stack, pl1[w]) == ValueIn(stack, pl[w])
  {
    var u := open[0];
    assert u in open && UpvalOk(open, pl, cellOf, c, u, n);
    var pl1, rest := pl[u := Closed(stack[pl[u].slot])], open[1..];
    assert forall w :: w in open <==> w == u || w in rest;
    assert forall j :: 0 <= j < |rest| ==> rest[j] == open[j + 1];
    forall w | w in cellOf
      ensures UpvalOk(rest, pl1, cellOf, c, w, n)
    {
      assert UpvalOk(open, pl, cellOf, c, w, n);
    }
  }

  /** After luaF_close no open upvalue refers to the slots that are given up. */
  lemma Shortened(stack: seq<Value>, open: seq<UpVal>, closures: seq<seq<UpVal>>, pl: Places, cellOf: map<UpVal, nat>, c: Cells, n: nat)
    requires Represents(stack, open, closures, pl, cellOf, c, n) && n <= |stack| && (open == [] || pl[open[0]].slot < n)
    ensures Represents(stack[..n], open, closures, pl, cellOf, c.(env := c.env[..n]), n)
  {
    var c1 := c.(env := c.env[..n]);
    assert forall j :: 0 <= j < |open| ==> pl[open[j]].slot < n;
    forall w | w in cellOf
      ensures UpvalOk(open, pl, cellOf, c1, w, n)
    {
      assert UpvalOk(open, pl, cellOf, c, w, n);
    }
  }

  /** A new local variable is a new cell. */
  lemma Pushed(stack: seq<Value>, open: seq<UpVal>, closures: seq<seq<UpVal>>, pl: Places, cellOf: map<UpVal, nat>, c: Cells, v: Value)
    requires Represents(stack, open, closures, pl, cellOf, c, |stack|)
    ensures Represents(stack + [v], open, closures, pl, cellOf, c.(heap := c.heap + [v], env := c.env + [|c.heap|]), |stack| + 1)
  {
    var c1 := c.(heap := c.heap + [v], env := c.env + [|c.heap|]);
    forall w | w in cellOf
      ensures UpvalOk(open, pl, cellOf, c1, w, |stack| + 1)
    {
      assert UpvalOk(open, pl, cellOf, c, w, |stack|);
    }
  }

  /** A write to a local variable is seen through its upvalue, and nowhere else. */
  lemma LocalWritten(stack: seq<Value>, open: seq<UpVal>, closures: seq<seq<UpVal>>, pl: Places, cellOf: map<UpVal, nat>, c: Cells, s: nat, v: Value)
    requires Represents(stack, open, closures, pl, cellOf, c, |stack|) && s < |stack|
    ensures s < |c.env| && c.env[s] < |c.heap|
    ensures Represents(stack[s := v], open, closures, pl, cellOf, c.(heap := c.heap[c.env[s] := v]), |stack|)
  {
    var c1 := c.(heap := c.heap[c.env[s] := v]);
    forall w | w in cellOf
      ensures UpvalOk(open, pl, cellOf, c1, w, |stack|)
    {
      assert UpvalOk(open, pl, cellOf, c, w, |stack|);
    }
  }

  /** A write through a closed upvalue. */
  lemma UpvalWritten(stack: seq<Value>, open: seq<UpVal>, closures: seq<seq<UpVal>>, pl: Places, cellOf: map<UpVal, nat>, c: Cells, u: UpVal, v: Value)
    requires Represents(stack, open, closures, pl, cellOf, c, |stack|) && u in cellOf && u in pl && pl[u].Closed?
    ensures cellOf[u] < |c.heap|
    ensures Represents(stack, open, closures, pl[u := Closed(v)], cellOf, c.(heap := c.heap[cellOf[u] := v]), |stack|)
  {
    assert UpvalOk(open, pl, cellOf, c, u, |stack|);
    var c1, pl1 := c.(heap := c.heap[cellOf[u] := v]), pl[u := Closed(v)];
    assert u !in open;
    forall w | w in cellOf
      ensures UpvalOk(open, pl1, cellOf, c1, w, |stack|)
    {
      assert UpvalOk(open, pl, cellOf, c, w, |stack|);
    }
    assert forall i :: 0 <= i < |open| ==> open[i] in open && open[i] != u;
  }

  lemma OpenUpvalIs(stack: seq<Value>, open: seq<UpVal>, closures: seq<seq<UpVal>>, pl: Places, cellOf: map<UpVal, nat>, c: Cells, u: UpVal)
    requires Represents(stack, open, closures, pl, cellOf, c, |stack|) && u in cellOf && u in pl && pl[u].Open?
    ensures pl[u].slot < |stack| && pl[u].slot < |c.env| && c.env[pl[u].slot] == cellOf[u]
  {
    assert UpvalOk(open, pl, cellOf, c, u, |stack|);
  }

  class Thread {
    var stack: seq<Value>
    var openupval: seq<UpVal>
    var closures: seq<seq<UpVal>>
    /** The upvalues that have been created, each with the cell that it stands for. */
    ghost var cellOf: map<UpVal, nat>
    ghost var cells: Cells

    ghost function Now(): Places
      reads this`cellOf, cellOf.Keys
    {
      map u | u in cellOf :: u.v
    }

    ghost predicate Valid()
      reads this, cellOf.Keys
    {
      Represents(stack, openupval, closures, Now(), cellOf, cells, |stack|)
    }

    constructor ()
      ensures Valid() && cells == Cells([], [], []) && cellOf == map[]
    {
      stack, openupval, closures, cellOf, cells := [], [], [], map[], Cells([], [], []);
    }

    /** luaF_findupval. */
    method FindUpval(level: nat) returns (u: UpVal)
      requires Valid() && level < |stack|
      modifies this`openupval, this`cellOf
      ensures Valid() && u in cellOf && level < |cells.env| && cellOf[u] == cells.env[level]
      ensures forall w :: w in old(cellOf) ==> w in cellOf && cellOf[w] == old(cellOf)[w]
      ensures fresh(cellOf.Keys - old(cellOf).Keys)
    {
      hide UpvalsOk;
      hide ClosuresOk;
      ghost var pl := Now();
      var i := 0;
      while i < |openupval| && openupval[i].v.slot >= level
        invariant 0 <= i <= |openupval| && forall j :: 0 <= j < i ==> pl[openupval[j]].slot > level
      {
        if openupval[i].v.slot == level {
          FoundOpen(stack, openupval, closures, pl, cellOf, cells, level, i);
          return openupval[i];
        }
        i := i + 1;
      }
      u := new UpVal(level);
      NewOpen(stack, openupval, closures, pl, cellOf, cells, level, i, u);
      openupval := openupval[..i] + [u] + openupval[i..];
      cellOf := cellOf[u := cells.env[level]];
      assert Now() == pl[u := Open(level)];
    }

    /** luaF_close: no value that is read through an upvalue changes. */
    method Close(level: nat)
      requires Valid() && level <= |stack|
      modifies this`openupval, cellOf.Keys
      ensures Represents(stack, openupval, closures, Now(), cellOf, cells, level)
      ensures openupval == [] || (openupval[0] in cellOf && Now()[openupval[0]].slot < level)
      ensures forall u :: u in cellOf ==> ValueIn(stack, Now()[u]) == ValueIn(stack, old(Now())[u])
    {
      while openupval != [] && openupval[0].v.slot >= level
        invariant Represents(stack, openupval, closures, Now(), cellOf, cells, level)
        invariant forall u :: u in cellOf ==> ValueIn(stack, Now()[u]) == ValueIn(stack, old(Now())[u])
        decreases |openupval|
      {
        ghost var pl := Now();
        var uv := openupval[0];
        ClosedFirst(stack, openupval, closures, pl, cellOf, cells, level);
        openupval := openupval[1..];
        uv.v := Closed(stack[uv.v.slot]);
        assert Now() == pl[uv := uv.v];
      }
    }

    /** Reading through an upvalue. */
    method ReadUpval(u: UpVal) returns (v: Value)
      requires Valid() && u in cellOf
      ensures cellOf[u] < |cells.heap| && v == cells.heap[cellOf[u]]
    {
      ReadsCell(stack, openupval, closures, Now(), cellOf, cells, |stack|, u);
      if u.v.Open? {
        OpenUpvalIs(stack, openupval, closures, Now(), cellOf, cells, u);
        v := stack[u.v.slot];
      } else {
        v := u.v.v;
      }
    }

    /** OP_SETUPVAL. */
    method WriteUpval(u: UpVal, v: Value)
      requires Valid() && u in cellOf
      modifies this`stack, this`cells, u
      ensures Valid() && old(cellOf[u] < |cells.heap|) && cells == old(cells).(heap := old(cells).heap[cellOf[u] := v])
    {
      ghost var pl := Now();
      ReadsCell(stack, openupval, closures, pl, cellOf, cells, |stack|, u);
      if u.v.Open? {
        OpenUpvalIs(stack, openupval, closures, pl, cellOf, cells, u);
        LocalWritten(stack, openupval, closures, pl, cellOf, cells, u.v.slot, v);
        stack := stack[u.v.slot := v];
        cells := cells.(heap := cells.heap[cellOf[u] := v]);
        assert Now() == pl;
      } else {
        UpvalWritten(stack, openupval, closures, pl, cellOf, cells, u, v);
        u.v := Closed(v);
        cells := cells.(heap := cells.heap[cellOf[u] := v]);
        assert Now() == pl[u := Closed(v)];
      }
    }

    /** OP_CLOSURE. */
    method NewClosure(cl: nat, xs: seq<Capture>)
      requires Valid()
      modifies this`openupval, this`cellOf, this`closures, this`cells
      ensures Valid() && cells == Step(old(cells), MakeClosure(cl, xs)).0
      ensures fresh(cellOf.Keys - old(cellOf).Keys)
    {
      hide Represents;
      hide Sorted;
      ghost var c := cells;
      SizesAgree(stack, openupval, closures, Now(), cellOf, cells);
      var i := 0;
      var us: seq<UpVal> := [];
      while i < |xs|
        modifies this`openupval, this`cellOf
        invariant 0 <= i <= |xs| && |us| == i && Valid() && fresh(cellOf.Keys - old(cellOf).Keys)
        invariant forall j :: 0 <= j < i ==> CanCapture(c, cl, xs[j]) && us[j] in cellOf && cellOf[us[j]] == CapturedCell(c, cl, xs[j])
      {
        var u;
        match xs[i] {
          case FromStack(s) =>
            if s >= |stack| {
              return;
            }
            u := FindUpval(s);
          case FromClosure(n) =>
            if cl >= |closures| || n >= |closures[cl]| {
              return;
            }
            CapturedIs(stack, openupval, closures, Now(), cellOf, cells, cl, n);
            u := closures[cl][n];
        }
        us := us + [u];
        i := i + 1;
      }
      ClosureMade(stack, openupval, closures, Now(), cellOf, c, us, CapturedCells(c, cl, xs));
      closures := closures + [us];
      cells := cells.(closures := cells.closures + [CapturedCells(c, cl, xs)]);
    }

    /** Leaving a block: OP_CLOSE, and its local variables are gone. */
    method ExitBlock(level: nat)
      requires Valid() && level <= |stack|
      modifies this`openupval, this`stack, this`cells, cellOf.Keys
      ensures Valid() && cells == old(cells).(env := old(cells).env[..level])
    {
      hide Represents;
      SizesAgree(stack, openupval, closures, Now(), cellOf, cells);
      Close(level);
      Shortened(stack, openupval, closures, Now(), cellOf, cells, level);
      stack := stack[..level];
      cells := cells.(env := cells.env[..level]);
    }

    /** One operation; its output is what the cells give. */
    method Perform(op: Op) returns (out: Output)
      requires Valid()
      modifies this, cellOf.Keys
      ensures Valid() && (cells, out) == Step(old(cells), op)
      ensures fresh(cellOf.Keys - old(cellOf).Keys)
    {
      hide Represents;
      ghost var c := cells;
      SizesAgree(stack, openupval, closures, Now(), cellOf, cells);
      LocalsAre(stack, openupval, closures, Now(), cellOf, cells);
      out := Nothing;
      match op {
        case NewLocal(v) =>
          Pushed(stack, openupval, closures, Now(), cellOf, cells, v);
          stack := stack + [v];
          cells := cells.(heap := cells.heap + [v], env := cells.env + [|cells.heap|]);
        case SetLocal(s, v) =>
          if s < |stack| {
            LocalWritten(stack, openupval, closures, Now(), cellOf, cells, s, v);
            stack := stack[s := v];
            cells := cells.(heap := cells.heap[cells.env[s] := v]);
          }
        case GetLocal(s) =>
          if s < |stack| {
            out := Read(stack[s]);
          }
        case MakeClosure(cl, xs) =>
          NewClosure(cl, xs);
        case GetUpval(cl, n) =>
          if cl < |closures| && n < |closures[cl]| {
            CapturedIs(stack, openupval, closures, Now(), cellOf, cells, cl, n);
            var v := ReadUpval(closures[cl][n]);
            out := Read(v);
          }
        case SetUpval(cl, n, v) =>
          if cl < |closures| && n < |closures[cl]| {
            CapturedIs(stack, openupval, closures, Now(), cellOf, cells, cl, n);
            WriteUpval(closures[cl][n], v);
          }
        case ExitBlock(level) =>
          if level <= |stack| {
            ExitBlock(level);
          }
      }
    }
  }

  lemma SizesAgree(stack: seq<Value>, open: seq<UpVal>, closures: seq<seq<UpVal>>, pl: Places, cellOf: map<UpVal, nat>, c: Cells)
    requires Represents(stack, open, closures, pl, cellOf, c, |stack|)
    ensures |c.env| == |stack| && |c.closures| == |closures| && forall i :: 0 <= i < |closures| ==> |closures[i]| == |c.closures[i]|
  {
    forall i | 0 <= i < |closures|
      ensures |closures[i]| == |c.closures[i]|
    {
      assert ClosureOk(closures[i], c.closures[i], cellOf);
    }
  }

  lemma LocalsAre(stack: seq<Value>, open: seq<UpVal>, closures: seq<seq<UpVal>>, pl: Places, cellOf: map<UpVal, nat>, c: Cells)
    requires Represents(stack, open, closures, pl, cellOf, c, |stack|)
    ensures forall s :: 0 <= s < |stack| ==> c.env[s] < |c.heap| && stack[s] == c.heap[c.env[s]]
  {
  }

  lemma ClosureMade(stack: seq<Value>, open: seq<UpVal>, closures: seq<seq<UpVal>>, pl: Places, cellOf: map<UpVal, nat>, c: Cells, us: seq<UpVal>, ids: seq<nat>)
    requires Represents(stack, open, closures, pl, cellOf, c, |stack|) && ClosureOk(us, ids, cellOf)
    ensures Represents(stack, open, closures + [us], pl, cellOf, c.(closures := c.closures + [ids]), |stack|)
  {
    var c1 := c.(closures := c.closures + [ids]);
    forall w | w in cellOf
      ensures UpvalOk(open, pl, cellOf, c1, w, |stack|)
    {
      assert UpvalOk(open, pl, cellOf, c, w, |stack|);
    }
    forall i | 0 <= i < |closures + [us]|
      ensures ClosureOk((closures + [us])[i], c1.closures[i], cellOf)
    {
      assert i < |closures| ==> ClosureOk(closures[i], c.closures[i], cellOf);
    }
  }

  lemma CapturedIs(stack: seq<Value>, open: seq<UpVal>, closures: seq<seq<UpVal>>, pl: Places, cellOf: map<UpVal, nat>, c: Cells, cl: nat, n: nat)
    requires Represents(stack, open, closures, pl, cellOf, c, |stack|) && cl < |closures| && n < |closures[cl]|
    ensures cl < |c.closures| && n < |c.closures[cl]| && closures[cl][n] in cellOf && c.closures[cl][n] == cellOf[closures[cl][n]]
    ensures c.closures[cl][n] < |c.heap|
  {
    assert ClosureOk(closures[cl], c.closures[cl], cellOf);
    assert UpvalOk(open, pl, cellOf, c, closures[cl][n], |stack|);
  }

  /** Any run: every read, of a local variable or through a closure, gives what it would give if each captured
      variable were one cell. */
  method Run(ops: seq<Op>) returns (outs: seq<Output>)
    ensures outs == Outputs(Cells([], [], []), ops)
  {
    var t := new Thread();
    ghost var c := t.cells;
    outs := [];
    for i := 0 to |ops|
      invariant t.Valid() && fresh(t) && fresh(t.cellOf.Keys) && t.cells == Steps(c, ops[..i]) && outs == Outputs(c, ops[..i])
    {
      var out := t.Perform(ops[i]);
      assert ops[..i + 1][..i] == ops[..i];
      outs := outs + [out];
    }
    assert ops[..|ops|] == ops;
  }
}
