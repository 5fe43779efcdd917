/** Runs of assignments, and the references of lauxlib.c: a free list threaded through a table. */
module TableRuns {
  import opened Limits
  import opened Nodes
  import opened Counting
  import opened TableValues
  import opened Traversals
  import opened LuaTables
  import opened Wrappers

  /** The finite map after a run of assignments; an assignment that raises an error changes nothing. */
  ghost function MapAfter(ops: seq<(TValue, TValue)>, rs: seq<Result<(), Error>>): (m: map<TValue, TValue>)
    requires |rs| == |ops|
    ensures forall k :: k in m ==> m[k] != Nil
  {
    if ops == [] then map[]
    else
      var n := |ops| - 1;
      var m := MapAfter(ops[..n], rs[..n]);
      if rs[n].Err? then m else if ops[n].1 == Nil then m - {ops[n].0} else m[ops[n].0 := ops[n].1]
  }

  ghost predicate Refines(t: TableValue, m: map<TValue, TValue>) {
    forall k :: Lookup(t, k) == if k in m then m[k] else Nil
  }

  /** With the new key the map would have more keys than a table has nodes. */
  ghost predicate TooLarge(ops: seq<(TValue, TValue)>, rs: seq<Result<(), Error>>, i: nat)
    requires i < |ops| && i <= |rs|
  {
    |MapAfter(ops[..i], rs[..i]).Keys + {ops[i].0}| > MAXASIZE
  }

  /** Any run of assignments refines a finite map, whatever rehashing happens on the way. */
  method RunAssignments(t: Table, ops: seq<(TValue, TValue)>) returns (rs: seq<Result<(), Error>>)
    requires t.Valid() && forall k :: Lookup(t.View(), k) == Nil
    modifies t, t.arr, t.node
    ensures |rs| == |ops| && t.Valid() && Refines(t.View(), MapAfter(ops, rs))
    ensures forall i :: 0 <= i < |ops| ==>
      (rs[i] == Err(IndexIsNil) <==> ops[i].0 == Nil) && (rs[i] == Err(IndexIsNaN) <==> ops[i].0 == NaN)
    ensures forall i :: 0 <= i < |ops| && rs[i] == Err(TableOverflow) ==> TooLarge(ops, rs, i)
  {
    hide *;
    rs := [];
    t.ValidIs();
    NothingStored(t.View());
    for i := 0 to |ops|
      invariant t.Valid() && (t.arr == old(t.arr) || fresh(t.arr)) && (t.node == old(t.node) || fresh(t.node))
      invariant |rs| == i && t.sizearray <= t.arr.Length && Refines(t.View(), MapAfter(ops[..i], rs))
      invariant forall j :: 0 <= j < i ==>
        (rs[j] == Err(IndexIsNil) <==> ops[j].0 == Nil) && (rs[j] == Err(IndexIsNaN) <==> ops[j].0 == NaN)
      invariant forall j :: 0 <= j < i && rs[j] == Err(TableOverflow) ==> TooLarge(ops, rs, j)
    {
      t.ValidIs();
      ghost var t0 := t.View();
      var r := t.RawSet(ops[i].0, ops[i].1);
      t.ValidIs();
      Assigned(t0, t.View(), ops, rs, i, r);
      ManyKeys(t.hash, t0, ops, rs, i, r);
      rs := rs + [r];
    }
    assert ops[..|ops|] == ops;
  }

  lemma NothingStored(t: TableValue)
    requires forall k :: Lookup(t, k) == Nil
    ensures Refines(t, MapAfter([], []))
  {
  }

  lemma ManyKeys(f: Hash, t: TableValue, ops: seq<(TValue, TValue)>, rs: seq<Result<(), Error>>, i: nat, r: Result<(), Error>)
    requires i < |ops| && |rs| == i && Refines(t, MapAfter(ops[..i], rs)) && TableInv(f, t)
    ensures r == Err(TableOverflow) && Overflows(f, t, ops[i].0) ==> TooLarge(ops, rs + [r], i)
    ensures forall j :: 0 <= j < i && TooLarge(ops, rs, j) ==> TooLarge(ops, rs + [r], j)
  {
    var m := MapAfter(ops[..i], rs);
    PresentKeys(f, t, m);
    hide MapAfter;
    hide Refines;
    hide Present;
    hide TableInv;
    hide NewKeyOk;
    hide Full;
    assert (rs + [r])[..i] == rs && rs[..i] == rs;
    forall j | 0 <= j < i && TooLarge(ops, rs, j)
      ensures TooLarge(ops, rs + [r], j)
    {
      assert (rs + [r])[..j] == rs[..j];
    }
  }

  lemma PresentKeys(f: Hash, t: TableValue, m: map<TValue, TValue>)
    requires Refines(t, m) && TableInv(f, t) && forall k :: k in m ==> m[k] != Nil
    ensures |t.arr| <= MAXASIZE && Present(t) == m.Keys
  {
    PresentIs(f, t);
    hide ChainInv;
    hide Lookup;
    hide Present;
  }

  lemma Assigned(t: TableValue, t1: TableValue, ops: seq<(TValue, TValue)>, rs: seq<Result<(), Error>>, i: nat, r: Result<(), Error>)
    requires i < |ops| && |rs| == i && Refines(t, MapAfter(ops[..i], rs))
    requires if r.Ok? then Updated(t, ops[i].0, ops[i].1, t1) else SameValues(t, t1)
    ensures Refines(t1, MapAfter(ops[..i + 1], rs + [r]))
  {
    hide Lookup;
    assert ops[..i + 1][..i] == ops[..i];
    assert (rs + [r])[..i] == rs;
  }

  // ---- traversal ----

  /** A traversal that has got as far as `ks`. */
  ghost predicate Under(f: Hash, ts: seq<TableValue>, ks: seq<TValue>) {
    && |ts| == |ks| + 1
    && (forall i :: 0 <= i < |ts| ==> TableInv(f, ts[i]) && SameShape(ts[0], ts[i]))
    && (forall i :: 0 <= i < |ks| ==> StepsTo(ts[i], Prev(ks, i), ks[i]))
  }

  lemma UnderStart(f: Hash, t: TableValue)
    requires TableInv(f, t)
    ensures Under(f, [t], []) && Prev([], 0) == Nil
  {
  }

  lemma UnderStep(f: Hash, ts: seq<TableValue>, ks: seq<TValue>, k: TValue, t: TableValue)
    requires Under(f, ts, ks) && StepsTo(ts[|ks|], Prev(ks, |ks|), k) && TableInv(f, t) && SameShape(ts[|ks|], t)
    ensures Under(f, ts + [t], ks + [k]) && Prev(ks + [k], |ks| + 1) == k
    ensures Position(ts[|ks|], Prev(ks, |ks|)) < Position(t, k) < Size(t) && Size(t) == Size(ts[|ks|])
  {
    hide StepsTo;
    hide TableInv;
    StepForward(f, ts[|ks|], Prev(ks, |ks|), k, Nil);
    SameShapePosition(f, ts[|ks|], t, k);
    PositionBelow(t, k);
    UnderMore(f, ts, ks, k, t);
    hide Position;
    hide Under;
  }

  lemma UnderMore(f: Hash, ts: seq<TableValue>, ks: seq<TValue>, k: TValue, t: TableValue)
    requires Under(f, ts, ks) && StepsTo(ts[|ks|], Prev(ks, |ks|), k) && TableInv(f, t) && SameShape(ts[|ks|], t)
    ensures Under(f, ts + [t], ks + [k]) && Prev(ks + [k], |ks| + 1) == k
  {
    hide StepsTo;
    hide TableInv;
    ShapeTrans(ts[0], ts[|ks|], t);
    hide SameShape;
    var ks1, ts1 := ks + [k], ts + [t];
    forall i | 0 <= i < |ks1|
      ensures StepsTo(ts1[i], Prev(ks1, i), ks1[i])
    {
      if i < |ks| {
        assert Prev(ks1, i) == Prev(ks, i);
      }
    }
  }

  lemma PositionBelow(t: TableValue, k: TValue)
    ensures Position(t, k) < Size(t) || (Size(t) == 0 && Position(t, k) == -1)
  {
  }

  lemma UnderEnd(f: Hash, ts: seq<TableValue>, ks: seq<TValue>)
    requires Under(f, ts, ks) && DeadBetween(ts[|ks|], Position(ts[|ks|], Prev(ks, |ks|)), Size(ts[|ks|]))
    ensures Traversal(f, ts, ks)
  {
  }

  /** Assignments to fields that exist; others are skipped. */
  method Overwrite(t: Table, ops: seq<(TValue, TValue)>)
    requires t.Valid()
    modifies t, t.arr, t.node
    ensures t.Valid() && SameShape(old(t.View()), t.View())
    ensures (t.arr == old(t.arr) || fresh(t.arr)) && (t.node == old(t.node) || fresh(t.node))
  {
    hide *;
    t.ValidIs();
    ghost var t0 := t.View();
    ShapeRefl(t0);
    for i := 0 to |ops|
      invariant t.Valid() && t.sizearray <= t.arr.Length && SameShape(t0, t.View())
      invariant (t.arr == old(t.arr) || fresh(t.arr)) && (t.node == old(t.node) || fresh(t.node))
    {
      ghost var t1 := t.View();
      var p := t.Get(ops[i].0);
      if p != NilObject {
        SlotOfIn(t1, ops[i].0);
        StoredShape(t1, p, ops[i].1);
        var r := t.RawSet(ops[i].0, ops[i].1);
        t.ValidIs();
        ShapeTrans(t0, t1, t.View());
      }
    }
  }

  lemma ShapeRefl(t: TableValue)
    ensures SameShape(t, t)
  {
  }

  lemma ShapeTrans(t: TableValue, t1: TableValue, t2: TableValue)
    requires SameShape(t, t1) && SameShape(t1, t2)
    ensures SameShape(t, t2)
  {
  }

  /** luaH_next fed with its own results, while existing fields are written between the calls: `writes[i]` are
      the assignments after the key number `i`. It visits each key that stays non-nil once. */
  method Traverse(t: Table, writes: seq<seq<(TValue, TValue)>>) returns (ks: seq<TValue>, ghost ts: seq<TableValue>)
    requires t.Valid()
    modifies t, t.arr, t.node
    ensures t.Valid() && Traversal(t.hash, ts, ks) && ts[0] == old(t.View())
    ensures forall i, j :: 0 <= i < j < |ks| ==> ks[i] != ks[j]
    ensures forall k :: StaysLive(ts, k) ==> k in ks
  {
    hide *;
    t.ValidIs();
    ks, ts := [], [t.View()];
    UnderStart(t.hash, t.View());
    var r := t.Next(Nil);
    while r.Ok? && r.v.Field?
      invariant t.Valid() && t.sizearray <= t.arr.Length && Under(t.hash, ts, ks) && |ts| == |ks| + 1 && ts[|ks|] == t.View()
      invariant (t.arr == old(t.arr) || fresh(t.arr)) && (t.node == old(t.node) || fresh(t.node)) && ts[0] == old(t.View())
      invariant r.Ok? && (r.v.Field? ==> StepsTo(t.View(), Prev(ks, |ks|), r.v.key))
      invariant r.v.NoMore? ==> DeadBetween(t.View(), Position(t.View(), Prev(ks, |ks|)), Size(t.View()))
      decreases Size(t.View()) - Position(t.View(), Prev(ks, |ks|)) + 1
    {
      t.ValidIs();
      ghost var t0 := t.View();
      var key := r.v.key;
      Overwrite(t, if |ks| < |writes| then writes[|ks|] else []);
      t.ValidIs();
      KeyKnown(t.hash, t0, t.View(), Prev(ks, |ks|), key);
      UnderStep(t.hash, ts, ks, key, t.View());
      ks, ts := ks + [key], ts + [t.View()];
      r := t.Next(key);
    }
    UnderEnd(t.hash, ts, ks);
    TraversalVisits(t.hash, ts, ks);
  }

  /** A key that was visited is still known to the table. */
  lemma KeyKnown(f: Hash, t: TableValue, t1: TableValue, k: TValue, k1: TValue)
    requires TableInv(f, t) && TableInv(f, t1) && StepsTo(t, k, k1) && SameShape(t, t1)
    ensures SlotOf(t1, k1) != NilObject
  {
    var q :| NextLive(t, Position(t, k), q) && k1 == KeyAt(t, q);
    hide TableInv;
    KeyPosition(f, t, q);
    SameShapePosition(f, t, t1, k1);
  }

  // ---- references ----

  const LUA_REFNIL := -1

  /** The value of the list's head, or of the link in a free slot. */
  function Link(free: seq<Int32>, i: nat): TValue {
    if i < |free| then Int(free[i]) else Nil
  }

  /** t[0] starts a chain through the free references; the outstanding ones are not on it. */
  ghost predicate RefInv(t: TableValue, outstanding: map<Int32, TValue>, free: seq<Int32>) {
    && Lookup(t, Int(0)) == Link(free, 0)
    && (forall i :: 0 <= i < |free| ==> Lookup(t, Int(free[i])) == Link(free, i + 1))
    && (forall i, j :: 0 <= i < j < |free| ==> free[i] != free[j])
    && (forall i :: 0 <= i < |free| ==> free[i] > 0 && free[i] !in outstanding)
    && (forall r :: r in outstanding ==> r > 0 && outstanding[r] != Nil && Lookup(t, Int(r)) == outstanding[r])
  }

  lemma TakeFirst(t: TableValue, t1: TableValue, out: map<Int32, TValue>, free: seq<Int32>)
    requires RefInv(t, out, free) && free != [] && Updated(t, Int(0), Lookup(t, Int(free[0])), t1)
    ensures RefInv(t1, out, free[1..])
  {
    hide Lookup;
    var rest := free[1..];
    assert forall i :: 0 <= i < |rest| ==> rest[i] == free[i + 1];
  }

  lemma Occupy(t: TableValue, t1: TableValue, out: map<Int32, TValue>, free: seq<Int32>, r: Int32, v: TValue)
    requires RefInv(t, out, free) && r > 0 && v != Nil && r !in out && r !in free && Updated(t, Int(r), v, t1)
    ensures RefInv(t1, out[r := v], free)
  {
    hide Lookup;
  }

  lemma Release(t: TableValue, t1: TableValue, out: map<Int32, TValue>, free: seq<Int32>, r: Int32)
    requires RefInv(t, out, free) && r in out && Updated(t, Int(r), Lookup(t, Int(0)), t1)
    ensures RefInv(t1, out - {r}, free) && Lookup(t1, Int(r)) == Link(free, 0) && r > 0 && r !in free
  {
    hide Lookup;
  }

  lemma PutFirst(t: TableValue, t1: TableValue, out: map<Int32, TValue>, free: seq<Int32>, r: Int32)
    requires RefInv(t, out, free) && r !in out && r !in free && r > 0 && Lookup(t, Int(r)) == Link(free, 0)
    requires Updated(t, Int(0), Int(r), t1)
    ensures RefInv(t1, out, [r] + free)
  {
    hide Lookup;
    var now := [r] + free;
    assert Link(now, 0) == Int(r) && Link(now, 1) == Link(free, 0);
    forall i | 0 <= i < |now|
      ensures Lookup(t1, Int(now[i])) == Link(now, i + 1) && now[i] > 0 && now[i] !in out - {r}
    {
      assert i > 0 ==> now[i] == free[i - 1] && Link(now, i + 1) == Link(free, i);
    }
    assert forall i :: 0 < i < |now| ==> now[i] == free[i - 1];
  }

  lemma SameRefs(t: TableValue, t1: TableValue, out: map<Int32, TValue>, free: seq<Int32>)
    requires RefInv(t, out, free) && SameValues(t, t1)
    ensures RefInv(t1, out, free)
  {
    hide Lookup;
  }

  lemma BorderIsFree(t: TableValue, out: map<Int32, TValue>, n: nat)
    requires RefInv(t, out, []) && Border(t, n)
    ensures n < MAX_INT && n + 1 !in out
  {
  }

  lemma HeadIs(t: TableValue, out: map<Int32, TValue>, free: seq<Int32>)
    requires RefInv(t, out, free)
    ensures Lookup(t, Int(0)) == if free == [] then Nil else Int(free[0])
    ensures free != [] ==> free[0] > 0 && free[0] !in free[1..] && free[0] !in out
  {
  }

  /** The keys that have a value. */
  ghost function Occupied(t: TableValue): set<TValue> {
    if |t.arr| <= MAXASIZE then Present(t) else {}
  }

  /** Writing to a field that has a value adds no key. */
  lemma FewerStored(f: Hash, t: TableValue, t1: TableValue, k: TValue)
    requires TableInv(f, t) && TableInv(f, t1) && Lookup(t, k) != Nil && exists v :: Updated(t, k, v, t1)
    ensures Occupied(t1) <= Occupied(t)
  {
    PresentIs(f, t);
    PresentIs(f, t1);
    hide TableInv;
    hide Lookup;
  }

  lemma ManyStored(f: Hash, t: TableValue, t1: TableValue, ref: Int32)
    requires Occupied(t1) <= Occupied(t) && Overflows(f, t1, Int(ref))
    ensures |Occupied(t)| >= MAXASIZE
  {
    hide Present;
    assert |Present(t1) + {Int(ref)}| > MAXASIZE;
    SmallerSet(Present(t1), Occupied(t), Int(ref));
  }

  lemma SmallerSet(a: set<TValue>, b: set<TValue>, k: TValue)
    requires a <= b
    ensures |a + {k}| <= |b| + 1
  {
    if k in a {
      assert a + {k} == a;
    }
    assert b == a + (b - a);
    assert |b| == |a| + |b - a|;
  }

  /** A table that is used for references only. */
  class References {
    const t: Table
    ghost var outstanding: map<Int32, TValue>
    ghost var free: seq<Int32>

    ghost predicate Valid()
      reads this, t, t.arr, t.node
    {
      t.Valid() && RefInv(t.View(), outstanding, free)
    }

    lemma ValidIs()
      requires Valid()
      ensures t.Valid() && t.sizearray <= t.arr.Length && RefInv(t.View(), outstanding, free)
    {
    }

    lemma ValidNow()
      requires t.Valid() && t.sizearray <= t.arr.Length && RefInv(t.View(), outstanding, free)
      ensures Valid()
    {
    }

    constructor (table: Table)
      requires table.Valid() && forall k :: Lookup(table.View(), k) == Nil
      ensures Valid() && t == table && outstanding == map[]
    {
      t := table;
      outstanding, free := map[], [];
    }

    /** The first part of luaL_ref: the head of the free list is taken off it, or a border is the last index in use. */
    method Pick() returns (ref: Int32)
      requires Valid()
      modifies this`free, t, t.arr, t.node
      ensures Valid() && ref > 0 && ref !in outstanding && ref !in free && Occupied(t.View()) <= old(Occupied(t.View()))
      ensures if old(free) != [] then ref == old(free)[0] && free == old(free)[1..] else free == []
      ensures (t.arr == old(t.arr) || fresh(t.arr)) && (t.node == old(t.node) || fresh(t.node))
    {
      hide *;
      ValidIs();
      t.ValidIs();
      HeadIs(t.View(), outstanding, free);
      var head := t.RawGet(Int(0));
      if head.Int? && head.n != 0 {
        ref := head.n;
        var next := t.RawGet(Int(ref));
        ghost var t0 := t.View();
        var done := t.RawSet(Int(0), next);
        t.ValidIs();
        TakeFirst(t0, t.View(), outstanding, free);
        FewerStored(t.hash, t0, t.View(), Int(0));
        free := free[1..];
      } else {
        var n := t.GetN();
        BorderIsFree(t.View(), outstanding, n);
        ref := n + 1;
      }
      ValidNow();
    }

    /** luaL_ref: a reference that is not outstanding, for any value but nil. */
    method Ref(v: TValue) returns (r: Result<int, Error>)
      requires Valid()
      modifies this, t, t.arr, t.node
      ensures Valid()
      ensures v == Nil ==> r == Ok(LUA_REFNIL)
      ensures r.Ok? && v != Nil ==> 0 < r.v <= MAX_INT && r.v !in old(outstanding) && outstanding == old(outstanding)[r.v := v]
      ensures r.Err? || v == Nil ==> outstanding == old(outstanding)
      ensures r.Ok? && v != Nil && old(free) != [] ==> r.v == old(free)[0] && free == old(free)[1..]
      ensures r.Ok? && (v == Nil || old(free) == []) ==> free == old(free)
      ensures (t.arr == old(t.arr) || fresh(t.arr)) && (t.node == old(t.node) || fresh(t.node))
      ensures r.Err? ==> r.e == TableOverflow && |old(Occupied(t.View()))| >= MAXASIZE
    {
      hide *;
      if v == Nil {
        return Ok(LUA_REFNIL);
      }
      ValidIs();
      ghost var t0 := t.View();
      var ref := Pick();
      ValidIs();
      t.ValidIs();
      ghost var t1 := t.View();
      var stored := t.RawSet(Int(ref), v);
      t.ValidIs();
      if stored.Err? {
        ManyStored(t.hash, t0, t1, ref);
        SameRefs(t1, t.View(), outstanding, free);
        ValidNow();
        return Err(stored.e);
      }
      Occupy(t1, t.View(), outstanding, free, ref, v);
      outstanding := outstanding[ref := v];
      ValidNow();
      r := Ok(ref);
    }

    /** luaL_unref of an outstanding reference, or of LUA_REFNIL. */
    method Unref(ref: Int32) returns (r: Result<(), Error>)
      requires Valid() && (ref < 0 || ref in outstanding)
      modifies this, t, t.arr, t.node
      ensures Valid() && outstanding == old(outstanding) - {ref}
      ensures r.Ok? ==> free == if ref < 0 then old(free) else [ref] + old(free)
      ensures (t.arr == old(t.arr) || fresh(t.arr)) && (t.node == old(t.node) || fresh(t.node))
      ensures r.Err? ==> r.e == TableOverflow && |old(Occupied(t.View()))| >= MAXASIZE
    {
      hide *;
      if ref < 0 {
        Negative(t.View(), outstanding, free, ref) by { ValidIs(); }
        return Ok(());
      }
      ValidIs();
      t.ValidIs();
      var head := t.RawGet(Int(0));
      ghost var t0 := t.View();
      var done := t.RawSet(Int(ref), head);
      t.ValidIs();
      ghost var t1 := t.View();
      FewerStored(t.hash, t0, t1, Int(ref));
      Release(t0, t1, outstanding, free, ref);
      outstanding := outstanding - {ref};
      r := t.RawSet(Int(0), Int(ref));
      t.ValidIs();
      if r.Ok? {
        PutFirst(t1, t.View(), outstanding, free, ref);
        free := [ref] + free;
      } else {
        ManyStored(t.hash, t0, t1, 0);
        SameRefs(t1, t.View(), outstanding, free);
      }
      ValidNow();
    }

    /** A reference that was given up is the next one to be handed out. */
    method UseAgain(ref: Int32, v: TValue) returns (r: Result<int, Error>)
      requires Valid() && ref in outstanding && v != Nil
      modifies this, t, t.arr, t.node
      ensures Valid() && (r.Ok? ==> r.v == ref && outstanding == old(outstanding)[ref := v] && free == old(free))
      ensures r.Err? ==> outstanding == old(outstanding) - {ref}
    {
      hide *;
      FreedMap(outstanding, ref, v);
      OutstandingPositive(ref);
      var done := Unref(ref);
      if done.Err? {
        return Err(done.e);
      }
      r := Ref(v);
    }

    lemma OutstandingPositive(ref: Int32)
      requires Valid() && ref in outstanding
      ensures ref > 0
    {
    }

    /** lua_rawgeti with an outstanding reference. */
    method Get(ref: Int32) returns (v: TValue)
      requires Valid() && ref in outstanding
      ensures v == outstanding[ref]
    {
      hide *;
      ValidIs();
      v := t.RawGet(Int(ref));
    }
  }

  lemma Negative(t: TableValue, out: map<Int32, TValue>, free: seq<Int32>, r: Int32)
    requires RefInv(t, out, free) && r < 0
    ensures out - {r} == out
  {
  }

  lemma FreedMap(m: map<Int32, TValue>, ref: Int32, v: TValue)
    ensures (m - {ref})[ref := v] == m[ref := v]
  {
  }
}
