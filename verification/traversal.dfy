/** Traversal in the order of luaH_next, and the borders that luaH_getn finds. */
module Traversals {
  import opened Limits
  import opened Nodes
  import opened Counting
  import opened TableValues

  ghost function Size(t: TableValue): nat {
    |t.arr| + |t.ns|
  }

  /** The position of a key: the array part comes before the nodes. */
  ghost function Position(t: TableValue, k: TValue): int {
    match SlotOf(t, k)
    case NilObject => -1
    case ArraySlot(i) => i
    case NodeSlot(i) => |t.arr| + i
  }

  ghost function ValueAt(t: TableValue, p: nat): TValue
    requires p < Size(t)
  {
    if p < |t.arr| then t.arr[p] else t.ns[p - |t.arr|].val
  }

  ghost function KeyAt(t: TableValue, p: nat): TValue
    requires p < Size(t) && |t.arr| <= MAXASIZE
  {
    if p < |t.arr| then Int(p + 1) else t.ns[p - |t.arr|].key
  }

  ghost predicate DeadBetween(t: TableValue, p: int, q: int) {
    forall j :: 0 <= j < Size(t) && p < j < q ==> ValueAt(t, j) == Nil
  }

  /** The position `q` is the first live one after `p`. */
  ghost predicate NextLive(t: TableValue, p: int, q: int) {
    p < q && 0 <= q < Size(t) && ValueAt(t, q) != Nil && DeadBetween(t, p, q)
  }

  lemma PositionKey(f: Hash, t: TableValue, k: TValue)
    requires TableInv(f, t) && SlotOf(t, k) != NilObject
    ensures 0 <= Position(t, k) < Size(t) && KeyAt(t, Position(t, k)) == k && ValueAt(t, Position(t, k)) == Lookup(t, k)
  {
    hide ChainInv;
  }

  lemma KeyPosition(f: Hash, t: TableValue, p: nat)
    requires TableInv(f, t) && p < Size(t) && ValueAt(t, p) != Nil
    ensures SlotOf(t, KeyAt(t, p)) != NilObject && Position(t, KeyAt(t, p)) == p
  {
    hide Chained;
    hide HomesHeld;
    hide Acyclic;
    if p >= |t.arr| {
      NodeValueIs(t.ns, p - |t.arr|);
    }
  }

  /** Only values differ: no key has been added and nothing has been rehashed. */
  ghost predicate SameShape(t: TableValue, t1: TableValue) {
    && |t1.arr| == |t.arr| && |t1.ns| == |t.ns|
    && forall i :: 0 <= i < |t.ns| ==> t1.ns[i].key == t.ns[i].key
  }

  lemma SameShapePosition(f: Hash, t: TableValue, t1: TableValue, k: TValue)
    requires TableInv(f, t) && TableInv(f, t1) && SameShape(t, t1)
    ensures SlotOf(t1, k) == SlotOf(t, k) && Position(t1, k) == Position(t, k)
  {
    hide Chained;
    hide HomesHeld;
    hide Acyclic;
    if HasKey(t.ns, k) {
      NodeValueIs(t.ns, IndexOf(t.ns, k));
      assert t1.ns[IndexOf(t.ns, k)].key == k;
      NodeValueIs(t1.ns, IndexOf(t.ns, k));
    }
    if HasKey(t1.ns, k) {
      assert t.ns[IndexOf(t1.ns, k)].key == k;
    }
  }

  /** An assignment to a field that exists does not change the shape. */
  lemma StoredShape(t: TableValue, p: Slot, v: TValue)
    requires SlotIn(t, p)
    ensures SameShape(t, Stored(t, p, v))
  {
  }

  ghost function Prev(ks: seq<TValue>, i: nat): TValue
    requires i <= |ks|
  {
    if i == 0 then Nil else ks[i - 1]
  }

  /** `ks` are the results of luaH_next, called with nil and then with its own results; `ts` are the states of
      the table at the calls, the last of which found no further key. */
  ghost predicate Traversal(f: Hash, ts: seq<TableValue>, ks: seq<TValue>) {
    && |ts| == |ks| + 1
    && (forall i :: 0 <= i < |ts| ==> TableInv(f, ts[i]) && SameShape(ts[0], ts[i]))
    && (forall i :: 0 <= i < |ks| ==> StepsTo(ts[i], Prev(ks, i), ks[i]))
    && DeadBetween(ts[|ks|], Position(ts[|ks|], Prev(ks, |ks|)), Size(ts[|ks|]))
  }

  ghost predicate StepsTo(t: TableValue, k: TValue, k1: TValue) {
    |t.arr| <= MAXASIZE && exists q :: NextLive(t, Position(t, k), q) && k1 == KeyAt(t, q)
  }

  /** Each step goes to a later position, and past no live key. */
  lemma StepForward(f: Hash, t: TableValue, k: TValue, k1: TValue, other: TValue)
    requires TableInv(f, t) && StepsTo(t, k, k1)
    ensures Position(t, k1) > Position(t, k)
    ensures Lookup(t, other) != Nil && Position(t, other) > Position(t, k) && other != k1 ==> Position(t, other) > Position(t, k1)
  {
    hide TableInv;
    var q :| NextLive(t, Position(t, k), q) && k1 == KeyAt(t, q);
    KeyPosition(f, t, q);
    if Lookup(t, other) != Nil {
      SlotOfIn(t, other);
      PositionKey(f, t, other);
    }
  }

  lemma TraversalStep(f: Hash, ts: seq<TableValue>, ks: seq<TValue>, i: nat, other: TValue)
    requires Traversal(f, ts, ks) && i < |ks|
    ensures Position(ts[0], ks[i]) > Position(ts[0], Prev(ks, i))
    ensures Lookup(ts[i], other) != Nil && Position(ts[0], other) > Position(ts[0], Prev(ks, i)) && other != ks[i] ==>
      Position(ts[0], other) > Position(ts[0], ks[i])
  {
    hide TableInv;
    hide StepsTo;
    hide SameShape;
    hide Position;
    hide Lookup;
    StepForward(f, ts[i], Prev(ks, i), ks[i], other);
    SameShapePosition(f, ts[0], ts[i], ks[i]);
    SameShapePosition(f, ts[0], ts[i], Prev(ks, i));
    SameShapePosition(f, ts[0], ts[i], other);
  }

  lemma TraversalEnd(f: Hash, ts: seq<TableValue>, ks: seq<TValue>, other: TValue)
    requires Traversal(f, ts, ks) && Lookup(ts[|ks|], other) != Nil
    ensures Position(ts[0], other) <= Position(ts[0], Prev(ks, |ks|))
  {
    hide TableInv;
    hide StepsTo;
    hide SameShape;
    var t := ts[|ks|];
    SameShapePosition(f, ts[0], t, other);
    SameShapePosition(f, ts[0], t, Prev(ks, |ks|));
    SlotOfIn(t, other);
    PositionKey(f, t, other);
  }

  lemma {:induction false} Ascending(f: Hash, ts: seq<TableValue>, ks: seq<TValue>, i: nat, j: nat)
    requires Traversal(f, ts, ks) && i < j < |ks|
    ensures Position(ts[0], ks[i]) < Position(ts[0], ks[j])
    decreases j
  {
    hide Traversal;
    hide Position;
    if i < j - 1 {
      Ascending(f, ts, ks, i, j - 1);
    }
    TraversalStep(f, ts, ks, j, Nil);
  }

  ghost predicate StaysLive(ts: seq<TableValue>, k: TValue) {
    forall j :: 0 <= j < |ts| ==> Lookup(ts[j], k) != Nil
  }

  /** A live key that has not been visited is still ahead. */
  lemma {:induction false} StillAhead(f: Hash, ts: seq<TableValue>, ks: seq<TValue>, k: TValue, i: nat)
    requires Traversal(f, ts, ks) && i <= |ks| && k !in ks && StaysLive(ts, k)
    ensures Position(ts[0], k) > Position(ts[0], Prev(ks, i))
  {
    hide *;
    TraversalLength(f, ts, ks);
    PrevIs(ks, i);
    if i == 0 {
      LiveAt(ts, k, 0);
      AheadOfStart(f, ts[0], k);
    } else {
      StillAhead(f, ts, ks, k, i - 1);
      LiveAt(ts, k, i - 1);
      TraversalStep(f, ts, ks, i - 1, k);
    }
  }

  lemma PrevIs(ks: seq<TValue>, i: nat)
    requires i <= |ks|
    ensures Prev(ks, i) == if i == 0 then Nil else ks[i - 1]
  {
  }

  lemma LiveAt(ts: seq<TableValue>, k: TValue, i: nat)
    requires StaysLive(ts, k) && i < |ts|
    ensures Lookup(ts[i], k) != Nil
  {
  }

  /** A traversal visits each key that stays non-nil, and none twice, even if fields are overwritten or
      cleared between the calls. */
  lemma TraversalVisits(f: Hash, ts: seq<TableValue>, ks: seq<TValue>)
    requires Traversal(f, ts, ks)
    ensures forall i, j :: 0 <= i < j < |ks| ==> ks[i] != ks[j]
    ensures forall k :: StaysLive(ts, k) ==> k in ks
  {
    TraversalLength(f, ts, ks);
    hide Traversal;
    hide Position;
    hide Lookup;
    forall i, j | 0 <= i < j < |ks|
      ensures ks[i] != ks[j]
    {
      Ascending(f, ts, ks, i, j);
    }
    forall k | StaysLive(ts, k)
      ensures k in ks
    {
      if k !in ks {
        StillAhead(f, ts, ks, k, |ks|);
        TraversalEnd(f, ts, ks, k);
      }
    }
  }

  lemma TraversalLength(f: Hash, ts: seq<TableValue>, ks: seq<TValue>)
    requires Traversal(f, ts, ks)
    ensures |ts| == |ks| + 1 && TableInv(f, ts[0])
  {
  }

  lemma AheadOfStart(f: Hash, t: TableValue, k: TValue)
    requires TableInv(f, t) && Lookup(t, k) != Nil
    ensures Position(t, k) > Position(t, Nil)
  {
    hide TableInv;
    SlotOfIn(t, k);
    PositionKey(f, t, k);
  }

  // ---- borders ----

  /** 0 or a present index, whose successor is absent. */
  ghost predicate Border(t: TableValue, j: int) {
    0 <= j < MAX_INT && (j == 0 || Lookup(t, Int(j)) != Nil) && Lookup(t, Int(j + 1)) == Nil
  }

  ghost function UpTo(n: nat): (s: set<TValue>)
    requires n <= MAX_INT
    ensures |s| == n && forall k :: k in s <==> k.Int? && 1 <= k.n <= n
  {
    if n == 0 then {} else UpTo(n - 1) + {Int(n)}
  }

  lemma PresentSize(f: Hash, t: TableValue)
    requires TableInv(f, t)
    ensures |Present(t)| <= |t.arr| + |t.ns|
  {
    var a := ArrayKeys(t.arr, |t.arr|);
    assert a <= Firsts(|t.arr|);
    Smaller(a, UpTo(|t.arr|));
    forall k | k in NodeKeys(t.ns, 0)
      ensures k in KeysWithout(t.ns, |t.ns|, |t.ns|)
    {
      var i :| 0 <= i < |t.ns| && t.ns[i].val != Nil && t.ns[i].key == k;
      InKeysWithout(t.ns, |t.ns|, |t.ns|, i);
    }
    Smaller(NodeKeys(t.ns, 0), KeysWithout(t.ns, |t.ns|, |t.ns|));
    KeysWithoutCount(t.ns, |t.ns|, |t.ns|);
  }

  /** There are not enough keys for the linear search to leave the range of int. */
  lemma FewPresent(f: Hash, t: TableValue, n: nat)
    requires TableInv(f, t) && n <= MAX_INT && forall j :: 1 <= j <= n ==> Lookup(t, Int(j)) != Nil
    ensures n <= 2 * MAXASIZE
  {
    PresentIs(f, t);
    PresentSize(f, t);
    assert UpTo(n) <= Present(t);
    Smaller(UpTo(n), Present(t));
  }
}
