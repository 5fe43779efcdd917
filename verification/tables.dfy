/** A table as a value: the array part, the node part, and what they mean together. */
module TableValues {
  import opened Powers
  import opened Nodes
  import opened Counting

  /** `lastfree` is the position before which all free nodes are; `dummy` tells the shared empty node vector. */
  datatype TableValue = TableValue(arr: seq<TValue>, ns: seq<Node>, lastfree: int, dummy: bool)

  /** A pointer to a value: into the array part, into a node, or to the shared nil. */
  datatype Slot = NilObject | ArraySlot(i: nat) | NodeSlot(i: nat)

  predicate InArray(k: TValue, size: nat) {
    k.Int? && 1 <= k.n <= size
  }

  ghost predicate TableInv(f: Hash, t: TableValue) {
    && ChainInv(f, t.ns)
    && |t.arr| <= MAXASIZE && |t.ns| <= MAXASIZE
    && NoArrayKeys(t.ns, |t.arr|)
    && FreeBelow(t)
  }

  /** No integer key in the range of the array part lives in a node. */
  ghost predicate NoArrayKeys(ns: seq<Node>, size: nat) {
    forall i :: 0 <= i < |ns| ==> !InArray(ns[i].key, size)
  }

  ghost predicate FreeBelow(t: TableValue) {
    && t.lastfree <= |t.ns|
    && (t.dummy ==> t.ns == [FREE_NODE] && t.lastfree <= 0)
    && (!t.dummy ==> forall i :: 0 <= i < |t.ns| && t.lastfree <= i ==> t.ns[i].key != Nil)
  }

  /** Where the value of a key is. */
  ghost function SlotOf(t: TableValue, k: TValue): Slot {
    if InArray(k, |t.arr|) then ArraySlot(k.n - 1)
    else if HasKey(t.ns, k) then NodeSlot(IndexOf(t.ns, k))
    else NilObject
  }

  ghost function Lookup(t: TableValue, k: TValue): TValue {
    if InArray(k, |t.arr|) then t.arr[k.n - 1] else NodeValue(t.ns, k)
  }

  predicate SlotIn(t: TableValue, p: Slot) {
    match p
    case NilObject => false
    case ArraySlot(i) => i < |t.arr|
    case NodeSlot(i) => i < |t.ns| && t.ns[i].key != Nil
  }

  function Stored(t: TableValue, p: Slot, v: TValue): TableValue
    requires SlotIn(t, p)
  {
    match p
    case ArraySlot(i) => t.(arr := t.arr[i := v])
    case NodeSlot(i) => t.(ns := t.ns[i := t.ns[i].(val := v)])
  }

  ghost predicate SameValues(t: TableValue, t1: TableValue) {
    forall k :: Lookup(t1, k) == Lookup(t, k)
  }

  /** `t1` is `t` with the value of `k` replaced by `v`. */
  ghost predicate Updated(t: TableValue, k: TValue, v: TValue, t1: TableValue) {
    forall q :: Lookup(t1, q) == if q == k then v else Lookup(t, q)
  }

  lemma SlotOfIn(t: TableValue, k: TValue)
    ensures SlotOf(t, k) != NilObject ==> SlotIn(t, SlotOf(t, k))
    ensures SlotOf(t, k) == NilObject ==> Lookup(t, k) == Nil && !HasKey(t.ns, k) && !InArray(k, |t.arr|)
  {
  }

  /** A write through the pointer changes the value of that key only, and keeps the invariant. */
  lemma StoredUpdates(f: Hash, t: TableValue, k: TValue, v: TValue)
    requires TableInv(f, t) && SlotOf(t, k) != NilObject
    ensures SlotIn(t, SlotOf(t, k)) && TableInv(f, Stored(t, SlotOf(t, k), v))
    ensures Updated(t, k, v, Stored(t, SlotOf(t, k), v))
  {
    SlotOfIn(t, k);
    var t1 := Stored(t, SlotOf(t, k), v);
    if !InArray(k, |t.arr|) {
      var i := IndexOf(t.ns, k);
      ValueWritten(f, t.ns, i, v);
      forall q
        ensures Lookup(t1, q) == if q == k then v else Lookup(t, q)
      {
        NodeWritten(t.ns, i, v, q);
      }
    }
  }

  lemma ValueWritten(f: Hash, ns: seq<Node>, i: nat, v: TValue)
    requires ChainInv(f, ns) && i < |ns| && ns[i].key != Nil
    ensures ChainInv(f, ns[i := ns[i].(val := v)])
  {
    var ns1 := ns[i := ns[i].(val := v)];
    assert forall j :: 0 <= j < |ns| ==> ns1[j].next == ns[j].next && ns1[j].key == ns[j].key;
    ChainsSameLinks(ns, ns1);
    hide OnChain;
    assert forall j :: 0 <= j < |ns1| && ns1[j].key != Nil ==> OnChain(ns, f(ns[j].key, |ns|), j);
    assert forall j :: 0 <= j < |ns1| ==> Ends(ns, ns[j].next);
  }

  lemma NodeWritten(ns: seq<Node>, i: nat, v: TValue, q: TValue)
    requires KeysUnique(ns) && i < |ns| && ns[i].key != Nil
    ensures NodeValue(ns[i := ns[i].(val := v)], q) == if q == ns[i].key then v else NodeValue(ns, q)
  {
    var ns1 := ns[i := ns[i].(val := v)];
    assert KeysUnique(ns1);
    if q == ns[i].key {
      NodeValueIs(ns1, i);
    } else {
      SameValue(ns, ns1, q, i, i);
    }
  }

  // ---- the set of keys that are present ----

  ghost function ArrayKeys(arr: seq<TValue>, n: nat): set<TValue>
    requires n <= |arr| <= MAXASIZE
  {
    set i | 0 <= i < n && arr[i] != Nil :: Int(i + 1)
  }

  ghost function NodeKeys(ns: seq<Node>, from: nat): set<TValue> {
    set i | from <= i < |ns| && ns[i].val != Nil :: ns[i].key
  }

  ghost function Present(t: TableValue): set<TValue>
    requires |t.arr| <= MAXASIZE
  {
    ArrayKeys(t.arr, |t.arr|) + NodeKeys(t.ns, 0)
  }

  lemma PresentIs(f: Hash, t: TableValue)
    requires TableInv(f, t)
    ensures forall k :: k in Present(t) <==> Lookup(t, k) != Nil
    ensures Nil !in Present(t) && NaN !in Present(t)
  {
    hide Chained;
    hide HomesHeld;
    hide Acyclic;
    forall k
      ensures k in Present(t) <==> Lookup(t, k) != Nil
    {
      if InArray(k, |t.arr|) {
        assert k in ArrayKeys(t.arr, |t.arr|) <==> t.arr[k.n - 1] != Nil by {
          assert k == Int(k.n - 1 + 1);
        }
      } else if HasKey(t.ns, k) {
        var i := IndexOf(t.ns, k);
        assert k in NodeKeys(t.ns, 0) <==> t.ns[i].val != Nil;
      }
    }
  }

  /** The keys that do not fit into an array part of size `n`. */
  ghost function Outside(s: set<TValue>, n: nat): set<TValue> {
    set k | k in s && !InArray(k, n)
  }

  lemma OutsideCount(s: set<TValue>, n: nat)
    ensures |Outside(s, n)| == |s| - Count(s, 0, n)
  {
    assert s == Outside(s, n) + IntsIn(s, 0, n);
    assert Outside(s, n) !! IntsIn(s, 0, n);
  }

  // ---- how many nodes are in use ----

  ghost function UsedNodes(ns: seq<Node>): set<nat> {
    set i: nat | i < |ns| && ns[i].key != Nil
  }

  ghost function Used(ns: seq<Node>): nat {
    |UsedNodes(ns)|
  }

  ghost predicate HasRoom(t: TableValue) {
    !t.dummy && Used(t.ns) < |t.ns|
  }

  /** Neither the main position of the key nor any free node can take it. */
  ghost predicate Full(f: Hash, t: TableValue, k: TValue) {
    t.dummy || ((forall i :: 0 <= i < |t.ns| ==> t.ns[i].key != Nil) && |t.ns| > 0 && t.ns[f(k, |t.ns|)].val != Nil)
  }

  /** The key is new, there is no place for it, and a rehash would need too many nodes. */
  ghost predicate Overflows(f: Hash, t: TableValue, k: TValue) {
    NewKeyOk(t, k) && Full(f, t, k) && |t.arr| <= MAXASIZE && Overflowing(Present(t) + {k})
  }

  ghost function Below(n: nat): (s: set<nat>)
    ensures |s| == n && forall i: nat :: i in s <==> i < n
  {
    if n == 0 then {} else Below(n - 1) + {n - 1}
  }

  lemma RoomIs(t: TableValue)
    requires HasRoom(t)
    ensures exists i :: 0 <= i < |t.ns| && t.ns[i].key == Nil
  {
    assert (forall i :: 0 <= i < |t.ns| ==> t.ns[i].key != Nil) ==> UsedNodes(t.ns) == Below(|t.ns|);
  }

  lemma UsedAfter(ns: seq<Node>, ns1: seq<Node>, n: nat)
    requires |ns1| == |ns| && forall i :: 0 <= i < |ns| && ns1[i].key != Nil ==> ns[i].key != Nil || i == n
    ensures Used(ns1) <= Used(ns) + 1
  {
    assert UsedNodes(ns1) <= UsedNodes(ns) + {n};
    Smaller(UsedNodes(ns1), UsedNodes(ns) + {n});
  }

  lemma UsedSame(ns: seq<Node>, ns1: seq<Node>)
    requires |ns1| == |ns| && forall i :: 0 <= i < |ns| ==> (ns1[i].key == Nil <==> ns[i].key == Nil)
    ensures Used(ns1) == Used(ns)
  {
    assert UsedNodes(ns1) == UsedNodes(ns);
  }

  // ---- new keys ----

  /** What a table keeps when `k` gets the node `i`, with a nil value. */
  ghost predicate KeyAdded(f: Hash, t: TableValue, t1: TableValue, k: TValue, i: nat) {
    && TableInv(f, t1) && SameValues(t, t1) && |t1.ns| == |t.ns| && t1.arr == t.arr && t1.dummy == t.dummy
    && SlotOf(t1, k) == NodeSlot(i) && i < |t1.ns| && t1.ns[i].val == Nil && Used(t1.ns) <= Used(t.ns) + 1
  }

  predicate NewKeyOk(t: TableValue, k: TValue) {
    k != Nil && k != NaN && !HasKey(t.ns, k) && !InArray(k, |t.arr|)
  }

  lemma AddedValues(f: Hash, t: TableValue, t1: TableValue, k: TValue, i: nat)
    requires NewKeyOk(t, k) && t1 == t.(ns := t1.ns, lastfree := t1.lastfree)
    requires KeysUnique(t1.ns) && i < |t1.ns| && t1.ns[i].key == k && t1.ns[i].val == Nil
    requires forall q :: q != k ==> NodeValue(t1.ns, q) == NodeValue(t.ns, q)
    ensures SameValues(t, t1) && SlotOf(t1, k) == NodeSlot(i)
  {
    NodeValueIs(t1.ns, i);
    hide KeysUnique;
  }

  lemma AddedByOverwrite(f: Hash, t: TableValue, k: TValue, mp: nat)
    requires TableInv(f, t) && NewKeyOk(t, k) && f(k, |t.ns|) == mp && t.ns[mp].val == Nil && !t.dummy
    ensures KeyAdded(f, t, t.(ns := t.ns[mp := t.ns[mp].(key := k)]), k, mp)
  {
    var t1 := t.(ns := t.ns[mp := t.ns[mp].(key := k)]);
    Overwrite(f, t.ns, mp, k);
    OverwriteValues(t.ns, mp, k);
    hide OnePredecessor;
    hide Acyclic;
    hide Chained;
    hide HomesHeld;
    hide FreeUnlinked;
    AddedValues(f, t, t1, k, mp);
    UsedAfter(t.ns, t1.ns, mp);
  }

  lemma AddedKeeps(f: Hash, t: TableValue, t1: TableValue, k: TValue, mp: nat, n: nat)
    requires TableInv(f, t) && NewKeyOk(t, k) && !t.dummy && ChainInv(f, t1.ns) && KeysMove(t.ns, t1.ns, mp, n, k)
    requires t1 == t.(ns := t1.ns, lastfree := n) && forall i :: n < i < |t.ns| ==> t.ns[i].key != Nil
    ensures TableInv(f, t1) && Used(t1.ns) <= Used(t.ns) + 1
  {
    hide ChainInv;
    forall i | 0 <= i < |t1.ns|
      ensures !InArray(t1.ns[i].key, |t1.arr|)
    {
      assert !InArray(t.ns[i].key, |t.arr|) && !InArray(t.ns[mp].key, |t.arr|);
    }
    UsedAfter(t.ns, t1.ns, n);
  }

  lemma AddedByAppend(f: Hash, t: TableValue, k: TValue, mp: nat, n: nat)
    requires TableInv(f, t) && NewKeyOk(t, k) && f(k, |t.ns|) == mp && !t.dummy
    requires n < |t.ns| && t.ns[n].key == Nil && t.ns[mp].key != Nil && f(t.ns[mp].key, |t.ns|) == mp
    requires forall i :: n < i < |t.ns| ==> t.ns[i].key != Nil
    ensures KeyAdded(f, t, t.(ns := Appended(t.ns, mp, n, k), lastfree := n), k, n)
  {
    var t1 := t.(ns := Appended(t.ns, mp, n, k), lastfree := n);
    AppendedInv(f, t.ns, mp, n, k);
    AppendedValues(t.ns, mp, n, k);
    AddedKeeps(f, t, t1, k, mp, n);
    hide TableInv;
    AddedValues(f, t, t1, k, n);
  }

  lemma AddedByMove(f: Hash, t: TableValue, k: TValue, mp: nat, n: nat, p: nat)
    requires TableInv(f, t) && NewKeyOk(t, k) && f(k, |t.ns|) == mp && !t.dummy
    requires Movable(t.ns, mp, n, p) && t.ns[mp].key != Nil && f(t.ns[mp].key, |t.ns|) != mp
    requires forall i :: n < i < |t.ns| ==> t.ns[i].key != Nil
    ensures KeyAdded(f, t, t.(ns := Moved(t.ns, mp, n, p, k), lastfree := n), k, mp)
  {
    hide Chained;
    hide Acyclic;
    hide HomesHeld;
    hide OnePredecessor;
    hide KeysUnique;
    hide Moved;
    var t1 := t.(ns := Moved(t.ns, mp, n, p, k), lastfree := n);
    MovedIs(t.ns, mp, n, p, k);
    MovedInv(f, t.ns, mp, n, p, k);
    MovedValues(t.ns, mp, n, p, k);
    AddedKeeps(f, t, t1, k, mp, n);
    AddedValues(f, t, t1, k, mp);
  }

  lemma MovedIs(ns: seq<Node>, mp: nat, n: nat, p: nat, k: TValue)
    requires Movable(ns, mp, n, p) && ns[mp].key != Nil
    ensures var ns1 := Moved(ns, mp, n, p, k); KeysMove(ns, ns1, mp, n, k) && ns1[mp] == Node(k, Nil, NULL)
  {
  }

  // ---- walking a chain ----

  lemma ChainHasKey(f: Hash, ns: seq<Node>, k: TValue)
    requires ChainInv(f, ns) && HasKey(ns, k)
    ensures OnChain(ns, f(k, |ns|), IndexOf(ns, k))
  {
  }

  /** From a node that is not the one sought, the chain goes on. */
  lemma Advance(ns: seq<Node>, a: nat, b: nat)
    requires a < |ns| && OnChain(ns, a, b) && a != b
    ensures OnChain(ns, ns[a].next, b) && ns[a].next != NULL
  {
    var k: nat :| Walk(ns, a, b, k);
    assert Walk(ns, ns[a].next, b, k - 1);
  }

  // ---- moving everything to parts of new sizes ----

  lemma FreshNodes(f: Hash, n: nat)
    requires n > 0
    ensures var ns := seq(n, _ => FREE_NODE); ChainInv(f, ns) && Used(ns) == 0 && forall k :: NodeValue(ns, k) == Nil
  {
    var ns := seq(n, _ => FREE_NODE);
    OnItself(ns, NULL);
    assert UsedNodes(ns) == {};
  }

  /** The keys 1..n. */
  ghost function Firsts(n: nat): (s: set<TValue>)
    requires n <= MAXASIZE
    ensures forall k :: k in s <==> InArray(k, n)
  {
    if n == 0 then {} else Firsts(n - 1) + {Int(n)}
  }

  lemma {:induction false} FirstsCount(n: nat)
    requires n <= MAXASIZE
    ensures |Firsts(n)| == n
  {
    if n > 0 {
      FirstsCount(n - 1);
    }
  }

  lemma {:induction false} NextPower(n: nat) returns (i: nat)
    requires n > 0
    ensures n <= Pow2(i) < 2 * n
  {
    if n == 1 {
      i := 0;
    } else {
      i := NextPower(n - 1);
      if Pow2(i) < n {
        i := i + 1;
      }
    }
  }

  /** More than half of the slots of the array part are in use, and of no larger one would be. */
  lemma BestSizeMeaning(s: set<TValue>, n: nat)
    requires BestSize(s, n)
    ensures n > 0 ==> 2 * |set k | k in s && k.Int? && 1 <= k.n <= n| > n
    ensures forall i :: 0 <= i <= MAXBITS && Pow2(i) > n ==> 2 * |set k | k in s && k.Int? && 1 <= k.n <= Pow2(i)| <= Pow2(i)
  {
    assert IntsIn(s, 0, n) == set k | k in s && k.Int? && 1 <= k.n <= n;
    forall i | 0 <= i <= MAXBITS && Pow2(i) > n
      ensures 2 * |set k | k in s && k.Int? && 1 <= k.n <= Pow2(i)| <= Pow2(i)
    {
      assert IntsIn(s, 0, Pow2(i)) == set k | k in s && k.Int? && 1 <= k.n <= Pow2(i);
      assert !Dense(s, Pow2(i));
    }
  }

  /** The array part of a table with the keys 1..n, and any others that are no positive integers, gets the least
      power of two that they fit into. */
  lemma ConsecutiveKeys(s: set<TValue>, n: nat, size: nat)
    requires 0 < n <= MAXASIZE && BestSize(s, size)
    requires forall k: TValue :: k.Int? && k.n > 0 ==> (k in s <==> k.n <= n)
    ensures n <= size < 2 * n
  {
    var i := NextPower(n);
    MaxASize();
    if i > MAXBITS {
      Pow2Grows(MAXBITS, i);
    }
    forall p | n <= p
      ensures Count(s, 0, p) == n
    {
      assert IntsIn(s, 0, p) == Firsts(n);
      FirstsCount(n);
    }
    assert Dense(s, Pow2(i));
  }

  function Least(a: nat, b: nat): nat { if a < b then a else b }

  /** The keys that have been dealt with when the array part up to `a` and the nodes from `b` on have been moved. */
  ghost function Done(t: TableValue, size: nat, a: nat, b: nat): set<TValue>
    requires a <= |t.arr| <= MAXASIZE
  {
    Firsts(Least(size, |t.arr|)) + ArrayKeys(t.arr, a) + NodeKeys(t.ns, b)
  }

  /** `t1` holds the keys in `done` with the values they have in `t`, and it has room for the rest. */
  ghost predicate Transferred(f: Hash, t: TableValue, t1: TableValue, done: set<TValue>) {
    && TableInv(f, t1) && |t.arr| <= MAXASIZE
    && (forall k :: Lookup(t1, k) == if k in done then Lookup(t, k) else Nil)
    && Used(t1.ns) <= |Outside(Present(t) * done, |t1.arr|)|
    && |Outside(Present(t), |t1.arr|)| <= |t1.ns|
    && (t1.dummy ==> Outside(Present(t), |t1.arr|) == {})
  }

  lemma TransferStart(f: Hash, t: TableValue, t1: TableValue, size: nat)
    requires |t.arr| <= MAXASIZE && size <= MAXASIZE && 0 < |t1.ns| <= MAXASIZE
    requires |t1.arr| == size && (forall i :: 0 <= i < size ==> t1.arr[i] == if i < |t.arr| then t.arr[i] else Nil)
    requires t1.ns == seq(|t1.ns|, _ => FREE_NODE) && FreeBelow(t1)
    requires |Outside(Present(t), size)| <= |t1.ns| && (t1.dummy ==> Outside(Present(t), size) == {})
    ensures Transferred(f, t, t1, Done(t, size, Least(size, |t.arr|), |t.ns|))
  {
    FreshNodes(f, |t1.ns|);
    var done := Done(t, size, Least(size, |t.arr|), |t.ns|);
    assert done == Firsts(Least(size, |t.arr|));
  }

  lemma TransferRoom(f: Hash, t: TableValue, t1: TableValue, done: set<TValue>, k: TValue)
    requires Transferred(f, t, t1, done) && k in Present(t) && k !in done
    ensures InArray(k, |t1.arr|) || HasRoom(t1)
  {
    if !InArray(k, |t1.arr|) {
      var moved := Outside(Present(t) * done, |t1.arr|);
      assert moved + {k} <= Outside(Present(t), |t1.arr|);
      Smaller(moved + {k}, Outside(Present(t), |t1.arr|));
    }
  }

  lemma TransferOne(f: Hash, t: TableValue, t1: TableValue, t2: TableValue, done: set<TValue>, k: TValue)
    requires Transferred(f, t, t1, done) && TableInv(f, t2) && k in Present(t) && k !in done
    requires Updated(t1, k, Lookup(t, k), t2) && |t2.arr| == |t1.arr| && |t2.ns| == |t1.ns| && t2.dummy == t1.dummy
    requires Used(t2.ns) <= Used(t1.ns) + 1 && (InArray(k, |t1.arr|) ==> Used(t2.ns) == Used(t1.ns))
    ensures Transferred(f, t, t2, done + {k})
  {
    hide TableInv;
    hide Present;
    hide Lookup;
    hide Used;
    var p := Present(t);
    if InArray(k, |t1.arr|) {
      assert Outside(p * (done + {k}), |t1.arr|) == Outside(p * done, |t1.arr|);
    } else {
      assert Outside(p * (done + {k}), |t1.arr|) == Outside(p * done, |t1.arr|) + {k};
    }
  }

  lemma TransferEnd(f: Hash, t: TableValue, t1: TableValue)
    requires TableInv(f, t) && Transferred(f, t, t1, Done(t, |t1.arr|, |t.arr|, 0))
    ensures TableInv(f, t1) && SameValues(t, t1) && Used(t1.ns) <= |Outside(Present(t), |t1.arr|)|
  {
    PresentIs(f, t);
    var done := Done(t, |t1.arr|, |t.arr|, 0);
    assert Present(t) <= done;
    assert Present(t) * done == Present(t);
  }

  lemma DoneArray(t: TableValue, size: nat, a: nat, b: nat)
    requires a < |t.arr| <= MAXASIZE
    ensures t.arr[a] != Nil ==> Done(t, size, a + 1, b) == Done(t, size, a, b) + {Int(a + 1)}
    ensures t.arr[a] == Nil ==> Done(t, size, a + 1, b) == Done(t, size, a, b)
    ensures t.arr[a] != Nil ==> Int(a + 1) in Present(t)
  {
    assert t.arr[a] != Nil ==> ArrayKeys(t.arr, a + 1) == ArrayKeys(t.arr, a) + {Int(a + 1)};
    assert t.arr[a] == Nil ==> ArrayKeys(t.arr, a + 1) == ArrayKeys(t.arr, a);
  }

  lemma DoneNode(t: TableValue, size: nat, a: nat, b: nat)
    requires a <= |t.arr| <= MAXASIZE && b < |t.ns|
    ensures t.ns[b].val != Nil ==> Done(t, size, a, b) == Done(t, size, a, b + 1) + {t.ns[b].key}
    ensures t.ns[b].val == Nil ==> Done(t, size, a, b) == Done(t, size, a, b + 1)
    ensures t.ns[b].val != Nil ==> t.ns[b].key in Present(t)
  {
    assert t.ns[b].val != Nil ==> NodeKeys(t.ns, b) == NodeKeys(t.ns, b + 1) + {t.ns[b].key};
    assert t.ns[b].val == Nil ==> NodeKeys(t.ns, b) == NodeKeys(t.ns, b + 1);
  }

  /** A key of the part that is still to be moved has not been moved before. */
  lemma NotDoneArray(f: Hash, t: TableValue, size: nat, a: nat)
    requires TableInv(f, t) && size <= a < |t.arr|
    ensures Int(a + 1) !in Done(t, size, a, |t.ns|) && Lookup(t, Int(a + 1)) == t.arr[a]
  {
  }

  lemma NotDoneNode(f: Hash, t: TableValue, size: nat, b: nat)
    requires TableInv(f, t) && b < |t.ns| && t.ns[b].val != Nil
    ensures t.ns[b].key !in Done(t, size, |t.arr|, b + 1) && Lookup(t, t.ns[b].key) == t.ns[b].val
  {
    NodeValueIs(t.ns, b);
  }

  // ---- what a rehash has room for, and what happens when there is none ----

  /** The keys that the new node part must take, the one that is being added included. */
  lemma RehashNeeds(f: Hash, t: TableValue, k: TValue, n: nat)
    requires TableInv(f, t) && NewKeyOk(t, k)
    ensures k !in Present(t)
    ensures |Outside(Present(t), n)| + (if InArray(k, n) then 0 else 1) == |Present(t) + {k}| - Count(Present(t) + {k}, 0, n)
  {
    PresentIs(f, t);
    var p := Present(t);
    OutsideCount(p + {k}, n);
    if InArray(k, n) {
      assert Outside(p + {k}, n) == Outside(p, n);
    } else {
      assert Outside(p + {k}, n) == Outside(p, n) + {k};
    }
  }

  function Grown(vals: seq<TValue>, size: nat): seq<TValue> {
    if size > |vals| then vals + seq(size - |vals|, _ => Nil) else vals
  }

  ghost function KeysWithout(ns: seq<Node>, m: nat, j: nat): set<TValue>
    requires m <= |ns|
  {
    if m == 0 then {}
    else if m - 1 == j then KeysWithout(ns, m - 1, j)
    else KeysWithout(ns, m - 1, j) + {ns[m - 1].key}
  }

  lemma {:induction false} InKeysWithout(ns: seq<Node>, m: nat, j: nat, i: nat)
    requires i < m <= |ns| && i != j
    ensures ns[i].key in KeysWithout(ns, m, j)
    decreases m
  {
    if i < m - 1 {
      InKeysWithout(ns, m - 1, j, i);
    }
  }

  lemma {:induction false} KeysWithoutCount(ns: seq<Node>, m: nat, j: nat)
    requires m <= |ns|
    ensures |KeysWithout(ns, m, j)| <= m - if j < m then 1 else 0
  {
    if m > 0 {
      KeysWithoutCount(ns, m - 1, j);
    }
  }

  /** If the array part grew before the node vector turned out too large, then every node is live and none of
      its keys falls into the new range, so that nothing is lost. */
  lemma OverflowKeeps(f: Hash, t: TableValue, n: nat)
    requires TableInv(f, t) && n <= MAXASIZE && |Outside(Present(t), n)| >= MAXASIZE
    ensures var t1 := t.(arr := Grown(t.arr, n)); TableInv(f, t1) && SameValues(t, t1)
  {
    hide ChainInv;
    if n > |t.arr| {
      forall j | 0 <= j < |t.ns|
        ensures !InArray(t.ns[j].key, n)
      {
        if InArray(t.ns[j].key, n) {
          OutsideWithout(t, n, j);
          Smaller(Outside(Present(t), n), KeysWithout(t.ns, |t.ns|, j));
          KeysWithoutCount(t.ns, |t.ns|, j);
        }
      }
    }
  }

  /** All of them are keys of nodes, and not the key of a node whose key fits into the array part. */
  lemma OutsideWithout(t: TableValue, n: nat, j: nat)
    requires |t.arr| <= n && |t.arr| <= MAXASIZE && (j < |t.ns| ==> InArray(t.ns[j].key, n))
    ensures Outside(Present(t), n) <= KeysWithout(t.ns, |t.ns|, j)
  {
    forall k | k in Outside(Present(t), n)
      ensures k in KeysWithout(t.ns, |t.ns|, j)
    {
      var i :| 0 <= i < |t.ns| && t.ns[i].key == k && t.ns[i].val != Nil;
      InKeysWithout(t.ns, |t.ns|, j, i);
    }
  }
}
