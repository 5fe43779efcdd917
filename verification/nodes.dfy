/** The node part of a table: a chained scatter table with Brent's variation. */
module Nodes {
  import opened Limits

  /** Keys and values. A number is `Int` when it converts to an int and back unchanged, else `Num` or `NaN`. */
  datatype TValue = Nil | NaN | Int(n: Int32) | Num(r: int) | Other(id: int)

  const NULL := -1

  /** `next` is the position of the next node of the chain. */
  datatype Node = Node(key: TValue, val: TValue, next: int)

  const FREE_NODE := Node(Nil, Nil, NULL)

  /** The main position of a key in a node vector of a given size; any function will do. */
  type Hash = f: (TValue, nat) -> nat | forall k, n :: n > 0 ==> f(k, n) < n witness (k: TValue, n: nat) => 0

  /** `k` links lead from `a` to `b`. */
  ghost predicate Walk(ns: seq<Node>, a: int, b: int, k: nat)
    decreases k
  {
    if k == 0 then a == b else 0 <= a < |ns| && Walk(ns, ns[a].next, b, k - 1)
  }

  ghost predicate OnChain(ns: seq<Node>, a: int, b: int) {
    exists k: nat :: Walk(ns, a, b, k)
  }

  ghost predicate Ends(ns: seq<Node>, a: int) {
    OnChain(ns, a, NULL)
  }

  ghost predicate Acyclic(ns: seq<Node>) {
    forall i :: 0 <= i < |ns| ==> Ends(ns, ns[i].next)
  }

  ghost predicate OnePredecessor(ns: seq<Node>) {
    forall i, j :: 0 <= i < j < |ns| && ns[i].next != NULL ==> ns[i].next != ns[j].next
  }

  /** Every stored key, live or dead, is on the chain from its main position. */
  ghost predicate Chained(f: Hash, ns: seq<Node>) {
    forall i :: 0 <= i < |ns| && ns[i].key != Nil ==> OnChain(ns, f(ns[i].key, |ns|), i)
  }

  /** The main position of a stored key is held by a key that is at home there. */
  ghost predicate HomesHeld(f: Hash, ns: seq<Node>) {
    forall i :: 0 <= i < |ns| && ns[i].key != Nil ==>
      var h := f(ns[i].key, |ns|); ns[h].key != Nil && f(ns[h].key, |ns|) == h
  }

  ghost predicate FreeUnlinked(ns: seq<Node>) {
    && (forall i :: 0 <= i < |ns| ==> ns[i].next == NULL || (0 <= ns[i].next < |ns| && ns[ns[i].next].key != Nil))
    && (forall i :: 0 <= i < |ns| && ns[i].key == Nil ==> ns[i] == FREE_NODE)
  }

  ghost predicate KeysUnique(ns: seq<Node>) {
    && (forall i, j :: 0 <= i < j < |ns| && ns[i].key == ns[j].key ==> ns[i].key == Nil)
    && (forall i :: 0 <= i < |ns| ==> ns[i].key != NaN)
  }

  /** The invariant of the node part. */
  ghost predicate ChainInv(f: Hash, ns: seq<Node>) {
    |ns| > 0 && Acyclic(ns) && OnePredecessor(ns) && Chained(f, ns) && HomesHeld(f, ns) && FreeUnlinked(ns) && KeysUnique(ns)
  }

  predicate HasKey(ns: seq<Node>, k: TValue) {
    k != Nil && exists i :: 0 <= i < |ns| && ns[i].key == k
  }

  ghost function IndexOf(ns: seq<Node>, k: TValue): (i: nat)
    requires HasKey(ns, k)
    ensures i < |ns| && ns[i].key == k
  {
    var i :| 0 <= i < |ns| && ns[i].key == k; i
  }

  /** The value that the node part associates with `k`. */
  ghost function NodeValue(ns: seq<Node>, k: TValue): TValue {
    if HasKey(ns, k) then ns[IndexOf(ns, k)].val else Nil
  }

  lemma NodeValueIs(ns: seq<Node>, i: nat)
    requires KeysUnique(ns) && i < |ns| && ns[i].key != Nil
    ensures HasKey(ns, ns[i].key) && IndexOf(ns, ns[i].key) == i && NodeValue(ns, ns[i].key) == ns[i].val
  {
  }

  // ---- walks ----

  lemma {:induction false} WalkOn(ns: seq<Node>, a: int, b: int, c: int, k: nat, l: nat)
    requires Walk(ns, a, b, k) && Walk(ns, b, c, l)
    ensures Walk(ns, a, c, k + l)
    decreases k
  {
    if k > 0 {
      WalkOn(ns, ns[a].next, b, c, k - 1, l);
    }
  }

  lemma OneStep(ns: seq<Node>, a: nat, c: int)
    requires a < |ns| && OnChain(ns, ns[a].next, c)
    ensures OnChain(ns, a, c)
  {
    var k: nat :| Walk(ns, ns[a].next, c, k);
    assert Walk(ns, a, c, k + 1);
  }

  lemma OnItself(ns: seq<Node>, a: int)
    ensures OnChain(ns, a, a)
  {
    assert Walk(ns, a, a, 0);
  }

  /** Only the links matter. */
  lemma {:induction false} WalkSameLinks(ns: seq<Node>, ns1: seq<Node>, a: int, b: int, k: nat)
    requires |ns1| == |ns| && forall i :: 0 <= i < |ns| ==> ns1[i].next == ns[i].next
    requires Walk(ns, a, b, k)
    ensures Walk(ns1, a, b, k)
    decreases k
  {
    if k > 0 {
      WalkSameLinks(ns, ns1, ns[a].next, b, k - 1);
    }
  }

  lemma ChainsSameLinks(ns: seq<Node>, ns1: seq<Node>)
    requires |ns1| == |ns| && forall i :: 0 <= i < |ns| ==> ns1[i].next == ns[i].next
    ensures forall a, b :: OnChain(ns, a, b) ==> OnChain(ns1, a, b)
  {
    forall a, b | OnChain(ns, a, b)
      ensures OnChain(ns1, a, b)
    {
      var k: nat :| Walk(ns, a, b, k);
      WalkSameLinks(ns, ns1, a, b, k);
    }
  }

  // ---- a node whose value is nil takes over a new key ----

  /** The main position of the new key has a nil value: the key goes there, whatever chain that node is on. */
  lemma Overwrite(f: Hash, ns: seq<Node>, mp: nat, k: TValue)
    requires ChainInv(f, ns) && k != Nil && k != NaN && !HasKey(ns, k) && f(k, |ns|) == mp
    requires ns[mp].val == Nil
    ensures var ns1 := ns[mp := ns[mp].(key := k)]; ChainInv(f, ns1)
  {
    var ns1 := ns[mp := ns[mp].(key := k)];
    ChainsSameLinks(ns, ns1);
    OnItself(ns1, mp);
    hide OnChain;
    forall i | 0 <= i < |ns1| && ns1[i].key != Nil
      ensures OnChain(ns1, f(ns1[i].key, |ns1|), i)
    {
      if i != mp {
        assert ns1[i] == ns[i];
      }
    }
    assert forall i :: 0 <= i < |ns| && i != mp ==> ns[i].key != k;
  }

  lemma OverwriteValues(ns: seq<Node>, mp: nat, k: TValue)
    requires KeysUnique(ns) && mp < |ns| && k != Nil && !HasKey(ns, k) && ns[mp].val == Nil
    ensures forall q :: q != k ==> NodeValue(ns[mp := ns[mp].(key := k)], q) == NodeValue(ns, q)
  {
    var ns1 := ns[mp := ns[mp].(key := k)];
    forall q | q != k
      ensures NodeValue(ns1, q) == NodeValue(ns, q)
    {
      SameValue(ns, ns1, q, mp, mp);
    }
  }

  /** Where `q` is kept may change from `a` to `b`, as long as its value does not. */
  lemma SameValue(ns: seq<Node>, ns1: seq<Node>, q: TValue, a: nat, b: nat)
    requires KeysUnique(ns) && |ns1| == |ns| && a < |ns| && b < |ns|
    requires forall i :: 0 <= i < |ns| && i != a && i != b && (ns[i].key == q || ns1[i].key == q) ==> ns1[i].key == ns[i].key && ns1[i].val == ns[i].val
    requires b != a ==> ns[b].key != q
    requires if ns[a].key == q then (ns1[b].key == q && ns1[b].val == ns[a].val && (a != b ==> ns1[a].key != q)) || (ns[a].val == Nil && ns1[a].key != q && ns1[b].key != q)
             else ns1[a].key != q && ns1[b].key != q
    ensures NodeValue(ns1, q) == NodeValue(ns, q)
  {
    if HasKey(ns, q) {
      var i := IndexOf(ns, q);
      if i != a && i != b {
        assert ns1[i].key == q;
      }
    }
    if HasKey(ns1, q) {
      var j := IndexOf(ns1, q);
      assert j != a && j != b ==> ns[j].key == q;
    }
  }

  // ---- the new key goes into a free node behind its main position ----

  function Appended(ns: seq<Node>, mp: nat, n: nat, k: TValue): seq<Node>
    requires mp < |ns| && n < |ns| && mp != n
  {
    ns[n := Node(k, Nil, ns[mp].next)][mp := ns[mp].(next := n)]
  }

  lemma {:induction false} AppendedWalk(ns: seq<Node>, mp: nat, n: nat, k: TValue, a: int, b: int, l: nat)
    requires mp < |ns| && n < |ns| && mp != n && Walk(ns, a, b, l)
    requires a != n && forall i :: 0 <= i < |ns| ==> ns[i].next != n
    ensures OnChain(Appended(ns, mp, n, k), a, b)
    decreases l
  {
    var ns1 := Appended(ns, mp, n, k);
    if l == 0 {
      OnItself(ns1, a);
    } else {
      AppendedWalk(ns, mp, n, k, ns[a].next, b, l - 1);
      if a == mp {
        OneStep(ns1, n, b);
      }
      OneStep(ns1, a, b);
    }
  }

  lemma AppendedChains(ns: seq<Node>, mp: nat, n: nat, k: TValue)
    requires mp < |ns| && n < |ns| && mp != n && FreeUnlinked(ns) && ns[n].key == Nil
    ensures forall a, b :: a != n && OnChain(ns, a, b) ==> OnChain(Appended(ns, mp, n, k), a, b)
  {
    forall a, b | a != n && OnChain(ns, a, b)
      ensures OnChain(Appended(ns, mp, n, k), a, b)
    {
      var l: nat :| Walk(ns, a, b, l);
      AppendedWalk(ns, mp, n, k, a, b, l);
    }
  }

  lemma AppendedInv(f: Hash, ns: seq<Node>, mp: nat, n: nat, k: TValue)
    requires ChainInv(f, ns) && k != Nil && k != NaN && !HasKey(ns, k) && f(k, |ns|) == mp
    requires n < |ns| && ns[n].key == Nil && ns[mp].key != Nil && f(ns[mp].key, |ns|) == mp
    ensures ChainInv(f, Appended(ns, mp, n, k))
  {
    hide Acyclic;
    hide Chained;
    hide HomesHeld;
    hide KeysUnique;
    hide HasKey;
    AppendedEnds(ns, mp, n, k);
    AppendedChained(f, ns, mp, n, k);
    AppendedShape(ns, mp, n, k);
    KeysAdded(f, ns, Appended(ns, mp, n, k), mp, n, k);
  }

  lemma AppendedChained(f: Hash, ns: seq<Node>, mp: nat, n: nat, k: TValue)
    requires Chained(f, ns) && FreeUnlinked(ns) && f(k, |ns|) == mp && mp != n
    requires mp < |ns| && n < |ns| && ns[n].key == Nil
    ensures Chained(f, Appended(ns, mp, n, k))
  {
    var ns1 := Appended(ns, mp, n, k);
    AppendedChains(ns, mp, n, k);
    OnItself(ns1, n);
    OneStep(ns1, mp, n);
    hide OnChain;
    forall i | 0 <= i < |ns1| && ns1[i].key != Nil
      ensures OnChain(ns1, f(ns1[i].key, |ns1|), i)
    {
      if i != n {
        assert ns1[i].key == ns[i].key;
        var h := f(ns[i].key, |ns|);
        if h == n {
          AloneChain(ns, n, i);
        }
      }
    }
  }

  /** Nothing follows a free node. */
  lemma AloneChain(ns: seq<Node>, n: nat, i: int)
    requires FreeUnlinked(ns) && n < |ns| && ns[n].key == Nil && OnChain(ns, n, i)
    ensures i == n || i == NULL
  {
    var l: nat :| Walk(ns, n, i, l);
    if l > 0 {
      assert Walk(ns, NULL, i, l - 1);
    }
  }

  lemma AppendedShape(ns: seq<Node>, mp: nat, n: nat, k: TValue)
    requires FreeUnlinked(ns) && OnePredecessor(ns) && mp != n && k != Nil
    requires mp < |ns| && n < |ns| && ns[n].key == Nil && ns[mp].key != Nil
    ensures FreeUnlinked(Appended(ns, mp, n, k)) && OnePredecessor(Appended(ns, mp, n, k))
  {
    var ns1 := Appended(ns, mp, n, k);
    assert forall i :: 0 <= i < |ns| && i != n ==> ns1[i].key == ns[i].key;
    assert forall i :: 0 <= i < |ns| && i != n && i != mp ==> ns1[i] == ns[i];
  }

  /** One free node gets a key, one key is added, and at most one key changes place. */
  ghost predicate KeysMove(ns: seq<Node>, ns1: seq<Node>, mp: nat, n: nat, k: TValue) {
    && |ns1| == |ns| && mp < |ns| && n < |ns| && mp != n && ns[n].key == Nil && ns[mp].key != Nil
    && (forall i :: 0 <= i < |ns| && i != mp && i != n ==> ns1[i].key == ns[i].key)
    && ((ns1[mp].key == ns[mp].key && ns1[n].key == k) || (ns1[mp].key == k && ns1[n].key == ns[mp].key))
  }

  lemma KeysAdded(f: Hash, ns: seq<Node>, ns1: seq<Node>, mp: nat, n: nat, k: TValue)
    requires KeysMove(ns, ns1, mp, n, k) && KeysUnique(ns) && HomesHeld(f, ns)
    requires k != Nil && k != NaN && !HasKey(ns, k) && f(k, |ns|) == mp
    requires f(ns1[mp].key, |ns|) == mp
    ensures KeysUnique(ns1) && HomesHeld(f, ns1)
  {
    assert forall i :: 0 <= i < |ns| ==> ns[i].key != k;
    forall i | 0 <= i < |ns1| && ns1[i].key != Nil
      ensures var h := f(ns1[i].key, |ns1|); ns1[h].key != Nil && f(ns1[h].key, |ns1|) == h
    {
      var h := f(ns1[i].key, |ns1|);
      if h != mp {
        var j := if i == n then mp else i;
        assert ns[j].key == ns1[i].key;
        assert ns[h].key != Nil && f(ns[h].key, |ns|) == h;
      }
    }
  }

  lemma AppendedEnds(ns: seq<Node>, mp: nat, n: nat, k: TValue)
    requires mp < |ns| && n < |ns| && mp != n && FreeUnlinked(ns) && ns[n].key == Nil && Acyclic(ns)
    ensures Acyclic(Appended(ns, mp, n, k))
  {
    var ns1 := Appended(ns, mp, n, k);
    AppendedChains(ns, mp, n, k);
    hide OnChain;
    forall i | 0 <= i < |ns1|
      ensures OnChain(ns1, ns1[i].next, NULL)
    {
      assert Ends(ns, ns[i].next) && Ends(ns, ns[mp].next);
      assert OnChain(ns1, ns[mp].next, NULL);
      OneStep(ns1, n, NULL);
    }
  }

  lemma AppendedValues(ns: seq<Node>, mp: nat, n: nat, k: TValue)
    requires KeysUnique(ns) && mp < |ns| && n < |ns| && mp != n && k != Nil && !HasKey(ns, k) && ns[n].key == Nil
    ensures forall q :: q != k ==> NodeValue(Appended(ns, mp, n, k), q) == NodeValue(ns, q)
  {
    var ns1 := Appended(ns, mp, n, k);
    forall q | q != k
      ensures NodeValue(ns1, q) == NodeValue(ns, q)
    {
      if q != Nil {
        SameValue(ns, ns1, q, n, n);
      }
    }
  }

  // ---- the colliding node is not at home: it moves to a free node ----

  function Moved(ns: seq<Node>, mp: nat, n: nat, p: nat, k: TValue): seq<Node>
    requires mp < |ns| && n < |ns| && p < |ns| && mp != n && p != n && p != mp
  {
    ns[p := ns[p].(next := n)][n := ns[mp]][mp := Node(k, Nil, NULL)]
  }

  ghost predicate Movable(ns: seq<Node>, mp: nat, n: nat, p: nat) {
    && mp < |ns| && n < |ns| && p < |ns| && mp != n && p != n && p != mp
    && FreeUnlinked(ns) && OnePredecessor(ns) && ns[n].key == Nil && ns[p].next == mp
  }

  lemma MovedLinks(ns: seq<Node>, mp: nat, n: nat, p: nat, k: TValue)
    requires Movable(ns, mp, n, p)
    ensures var ns1 := Moved(ns, mp, n, p, k);
      && (forall i :: 0 <= i < |ns| && i != mp && i != n ==> ns1[i].next == if ns[i].next == mp then n else ns[i].next)
      && ns1[n].next == ns[mp].next && (forall i :: 0 <= i < |ns| ==> ns[i].next != n)
  {
  }

  /** Walks that do not end in the vacated node lead to the same node as before. */
  lemma {:induction false} MovedWalk(ns: seq<Node>, mp: nat, n: nat, p: nat, k: TValue, a: int, b: int, l: nat)
    requires Movable(ns, mp, n, p) && Walk(ns, a, b, l) && a != n && b != mp
    requires ns[mp].next != mp
    ensures OnChain(Moved(ns, mp, n, p, k), if a == mp then n else a, b)
    decreases l
  {
    var ns1 := Moved(ns, mp, n, p, k);
    MovedLinks(ns, mp, n, p, k);
    if l == 0 {
      OnItself(ns1, a);
    } else {
      var c := ns[a].next;
      MovedWalk(ns, mp, n, p, k, c, b, l - 1);
      OneStep(ns1, if a == mp then n else a, b);
    }
  }

  lemma {:induction false} NoLoop(ns: seq<Node>, a: nat, l: nat)
    requires a < |ns| && ns[a].next == a
    ensures !Walk(ns, a, NULL, l)
  {
    if l > 0 {
      NoLoop(ns, a, l - 1);
    }
  }

  lemma MovedChains(ns: seq<Node>, mp: nat, n: nat, p: nat, k: TValue)
    requires Movable(ns, mp, n, p) && Acyclic(ns)
    ensures forall a, b :: a != n && a != mp && b != mp && OnChain(ns, a, b) ==> OnChain(Moved(ns, mp, n, p, k), a, b)
    ensures forall b :: b != mp && OnChain(ns, mp, b) ==> OnChain(Moved(ns, mp, n, p, k), n, b)
  {
    assert Ends(ns, ns[mp].next);
    var e: nat :| Walk(ns, ns[mp].next, NULL, e);
    if ns[mp].next == mp {
      NoLoop(ns, mp, e);
    }
    forall a, b | a != n && b != mp && OnChain(ns, a, b)
      ensures OnChain(Moved(ns, mp, n, p, k), if a == mp then n else a, b)
    {
      var l: nat :| Walk(ns, a, b, l);
      MovedWalk(ns, mp, n, p, k, a, b, l);
    }
  }

  /** The chain to the colliding node now leads to where that node went. */
  lemma {:induction false} MovedTarget(ns: seq<Node>, mp: nat, n: nat, p: nat, k: TValue, a: int, l: nat)
    requires Movable(ns, mp, n, p) && Walk(ns, a, mp, l) && a != n && a != mp && ns[mp].next != mp
    ensures OnChain(Moved(ns, mp, n, p, k), a, n)
    decreases l
  {
    var ns1 := Moved(ns, mp, n, p, k);
    MovedLinks(ns, mp, n, p, k);
    if ns[a].next == mp {
      OnItself(ns1, n);
    } else {
      MovedTarget(ns, mp, n, p, k, ns[a].next, l - 1);
    }
    OneStep(ns1, a, n);
  }

  lemma MovedEnds(ns: seq<Node>, mp: nat, n: nat, p: nat, k: TValue)
    requires Movable(ns, mp, n, p) && Acyclic(ns)
    ensures Acyclic(Moved(ns, mp, n, p, k))
  {
    var ns1 := Moved(ns, mp, n, p, k);
    MovedChains(ns, mp, n, p, k);
    MovedLinks(ns, mp, n, p, k);
    OnItself(ns1, NULL);
    hide OnChain;
    hide Moved;
    forall i | 0 <= i < |ns1|
      ensures OnChain(ns1, ns1[i].next, NULL)
    {
      assert Ends(ns, ns[i].next) && Ends(ns, ns[mp].next);
      OneStep(ns, mp, NULL);
      if i == mp {
      } else if i == n {
        MovedEnd1(ns, mp, n, p, k);
      }
    }
  }

  lemma MovedEnd1(ns: seq<Node>, mp: nat, n: nat, p: nat, k: TValue)
    requires Movable(ns, mp, n, p) && Acyclic(ns)
    ensures OnChain(Moved(ns, mp, n, p, k), ns[mp].next, NULL)
  {
    MovedChains(ns, mp, n, p, k);
    MovedLinks(ns, mp, n, p, k);
    assert Ends(ns, ns[mp].next);
    var e: nat :| Walk(ns, ns[mp].next, NULL, e);
    if ns[mp].next == mp {
      NoLoop(ns, mp, e);
    }
  }

  lemma MovedInv(f: Hash, ns: seq<Node>, mp: nat, n: nat, p: nat, k: TValue)
    requires ChainInv(f, ns) && k != Nil && k != NaN && !HasKey(ns, k) && f(k, |ns|) == mp
    requires Movable(ns, mp, n, p) && ns[mp].key != Nil && f(ns[mp].key, |ns|) != mp
    ensures ChainInv(f, Moved(ns, mp, n, p, k))
  {
    hide Acyclic;
    hide Chained;
    hide HomesHeld;
    hide KeysUnique;
    hide HasKey;
    MovedEnds(ns, mp, n, p, k);
    Homeless(f, ns, mp);
    MovedShape(ns, mp, n, p, k);
    MovedChained(f, ns, mp, n, p, k);
    KeysAdded(f, ns, Moved(ns, mp, n, p, k), mp, n, k);
  }

  /** If the holder of a position is not at home, no key is at home there. */
  lemma Homeless(f: Hash, ns: seq<Node>, mp: nat)
    requires HomesHeld(f, ns) && mp < |ns| && ns[mp].key != Nil && f(ns[mp].key, |ns|) != mp
    ensures forall i :: 0 <= i < |ns| && ns[i].key != Nil ==> f(ns[i].key, |ns|) != mp
  {
  }

  lemma MovedChained(f: Hash, ns: seq<Node>, mp: nat, n: nat, p: nat, k: TValue)
    requires Acyclic(ns) && Chained(f, ns) && KeysUnique(ns) && f(k, |ns|) == mp && HomesHeld(f, ns)
    requires Movable(ns, mp, n, p) && ns[mp].key != Nil
    requires forall i :: 0 <= i < |ns| && ns[i].key != Nil ==> f(ns[i].key, |ns|) != mp
    ensures Chained(f, Moved(ns, mp, n, p, k))
  {
    var ns1 := Moved(ns, mp, n, p, k);
    MovedChains(ns, mp, n, p, k);
    OnItself(ns1, mp);
    forall i | 0 <= i < |ns1| && ns1[i].key != Nil
      ensures OnChain(ns1, f(ns1[i].key, |ns1|), i)
    {
      if i == n {
        var a := f(ns[mp].key, |ns|);
        var l: nat :| Walk(ns, a, mp, l);
        assert Ends(ns, ns[mp].next);
        var e: nat :| Walk(ns, ns[mp].next, NULL, e);
        if ns[mp].next == mp {
          NoLoop(ns, mp, e);
        }
        MovedTarget(ns, mp, n, p, k, a, l);
      } else if i != mp {
        assert ns1[i].key == ns[i].key;
      }
    }
  }

  lemma MovedShape(ns: seq<Node>, mp: nat, n: nat, p: nat, k: TValue)
    requires Movable(ns, mp, n, p) && k != Nil && ns[mp].key != Nil && ns[p].key != Nil
    ensures FreeUnlinked(Moved(ns, mp, n, p, k)) && OnePredecessor(Moved(ns, mp, n, p, k))
  {
    var ns1 := Moved(ns, mp, n, p, k);
    MovedLinks(ns, mp, n, p, k);
  }

  lemma MovedValues(ns: seq<Node>, mp: nat, n: nat, p: nat, k: TValue)
    requires KeysUnique(ns) && Movable(ns, mp, n, p) && k != Nil && !HasKey(ns, k)
    ensures forall q :: q != k ==> NodeValue(Moved(ns, mp, n, p, k), q) == NodeValue(ns, q)
  {
    var ns1 := Moved(ns, mp, n, p, k);
    forall q | q != k
      ensures NodeValue(ns1, q) == NodeValue(ns, q)
    {
      if q != Nil {
        SameValue(ns, ns1, q, mp, n);
      }
    }
  }
}
