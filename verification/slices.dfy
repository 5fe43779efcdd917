/** Counting the keys of the array part slice by slice, and those of the nodes one by one. */
module Slices {
  import opened Powers
  import opened Nodes
  import opened Counting
  import opened TableValues

  lemma TallyStart(nums: seq<nat>, vals: seq<TValue>)
    requires Tallied(nums, {}) && |vals| <= MAXASIZE
    ensures Tallied(nums, ArrayKeys(vals, 0)) && |ArrayKeys(vals, 0)| == 0
  {
    assert ArrayKeys(vals, 0) == {};
  }

  lemma CountNothing(vals: seq<TValue>, n: nat, lo: int, hi: int)
    requires n <= |vals| <= MAXASIZE && n <= lo
    ensures Count(ArrayKeys(vals, n), lo, hi) == 0
  {
    assert IntsIn(ArrayKeys(vals, n), lo, hi) == {};
  }

  lemma CountNext(vals: seq<TValue>, n: nat, lo: int, hi: int)
    requires n < |vals| <= MAXASIZE && lo <= n < hi
    ensures var c := if vals[n] != Nil then 1 else 0;
      && Count(ArrayKeys(vals, n + 1), lo, hi) == Count(ArrayKeys(vals, n), lo, hi) + c
      && |ArrayKeys(vals, n + 1)| == |ArrayKeys(vals, n)| + c
  {
    hide Count;
    if vals[n] != Nil {
      assert ArrayKeys(vals, n + 1) == ArrayKeys(vals, n) + {Int(n + 1)};
      CountAdd(ArrayKeys(vals, n), Int(n + 1), lo, hi);
    } else {
      assert ArrayKeys(vals, n + 1) == ArrayKeys(vals, n);
    }
  }

  lemma SliceTallied(nums: seq<nat>, vals: seq<TValue>, lg: nat, n: nat, lc: nat)
    requires lg <= MAXBITS && SliceLo(lg) <= n <= |vals| <= MAXASIZE && n <= Pow2(lg)
    requires Tallied(nums, ArrayKeys(vals, SliceLo(lg))) && lc == Count(ArrayKeys(vals, n), SliceLo(lg), Pow2(lg))
    ensures Tallied(nums[lg := nums[lg] + lc], ArrayKeys(vals, n))
  {
    hide Count;
    var a := SliceLo(lg);
    forall i | 0 <= i <= MAXBITS
      ensures nums[lg := nums[lg] + lc][i] == Count(ArrayKeys(vals, n), SliceLo(i), Pow2(i))
    {
      if i == lg {
        CountNothing(vals, a, a, Pow2(lg));
      } else {
        SliceOther(vals, lg, n, i);
      }
    }
  }

  lemma SliceOther(vals: seq<TValue>, lg: nat, n: nat, i: nat)
    requires SliceLo(lg) <= n <= |vals| <= MAXASIZE && n <= Pow2(lg) && i != lg
    ensures Count(ArrayKeys(vals, n), SliceLo(i), Pow2(i)) == Count(ArrayKeys(vals, SliceLo(lg)), SliceLo(i), Pow2(i))
  {
    hide Count;
    hide ArrayKeys;
    SlicesApart(lg, i);
    hide SliceLo;
    hide Pow2;
    var a := SliceLo(lg);
    if i < lg {
      SameBelow(vals, a, n, SliceLo(i), Pow2(i));
    } else {
      CountNothing(vals, n, SliceLo(i), Pow2(i));
      CountNothing(vals, a, SliceLo(i), Pow2(i));
    }
  }

  lemma SlicesApart(lg: nat, i: nat)
    ensures i < lg ==> Pow2(i) <= SliceLo(lg)
    ensures lg < i ==> Pow2(lg) <= SliceLo(i)
  {
    if i < lg {
      Pow2Mono(i, lg - 1);
    } else if lg < i {
      Pow2Mono(lg, i - 1);
    }
  }

  lemma SameBelow(vals: seq<TValue>, a: nat, n: nat, lo: int, hi: int)
    requires hi <= a <= n <= |vals| <= MAXASIZE
    ensures Count(ArrayKeys(vals, n), lo, hi) == Count(ArrayKeys(vals, a), lo, hi)
  {
    assert IntsIn(ArrayKeys(vals, n), lo, hi) == IntsIn(ArrayKeys(vals, a), lo, hi);
  }

  lemma AllCandidates(vals: seq<TValue>)
    requires |vals| <= MAXASIZE
    ensures Count(ArrayKeys(vals, |vals|), 0, MAXASIZE) == |ArrayKeys(vals, |vals|)|
  {
    assert IntsIn(ArrayKeys(vals, |vals|), 0, MAXASIZE) == ArrayKeys(vals, |vals|);
  }

  /** The keys of the array part and of the nodes from `i` on. */
  ghost function Counted(t: TableValue, i: nat): set<TValue>
    requires |t.arr| <= MAXASIZE
  {
    ArrayKeys(t.arr, |t.arr|) + NodeKeys(t.ns, i)
  }

  /** The key of a live node is counted once. */
  lemma NodeCounted(f: Hash, t: TableValue, i: nat)
    requires TableInv(f, t) && i < |t.ns|
    ensures t.ns[i].val != Nil ==> t.ns[i].key !in Counted(t, i + 1) && Counted(t, i) == Counted(t, i + 1) + {t.ns[i].key}
    ensures t.ns[i].val != Nil ==> |Counted(t, i)| == |Counted(t, i + 1)| + 1
    ensures t.ns[i].val == Nil ==> Counted(t, i) == Counted(t, i + 1)
  {
    hide Chained;
    hide HomesHeld;
    hide Acyclic;
    hide OnePredecessor;
    if t.ns[i].val != Nil {
      assert NodeKeys(t.ns, i) == NodeKeys(t.ns, i + 1) + {t.ns[i].key};
    } else {
      assert NodeKeys(t.ns, i) == NodeKeys(t.ns, i + 1);
    }
  }

  lemma CountedEnds(t: TableValue)
    requires |t.arr| <= MAXASIZE
    ensures Counted(t, |t.ns|) == ArrayKeys(t.arr, |t.arr|) && Counted(t, 0) == Present(t)
  {
  }
}
