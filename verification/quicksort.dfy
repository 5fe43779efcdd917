/** table.sort: quicksort on the slots of a table, in place. */
module Quicksort {
  import opened Powers

  /** The order that table.sort asks for: a strict weak order. */
  ghost predicate StrictWeak<T(!new)>(lt: (T, T) -> bool) {
    && (forall x, y :: lt(x, y) ==> !lt(y, x))
    && (forall x, y, z :: !lt(y, x) && !lt(z, y) ==> !lt(z, x))
  }

  /** The elements of `s` from `l` to `u` are in order. */
  ghost predicate Sorted<T>(s: seq<T>, l: int, u: int, lt: (T, T) -> bool) {
    forall x, y :: 0 <= l <= x < y <= u < |s| ==> !lt(s[y], s[x])
  }

  /** `s1` permutes the elements of `s` from `l` to `u`, and keeps the others. */
  ghost predicate Permutes<T>(s: seq<T>, s1: seq<T>, l: int, u: int) {
    && |s1| == |s| && multiset(s1) == multiset(s)
    && forall k :: 0 <= k < |s| && !(l <= k <= u) ==> s1[k] == s[k]
  }

  lemma PermutesRefl<T>(s: seq<T>, l: int, u: int)
    ensures Permutes(s, s, l, u)
  {
  }

  lemma PermutesTrans<T>(s: seq<T>, s1: seq<T>, s2: seq<T>, l: int, u: int)
    requires Permutes(s, s1, l, u) && Permutes(s1, s2, l, u)
    ensures Permutes(s, s2, l, u)
  {
  }

  function Swapped<T>(s: seq<T>, i: nat, j: nat): seq<T>
    requires i < |s| && j < |s|
  {
    s[i := s[j]][j := s[i]]
  }

  lemma SwappedAt<T>(s: seq<T>, i: nat, j: nat, k: nat)
    requires i < |s| && j < |s| && k < |s| && k != i && k != j
    ensures |Swapped(s, i, j)| == |s| && Swapped(s, i, j)[k] == s[k] && Swapped(s, i, j)[j] == s[i]
  {
  }

  lemma SwapPermutes<T>(s: seq<T>, i: nat, j: nat, l: int, u: int)
    requires i < |s| && j < |s| && l <= i <= u && l <= j <= u
    ensures Permutes(s, Swapped(s, i, j), l, u)
  {
    var s1 := Swapped(s, i, j);
    assert multiset(s1) == multiset(s);
  }

  lemma Cancel<T>(a: multiset<T>, b: multiset<T>, c: multiset<T>, d: multiset<T>)
    requires a + b + c == a + d + c
    ensures b == d
  {
    assert (a + b + c) - a - c == b;
    assert (a + d + c) - a - c == d;
  }

  lemma MiddleOf<T>(s: seq<T>, l: nat, u: nat)
    requires l <= u <= |s|
    ensures multiset(s) == multiset(s[..l]) + multiset(s[l..u]) + multiset(s[u..])
  {
    assert s == s[..l] + s[l..u] + s[u..];
  }

  lemma MiddlePermuted<T>(s: seq<T>, s1: seq<T>, l: nat, u: int)
    requires Permutes(s, s1, l, u) && l <= u < |s|
    ensures |s1| == |s| && multiset(s1[l..u + 1]) == multiset(s[l..u + 1])
  {
    assert s1[..l] == s[..l];
    assert s1[u + 1..] == s[u + 1..];
    MiddleOf(s, l, u + 1);
    MiddleOf(s1, l, u + 1);
    Cancel(multiset(s[..l]), multiset(s[l..u + 1]), multiset(s[u + 1..]), multiset(s1[l..u + 1]));
  }

  lemma InMiddle<T>(s: seq<T>, l: nat, u: nat, x: T)
    requires l <= u < |s| && x in s[l..u + 1]
    ensures exists m :: l <= m <= u && x == s[m]
  {
    var b := s[l..u + 1];
    var m :| 0 <= m < |b| && b[m] == x;
    assert s[l + m] == x;
  }

  /** Elements that are permuted among themselves keep any bound. */
  lemma PermutedFrom<T>(s: seq<T>, s1: seq<T>, l: nat, u: int, k: nat)
    requires Permutes(s, s1, l, u) && l <= k <= u < |s|
    ensures exists m :: l <= m <= u && s1[k] == s[m]
  {
    MiddlePermuted(s, s1, l, u);
    hide Permutes;
    var b, b1 := s[l..u + 1], s1[l..u + 1];
    assert s1[k] == b1[k - l] && s1[k] in multiset(b1);
    assert s1[k] in multiset(b);
    InMiddle(s, l, u, s1[k]);
  }

  /** Slots outside [l, u] are in their final order with all others. */
  ghost predicate Settled<T>(s: seq<T>, low: int, high: int, l: int, u: int, lt: (T, T) -> bool) {
    forall x, y :: 0 <= low <= x < y <= high < |s| && (x < l || y > u) ==> !lt(s[y], s[x])
  }

  /** Permuting the rest keeps that. */
  lemma SettledPermuted<T>(s: seq<T>, s1: seq<T>, low: nat, high: int, l: int, u: int, lt: (T, T) -> bool)
    requires Settled(s, low, high, l, u, lt) && Permutes(s, s1, l, u) && low <= l && u <= high < |s|
    ensures Settled(s1, low, high, l, u, lt)
  {
    forall x, y | low <= x < y <= high && (x < l || y > u)
      ensures !lt(s1[y], s1[x])
    {
      var x0, y0 := x, y;
      if l <= x <= u {
        PermutedFrom(s, s1, l, u, x);
        x0 :| l <= x0 <= u && s1[x] == s[x0];
      }
      if l <= y <= u {
        PermutedFrom(s, s1, l, u, y);
        y0 :| l <= y0 <= u && s1[y] == s[y0];
      }
      assert x0 < y0;
    }
  }

  /** The pivot is in its place. */
  ghost predicate Split<T>(s: seq<T>, l: int, i: int, u: int, lt: (T, T) -> bool) {
    && 0 <= l <= i <= u < |s|
    && (forall k :: l <= k < i ==> !lt(s[i], s[k]))
    && (forall k :: i < k <= u ==> !lt(s[k], s[i]))
  }

  /** After one side has been sorted only the other one is left. */
  lemma SideSorted<T(!new)>(s: seq<T>, s1: seq<T>, low: nat, high: int, l: nat, u: int, i: int, left: bool, lt: (T, T) -> bool)
    requires StrictWeak(lt) && Settled(s, low, high, l, u, lt) && low <= l && u <= high < |s| && Split(s, l, i, u, lt)
    requires if left then Permutes(s, s1, l, i - 1) && Sorted(s1, l, i - 1, lt) else Permutes(s, s1, i + 1, u) && Sorted(s1, i + 1, u, lt)
    ensures if left then Settled(s1, low, high, i + 1, u, lt) else Settled(s1, low, high, l, i - 1, lt)
  {
    SettledPermuted(s, s1, low, high, l, u, lt);
    SplitPermuted(s, s1, l, i, u, left, lt);
  }

  lemma SplitPermuted<T>(s: seq<T>, s1: seq<T>, l: nat, i: int, u: int, left: bool, lt: (T, T) -> bool)
    requires Split(s, l, i, u, lt) && if left then Permutes(s, s1, l, i - 1) else Permutes(s, s1, i + 1, u)
    ensures Split(s1, l, i, u, lt)
  {
    forall k | l <= k < i
      ensures !lt(s1[i], s1[k])
    {
      if left {
        PermutedFrom(s, s1, l, i - 1, k);
      }
    }
    forall k | i < k <= u
      ensures !lt(s1[k], s1[i])
    {
      if !left {
        PermutedFrom(s, s1, i + 1, u, k);
      }
    }
  }

  /** set2, after two rawgeti: swaps two slots. */
  method Swap<T>(a: array<T>, i: nat, j: nat)
    requires i < a.Length && j < a.Length
    modifies a
    ensures a[..] == Swapped(old(a[..]), i, j)
  {
    a[i], a[j] := a[j], a[i];
  }

  /** Puts a[l] and a[u] in order. */
  method OrderEnds<T(!new)>(a: array<T>, l: nat, u: nat, lt: (T, T) -> bool)
    requires StrictWeak(lt) && l < u < a.Length
    modifies a
    ensures Permutes(old(a[..]), a[..], l, u) && !lt(a[u], a[l])
  {
    hide *;
    ghost var s := a[..];
    if lt(a[u], a[l]) {
      SwapPermutes(s, l, u, l, u);
      Swap(a, l, u);
      Asymmetric(s, a[..], l, u, lt);
    } else {
      PermutesRefl(s, l, u);
    }
  }

  lemma Asymmetric<T(!new)>(s: seq<T>, s1: seq<T>, l: nat, u: nat, lt: (T, T) -> bool)
    requires StrictWeak(lt) && l < |s| && u < |s| && lt(s[u], s[l]) && s1 == Swapped(s, l, u)
    ensures !lt(s1[u], s1[l])
  {
  }

  /** The median of three, for at least four elements; the pivot ends up next to the last one. */
  method Pivot<T(!new)>(a: array<T>, l: nat, u: nat, lt: (T, T) -> bool)
    requires StrictWeak(lt) && l + 2 < u < a.Length && !lt(a[u], a[l])
    modifies a
    ensures Permutes(old(a[..]), a[..], l, u) && !lt(a[u - 1], a[l]) && !lt(a[u], a[u - 1])
  {
    hide *;
    ghost var s0 := a[..];
    var i := (l + u) / 2;
    MedianOfThree(a, l, u, lt);
    ghost var s1 := a[..];
    SwappedAt(s1, i, u - 1, l);
    SwappedAt(s1, i, u - 1, u);
    Swap(a, i, u - 1);
    SwapPermutes(s1, i, u - 1, l, u);
    PermutesTrans(s0, s1, a[..], l, u);
  }

  /** Sorts a[l], a[(l+u)/2] and a[u], of which the first and the last are in order. */
  method MedianOfThree<T(!new)>(a: array<T>, l: nat, u: nat, lt: (T, T) -> bool)
    requires StrictWeak(lt) && l + 1 < u < a.Length && !lt(a[u], a[l])
    modifies a
    ensures Permutes(old(a[..]), a[..], l, u)
    ensures var i := (l + u) / 2; !lt(a[i], a[l]) && !lt(a[u], a[i]) && !lt(a[u], a[l])
  {
    ghost var s0 := a[..];
    PermutesRefl(s0, l, u);
    var i := (l + u) / 2;
    if lt(a[i], a[l]) {
      SwapPermutes(s0, i, l, l, u);
      Swap(a, i, l);
    } else if lt(a[u], a[i]) {
      SwapPermutes(s0, i, u, l, u);
      Swap(a, i, u);
    }
  }

  /** "repeat ++i until a[i] >= P": `stop` is a slot where the search ends, so that the error is not reached. */
  method ScanUp<T(!new)>(a: array<T>, i0: nat, u: nat, p: T, ghost stop: nat, lt: (T, T) -> bool) returns (i: nat)
    requires i0 < stop <= u < a.Length && !lt(a[stop], p)
    ensures i0 < i <= stop && !lt(a[i], p) && forall k :: i0 < k < i ==> lt(a[k], p)
  {
    i := i0 + 1;
    while lt(a[i], p)
      invariant i0 < i <= stop && forall k :: i0 < k < i ==> lt(a[k], p)
      decreases stop - i
    {
      assert i <= u;
      i := i + 1;
    }
  }

  /** "repeat --j until a[j] <= P". */
  method ScanDown<T(!new)>(a: array<T>, j0: nat, l: nat, p: T, ghost stop: nat, lt: (T, T) -> bool) returns (j: nat)
    requires l <= stop < j0 < a.Length && !lt(p, a[stop])
    ensures stop <= j < j0 && !lt(p, a[j]) && forall k :: j < k < j0 ==> lt(p, a[k])
  {
    j := j0 - 1;
    while lt(p, a[j])
      invariant stop <= j < j0 && forall k :: j < k < j0 ==> lt(p, a[k])
      decreases j
    {
      assert j >= l;
      j := j - 1;
    }
  }

  /** a[l..i] <= P <= a[j..u]. */
  ghost predicate Parted<T>(s: seq<T>, l: int, i: int, j: int, u: int, p: T, lt: (T, T) -> bool) {
    && 0 <= l <= i <= u < |s| && l <= j <= u
    && (forall k :: l <= k <= i ==> !lt(p, s[k]))
    && (forall k :: j <= k <= u ==> !lt(s[k], p))
  }

  /** The partition: on return the pivot is at `i`. */
  method Partition<T(!new)>(a: array<T>, l: nat, u: nat, lt: (T, T) -> bool) returns (i: nat)
    requires StrictWeak(lt) && l + 2 < u < a.Length && !lt(a[u - 1], a[l]) && !lt(a[u], a[u - 1])
    modifies a
    ensures Permutes(old(a[..]), a[..], l, u) && l < i < u && Split(a[..], l, i, u, lt)
  {
    hide *;
    ghost var s0 := a[..];
    PermutesRefl(s0, l, u);
    var p := a[u - 1];
    var j := u - 1;
    i := l;
    PartedAtFirst(s0, l, u, lt);
    while true
      invariant l <= i <= j <= u - 1 && (i == j ==> l < i < u - 1) && a[u - 1] == p && Permutes(s0, a[..], l, u)
      invariant Parted(a[..], l, i, j, u, p, lt)
      decreases j - i + 1
    {
      ghost var i0, j0 := i, j;
      ghost var up, down := if i < j then j else i + 1, if i < j then i else j - 1;
      Stops(a[..], l, i, j, u, up, down, p, lt);
      i := ScanUp(a, i, u, p, up, lt);
      j := ScanDown(a, j, l, p, down, lt);
      Scanned(a[..], l, i0, j0, u, i, j, p, lt);
      if j < i {
        break;
      }
      SwapParted(a[..], l, i, j, u, p, lt);
      SwapPermutes(a[..], i, j, l, u);
      PermutesTrans(s0, a[..], Swapped(a[..], i, j), l, u);
      SwappedAt(a[..], i, j, u - 1);
      Swap(a, i, j);
    }
    PivotPlaced(a[..], l, i, j, u, p, lt);
    SwapPermutes(a[..], u - 1, i, l, u);
    PermutesTrans(s0, a[..], Swapped(a[..], u - 1, i), l, u);
    Swap(a, u - 1, i);
  }

  lemma PartedAtFirst<T(!new)>(s: seq<T>, l: nat, u: nat, lt: (T, T) -> bool)
    requires StrictWeak(lt) && l + 2 < u < |s| && !lt(s[u - 1], s[l]) && !lt(s[u], s[u - 1])
    ensures Parted(s, l, l, u - 1, u, s[u - 1], lt)
  {
  }

  /** The slots where the scans stop at the latest. */
  lemma Stops<T(!new)>(s: seq<T>, l: nat, i: nat, j: nat, u: nat, up: nat, down: int, p: T, lt: (T, T) -> bool)
    requires Parted(s, l, i, j, u, p, lt) && l <= i <= j <= u - 1 && (i == j ==> l < i < u - 1)
    requires up == (if i < j then j else i + 1) && down == (if i < j then i else j - 1)
    ensures i < up <= u - 1 && !lt(s[up], p) && l <= down < j && !lt(p, s[down])
  {
  }

  /** After both scans everything below `i` and above `j` is on its side, and so are a[i] and a[j]. */
  lemma Scanned<T(!new)>(s: seq<T>, l: nat, i0: nat, j0: nat, u: nat, i: nat, j: nat, p: T, lt: (T, T) -> bool)
    requires Parted(s, l, i0, j0, u, p, lt) && i0 <= j0 <= u - 1 && i0 < i < u && l <= j < j0 && StrictWeak(lt)
    requires (forall k :: i0 < k < i ==> lt(s[k], p)) && forall k :: j < k < j0 ==> lt(p, s[k])
    ensures Parted(s, l, i - 1, j + 1, u, p, lt)
  {
    forall k | l <= k <= i - 1
      ensures !lt(p, s[k])
    {
      assert k > i0 ==> lt(s[k], p);
    }
    forall k | j + 1 <= k <= u
      ensures !lt(s[k], p)
    {
      assert k < j0 ==> lt(p, s[k]);
    }
  }

  lemma SwapParted<T(!new)>(s: seq<T>, l: nat, i: nat, j: nat, u: nat, p: T, lt: (T, T) -> bool)
    requires Parted(s, l, i - 1, j + 1, u, p, lt) && l < i <= j < u && !lt(s[i], p) && !lt(p, s[j])
    ensures Parted(Swapped(s, i, j), l, i, j, u, p, lt)
  {
  }

  lemma PivotPlaced<T(!new)>(s: seq<T>, l: nat, i: nat, j: nat, u: nat, p: T, lt: (T, T) -> bool)
    requires Parted(s, l, i - 1, j + 1, u, p, lt) && l < i < u && j < i && !lt(s[i], p) && s[u - 1] == p
    ensures Split(Swapped(s, u - 1, i), l, i, u, lt)
  {
    var s1 := Swapped(s, u - 1, i);
    assert s1[i] == p;
    forall k | i < k <= u
      ensures !lt(s1[k], s1[i])
    {
      assert s1[k] == s[k] || s1[k] == s[i];
    }
  }

  /** Chooses a pivot and partitions. */
  method Divide<T(!new)>(a: array<T>, l: nat, u: nat, lt: (T, T) -> bool) returns (i: nat)
    requires StrictWeak(lt) && l + 2 < u < a.Length && !lt(a[u], a[l])
    modifies a
    ensures Permutes(old(a[..]), a[..], l, u) && l < i < u && Split(a[..], l, i, u, lt)
  {
    hide *;
    ghost var s := a[..];
    Pivot(a, l, u, lt);
    ghost var s1 := a[..];
    i := Partition(a, l, u, lt);
    PermutesTrans(s, s1, a[..], l, u);
  }

  // ---- the recursion ----

  /** auxsort: sorts the slots from `l` to `u`. `depth` is how deep the calls are nested: it is at most
      1 + log2(n) for n elements. */
  method AuxSort<T(!new)>(a: array<T>, low: nat, high: int, lt: (T, T) -> bool) returns (depth: nat)
    requires StrictWeak(lt) && high < a.Length && low <= high + 1
    modifies a
    ensures Permutes(old(a[..]), a[..], low, high) && Sorted(a[..], low, high, lt)
    ensures depth > 0 && Shallow(depth, high - low + 1)
    decreases high - low + 1
  {
    hide *;
    ghost var s0 := a[..];
    var l, u: int := low, high;
    depth := 1;
    Start(s0, low, high, lt);
    while l < u
      invariant low <= l <= u + 1 && u <= high && Permutes(s0, a[..], low, high) && Settled(a[..], low, high, l, u, lt)
      invariant depth > 0 && Shallow(depth, high - low + 1)
      decreases u - l
    {
      ghost var s1, l1, u1 := a[..], l, u;
      OrderEnds(a, l, u, lt);
      ghost var s2 := a[..];
      Advance(s0, s1, s2, low, high, l, u, lt);
      if u - l == 1 {
        TwoSorted(s2, low, high, l, u, lt);
        return;
      }
      if u - l == 2 {
        MedianOfThree(a, l, u, lt);
        Advance(s0, s2, a[..], low, high, l, u, lt);
        ThreeSorted(a[..], low, high, l, u, lt);
        return;
      }
      var i: int := Divide(a, l, u, lt);
      ghost var s4, split, left := a[..], i, i - l < u - i;
      Advance(s0, s2, s4, low, high, l, u, lt);
      var j: int;
      if i - l < u - i {
        j := l;
        i := i - 1;
        l := i + 2;
      } else {
        j := i + 1;
        i := u;
        u := j - 2;
      }
      var d := AuxSort(a, j, i, lt);
      SideSorted(s4, a[..], low, high, l1, u1, split, left, lt);
      Nested(s0, s4, a[..], low, high, j, i, l1, u1);
      Deeper(d, depth, i - j + 1, high - low + 1);
      depth := if d + 1 > depth then d + 1 else depth;
    }
    Finish(a[..], low, high, l, u, lt);
  }

  /** Calls for `n` elements are nested at most 1 + log2(n) deep. */
  ghost predicate Shallow(depth: nat, n: int) {
    Pow2(depth) <= 2 * if n > 0 then n else 1
  }

  lemma Deeper(d: nat, depth: nat, m: int, n: int)
    requires Shallow(d, m) && Shallow(depth, n) && n >= 4 && 2 * m <= n - 1
    ensures Shallow(if d + 1 > depth then d + 1 else depth, n)
  {
  }

  lemma Start<T>(s: seq<T>, low: nat, high: int, lt: (T, T) -> bool)
    ensures Permutes(s, s, low, high) && Settled(s, low, high, low, high, lt) && Shallow(1, high - low + 1)
  {
  }

  lemma Advance<T>(s0: seq<T>, s1: seq<T>, s2: seq<T>, low: nat, high: int, l: nat, u: int, lt: (T, T) -> bool)
    requires Permutes(s0, s1, low, high) && Settled(s1, low, high, l, u, lt) && Permutes(s1, s2, l, u) && low <= l && u <= high < |s1|
    ensures Permutes(s0, s2, low, high) && Settled(s2, low, high, l, u, lt)
  {
    PermutesTrans(s0, s1, s2, low, high);
    SettledPermuted(s1, s2, low, high, l, u, lt);
  }

  lemma TwoSorted<T>(s: seq<T>, low: nat, high: int, l: nat, u: int, lt: (T, T) -> bool)
    requires Settled(s, low, high, l, u, lt) && u == l + 1 && low <= l && u <= high < |s| && !lt(s[u], s[l])
    ensures Sorted(s, low, high, lt)
  {
  }

  lemma ThreeSorted<T>(s: seq<T>, low: nat, high: int, l: nat, u: int, lt: (T, T) -> bool)
    requires Settled(s, low, high, l, u, lt) && u == l + 2 && low <= l && u <= high < |s|
    requires !lt(s[l + 1], s[l]) && !lt(s[u], s[l + 1]) && !lt(s[u], s[l])
    ensures Sorted(s, low, high, lt)
  {
  }

  lemma Finish<T>(s: seq<T>, low: nat, high: int, l: nat, u: int, lt: (T, T) -> bool)
    requires Settled(s, low, high, l, u, lt) && l >= u
    ensures Sorted(s, low, high, lt)
  {
  }

  lemma Nested<T>(s0: seq<T>, s4: seq<T>, s5: seq<T>, low: nat, high: int, j: int, i: int, l: int, u: int)
    requires Permutes(s0, s4, low, high) && Permutes(s4, s5, j, i) && low <= l <= j && i <= u <= high
    ensures Permutes(s0, s5, low, high)
  {
    PermutesTrans(s0, s4, s5, low, high);
  }

  /** table.sort: the slots 1..n of the array end up as a sorted permutation of themselves. */
  method Sort<T(!new)>(a: array<T>, n: nat, lt: (T, T) -> bool) returns (depth: nat)
    requires StrictWeak(lt) && n < a.Length
    modifies a
    ensures Permutes(old(a[..]), a[..], 1, n) && Sorted(a[..], 1, n, lt)
    ensures n > 0 ==> depth > 0 && Pow2(depth - 1) <= n
  {
    depth := AuxSort(a, 1, n, lt);
  }
}
