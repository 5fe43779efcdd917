/** How many integer keys fall into which slices, and the size of the array part that follows. */
module Counting {
  import opened Limits
  import opened Powers
  import opened Nodes

  const MAXBITS: nat := 26
  const MAXASIZE: nat := 0x400_0000

  lemma MaxASize()
    ensures Pow2(MAXBITS) == MAXASIZE
  {
    Powers8();
    Pow2Adds(8, 8);
    Pow2Adds(16, 8);
    Pow2Adds(24, 2);
  }

  ghost function IntsIn(s: set<TValue>, lo: int, hi: int): set<TValue> {
    set k | k in s && k.Int? && lo < k.n <= hi
  }

  /** The number of integer keys in (lo, hi]. */
  ghost function Count(s: set<TValue>, lo: int, hi: int): nat {
    |IntsIn(s, lo, hi)|
  }

  lemma CountAdd(s: set<TValue>, k: TValue, lo: int, hi: int)
    requires k !in s
    ensures Count(s + {k}, lo, hi) == Count(s, lo, hi) + if k.Int? && lo < k.n <= hi then 1 else 0
  {
    if k.Int? && lo < k.n <= hi {
      assert IntsIn(s + {k}, lo, hi) == IntsIn(s, lo, hi) + {k};
    } else {
      assert IntsIn(s + {k}, lo, hi) == IntsIn(s, lo, hi);
    }
  }

  lemma CountSplit(s: set<TValue>, a: int, b: int, c: int)
    requires a <= b <= c
    ensures Count(s, a, c) == Count(s, a, b) + Count(s, b, c)
  {
    assert IntsIn(s, a, c) == IntsIn(s, a, b) + IntsIn(s, b, c);
    assert IntsIn(s, a, b) !! IntsIn(s, b, c);
  }

  lemma {:induction false} CountMost(s: set<TValue>, lo: int, hi: int)
    requires lo <= hi
    ensures Count(s, lo, hi) <= hi - lo
    decreases hi - lo
  {
    if lo == hi {
      assert IntsIn(s, lo, hi) == {};
    } else {
      CountMost(s, lo, hi - 1);
      if -MAX_INT - 1 <= hi <= MAX_INT {
        assert IntsIn(s, lo, hi) <= IntsIn(s, lo, hi - 1) + {Int(hi)};
        Smaller(IntsIn(s, lo, hi), IntsIn(s, lo, hi - 1) + {Int(hi)});
      } else {
        assert IntsIn(s, lo, hi) == IntsIn(s, lo, hi - 1);
      }
    }
  }

  lemma {:induction false} Smaller<T>(a: set<T>, b: set<T>)
    requires a <= b
    ensures |a| <= |b|
  {
    if a != {} {
      var x :| x in a;
      Smaller(a - {x}, b - {x});
    }
  }

  /** Slice `i` is (2^(i-1), 2^i]. */
  function SliceLo(i: nat): nat {
    if i == 0 then 0 else Pow2(i - 1)
  }

  /** nums[i] is the number of keys in slice `i`. */
  ghost predicate Tallied(nums: seq<nat>, s: set<TValue>) {
    |nums| == MAXBITS + 1 && forall i :: 0 <= i <= MAXBITS ==> nums[i] == Count(s, SliceLo(i), Pow2(i))
  }

  predicate ArrayCandidate(k: TValue) {
    k.Int? && 0 < k.n <= MAXASIZE
  }

  lemma SliceOf(n: nat, l: nat, i: nat)
    requires 0 < n <= Pow2(l) && (l > 0 ==> Pow2(l - 1) < n)
    ensures SliceLo(i) < n <= Pow2(i) <==> i == l
  {
    if i < l {
      assert Pow2(i) <= Pow2(l - 1) by {
        if i < l - 1 {
          Pow2Grows(i, l - 1);
        }
      }
    }
    if i > l {
      assert Pow2(l) <= Pow2(i - 1) by {
        if l < i - 1 {
          Pow2Grows(l, i - 1);
        }
      }
    }
  }

  lemma TallyOne(nums: seq<nat>, s: set<TValue>, k: TValue, l: nat)
    requires Tallied(nums, s) && k !in s && ArrayCandidate(k)
    requires l <= MAXBITS && k.n <= Pow2(l) && (l > 0 ==> Pow2(l - 1) < k.n)
    ensures Tallied(nums[l := nums[l] + 1], s + {k})
  {
    hide Count;
    forall i | 0 <= i <= MAXBITS
      ensures nums[l := nums[l] + 1][i] == Count(s + {k}, SliceLo(i), Pow2(i))
    {
      SliceOf(k.n, l, i);
      CountAdd(s, k, SliceLo(i), Pow2(i));
    }
  }

  lemma TallyNone(nums: seq<nat>, s: set<TValue>, k: TValue)
    requires Tallied(nums, s) && k !in s && !ArrayCandidate(k)
    ensures Tallied(nums, s + {k}) && Count(s + {k}, 0, MAXASIZE) == Count(s, 0, MAXASIZE)
  {
    hide Count;
    CountAdd(s, k, 0, MAXASIZE);
    MaxASize();
    forall i | 0 <= i <= MAXBITS
      ensures nums[i] == Count(s + {k}, SliceLo(i), Pow2(i))
    {
      CountAdd(s, k, SliceLo(i), Pow2(i));
      if i < MAXBITS {
        Pow2Grows(i, MAXBITS);
      }
    }
  }

  /** countint. */
  method CountInt(k: TValue, nums: array<nat>, ghost s: set<TValue>) returns (c: nat)
    requires Tallied(nums[..], s) && k !in s
    modifies nums
    ensures Tallied(nums[..], s + {k}) && Count(s + {k}, 0, MAXASIZE) == Count(s, 0, MAXASIZE) + c
  {
    hide Count;
    if ArrayCandidate(k) {
      var l := CeilLog2(k.n);
      MaxASize();
      if l > MAXBITS {
        Pow2Mono(MAXBITS, l - 1);
      }
      TallyOne(nums[..], s, k, l);
      CountAdd(s, k, 0, MAXASIZE);
      ghost var was := nums[..];
      nums[l] := nums[l] + 1;
      assert nums[..] == was[l := was[l] + 1];
      c := 1;
    } else {
      TallyNone(nums[..], s, k);
      c := 0;
    }
  }

  lemma Pow2Mono(a: nat, b: nat)
    requires a <= b
    ensures Pow2(a) <= Pow2(b)
  {
    if a < b {
      Pow2Grows(a, b);
    }
  }

  /** More than half of the keys 1..n are present. */
  ghost predicate Dense(s: set<TValue>, n: nat) {
    Count(s, 0, n) > n / 2
  }

  /** `n` is the largest candidate for the size of the array part, or 0 if there is none. */
  ghost predicate BestSize(s: set<TValue>, n: nat) {
    && (n == 0 || (Dense(s, n) && exists i :: 0 <= i <= MAXBITS && n == Pow2(i)))
    && forall i :: 0 <= i <= MAXBITS && Dense(s, Pow2(i)) ==> Pow2(i) <= n
  }

  lemma BestUnique(s: set<TValue>, n: nat, m: nat)
    requires BestSize(s, n) && BestSize(s, m)
    ensures n == m
  {
    hide Dense;
  }

  /** With the best size for the array part, the other keys need more nodes than a table may have. */
  ghost predicate Overflowing(s: set<TValue>) {
    |s| > MAXASIZE && forall n: nat :: BestSize(s, n) ==> |s| - Count(s, 0, n) > MAXASIZE
  }

  lemma OverflowingIs(s: set<TValue>, n: nat)
    requires BestSize(s, n)
    ensures Overflowing(s) <==> |s| - Count(s, 0, n) > MAXASIZE
  {
    hide BestSize;
    hide Count;
    forall m: nat | BestSize(s, m)
      ensures m == n
    {
      BestUnique(s, n, m);
    }
  }

  ghost predicate BestBelow(s: set<TValue>, n: nat, l: nat) {
    && (n == 0 || (Dense(s, n) && exists i :: 0 <= i < l && i <= MAXBITS && n == Pow2(i)))
    && forall i :: 0 <= i < l && i <= MAXBITS && Dense(s, Pow2(i)) ==> Pow2(i) <= n
  }

  lemma BestNext(s: set<TValue>, n: nat, l: nat)
    requires BestBelow(s, n, l) && l <= MAXBITS
    ensures BestBelow(s, if Dense(s, Pow2(l)) then Pow2(l) else n, l + 1)
  {
    hide Dense;
    forall i | 0 <= i < l
      ensures Pow2(i) <= Pow2(l)
    {
      Pow2Grows(i, l);
    }
  }

  lemma CountMono(s: set<TValue>, a: nat, b: nat)
    requires a <= b
    ensures Count(s, 0, a) <= Count(s, 0, b)
  {
    CountSplit(s, 0, a, b);
  }

  /** Larger sizes than `2^l` are too sparse. */
  lemma BestDone(s: set<TValue>, n: nat, l: nat, total: nat)
    requires BestBelow(s, n, l) && total == Count(s, 0, MAXASIZE)
    requires l > MAXBITS || total <= Pow2(l) / 2
    ensures BestSize(s, n)
  {
    hide Count;
    MaxASize();
    forall i | l <= i <= MAXBITS
      ensures !Dense(s, Pow2(i))
    {
      Pow2Mono(l, i);
      Pow2Mono(i, MAXBITS);
      CountMono(s, Pow2(i), MAXASIZE);
    }
  }

  lemma SliceSparse(s: set<TValue>, l: nat)
    requires Count(s, SliceLo(l), Pow2(l)) == 0
    ensures !Dense(s, Pow2(l))
  {
    CountSplit(s, 0, SliceLo(l), Pow2(l));
    CountMost(s, 0, SliceLo(l));
  }

  /** Sizes above 2^(l-1) when all candidates are in 1..2^(l-1) already. */
  lemma AllCounted(s: set<TValue>, n: nat, l: nat, total: nat)
    requires BestBelow(s, n, l) && 0 < l <= MAXBITS + 1 && total == Count(s, 0, MAXASIZE) == Count(s, 0, Pow2(l - 1))
    ensures BestSize(s, n)
  {
    hide Count;
    CountMost(s, 0, Pow2(l - 1));
    if l <= MAXBITS {
      assert Pow2(l) / 2 == Pow2(l - 1);
    }
    BestDone(s, n, l, total);
  }

  /** computesizes: the largest power of two `n` such that more than n/2 of the keys 1..n are present, and how
      many they are. */
  method ComputeSizes(nums: array<nat>, narray: nat, ghost s: set<TValue>) returns (n: nat, na: nat)
    requires Tallied(nums[..], s) && narray == Count(s, 0, MAXASIZE)
    ensures BestSize(s, n) && na == Count(s, 0, n) && n <= MAXASIZE
  {
    hide Count;
    var a := 0;
    var i, twotoi := 0, 1;
    na, n := 0, 0;
    assert Count(s, 0, 0) == 0 by {
      CountMost(s, 0, 0);
    }
    MaxASize();
    CountMost(s, 0, MAXASIZE);
    while twotoi / 2 < narray
      invariant 0 <= i <= MAXBITS + 1 && twotoi == Pow2(i) && a == Count(s, 0, SliceLo(i))
      invariant BestBelow(s, n, i) && na == Count(s, 0, n) && n <= MAXASIZE
      decreases MAXBITS + 1 - i
    {
      assert i <= MAXBITS;
      CountSplit(s, 0, SliceLo(i), twotoi);
      BestNext(s, n, i);
      Pow2Mono(i, MAXBITS);
      assert nums[i] == nums[..][i];
      if nums[i] > 0 {
        a := a + nums[i];
        if a > twotoi / 2 {
          n := twotoi;
          na := a;
        }
      } else {
        SliceSparse(s, i);
      }
      if a == narray {
        AllCounted(s, n, i + 1, narray);
        return;
      }
      i, twotoi := i + 1, twotoi * 2;
    }
    BestDone(s, n, i, narray);
  }
}
