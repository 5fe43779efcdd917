/** Powers of two and the integer logarithm of lobject.c. */
module Powers {

  function Pow2(n: nat): (p: nat)
    ensures p > n
  {
    if n == 0 then 1 else 2 * Pow2(n - 1)
  }

  lemma {:induction false} Pow2Grows(a: nat, b: nat)
    requires a < b
    ensures 2 * Pow2(a) <= Pow2(b)
    decreases b
  {
    if a < b - 1 {
      Pow2Grows(a, b - 1);
    }
  }

  lemma {:induction false} Pow2Adds(a: nat, b: nat)
    ensures Pow2(a + b) == Pow2(a) * Pow2(b)
    decreases b
  {
    if b > 0 {
      Pow2Adds(a, b - 1);
    }
  }

  /** The table `log_2`: one more than the logarithm, and 0 for 0. */
  const LOG_2: seq<nat> :=
    [0, 1, 2, 2, 3, 3, 3, 3] + seq(8, i => 4) + seq(16, i => 5) + seq(32, i => 6) + seq(64, i => 7) + seq(128, i => 8)

  lemma Powers8()
    ensures Pow2(1) == 2 && Pow2(2) == 4 && Pow2(3) == 8 && Pow2(4) == 16
    ensures Pow2(5) == 32 && Pow2(6) == 64 && Pow2(7) == 128 && Pow2(8) == 256
  {
    assert Pow2(2) == 4;
    assert Pow2(4) == 16;
    assert Pow2(6) == 64;
    assert Pow2(8) == 256;
  }

  lemma Log2Table(x: nat)
    requires 0 < x < 256
    ensures |LOG_2| == 256 && 0 < LOG_2[x] && Pow2(LOG_2[x] - 1) <= x < Pow2(LOG_2[x])
  {
    Powers8();
  }

  /** luaO_log2: the exponent of the largest power of two that is not above `x`, and -1 for 0. */
  method Log2(x: nat) returns (l: int)
    ensures x == 0 ==> l == -1
    ensures x > 0 ==> l >= 0 && Pow2(l) <= x < Pow2(l + 1)
  {
    l := -1;
    var y := x;
    while y >= 256
      invariant -1 <= l && (x > 0 ==> y > 0) && (x == 0 ==> y == 0 && l == -1)
      invariant y * Pow2(l + 1) <= x < (y + 1) * Pow2(l + 1)
    {
      ShiftByte(x, y, Pow2(l + 1));
      Powers8();
      Pow2Adds(l + 1, 8);
      l := l + 8;
      y := y / 256;
    }
    if y > 0 {
      Log2Table(y);
      ghost var m := LOG_2[y];
      Scale(x, y, Pow2(l + 1), Pow2(m - 1), Pow2(m));
      Pow2Adds(l + 1, m - 1);
      Pow2Adds(l + 1, m);
    }
    l := l + LOG_2[y];
  }

  lemma MulMono(a: nat, b: nat, p: nat)
    requires a <= b
    ensures a * p <= b * p
  {
  }

  lemma ShiftByte(x: nat, y: nat, p: nat)
    requires y * p <= x < (y + 1) * p
    ensures (y / 256) * (p * 256) <= x < (y / 256 + 1) * (p * 256)
  {
    var q := y / 256;
    MulMono(q * 256, y, p);
    MulMono(y + 1, (q + 1) * 256, p);
  }

  lemma Scale(x: nat, y: nat, p: nat, lo: nat, hi: nat)
    requires y * p <= x < (y + 1) * p && lo <= y < hi
    ensures p * lo <= x < p * hi
  {
    MulMono(lo, y, p);
    MulMono(y + 1, hi, p);
  }

  /** The macro ceillog2. */
  method CeilLog2(x: nat) returns (l: nat)
    requires x > 0
    ensures x <= Pow2(l) && (l > 0 ==> Pow2(l - 1) < x)
  {
    var m := Log2(x - 1);
    l := m + 1;
  }
}
