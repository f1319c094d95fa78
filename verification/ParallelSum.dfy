/** Arithmetic shared by the three parallel sums: 0 + 1 + ... split into one block for each thread. */
module ParallelSum {

  /** start + (start + 1) + ... + (end - 1) */
  function RangeSum(start: nat, end: nat): nat {
    if end <= start then 0 else RangeSum(start, end - 1) + (end - 1)
  }

  lemma {:induction false} RangeSumSplit(a: nat, b: nat, c: nat)
    requires a <= b <= c
    ensures RangeSum(a, c) == RangeSum(a, b) + RangeSum(b, c)
  {
    if b < c {
      RangeSumSplit(a, b, c - 1);
    }
  }

  lemma {:induction false} RangeSumClosed(m: nat)
    ensures 2 * RangeSum(0, m) == m * (m - 1)
  {
    if m > 0 {
      RangeSumClosed(m - 1);
    }
  }

  /** The value the programs check their result against. */
  function Expected(nelems: nat): int {
    (nelems * (nelems - 1)) / 2
  }

  lemma RangeSumExpected(m: nat)
    ensures RangeSum(0, m) == Expected(m)
  {
    RangeSumClosed(m);
  }

  /** The sum of the first `n` blocks of `per` elements each. */
  function BlockSums(n: nat, per: nat): nat {
    if n == 0 then 0 else BlockSums(n - 1, per) + RangeSum((n - 1) * per, n * per)
  }

  lemma {:induction false} BlockSumsTogether(n: nat, per: nat)
    ensures BlockSums(n, per) == RangeSum(0, n * per)
  {
    if n > 0 {
      BlockSumsTogether(n - 1, per);
      assert (n - 1) * per <= n * per;
      RangeSumSplit(0, (n - 1) * per, n * per);
    }
  }

  /** A block of a thread lies within the elements. */
  lemma BlockWithin(t: nat, nthreads: nat, per: nat, nelems: nat)
    requires t < nthreads && nthreads * per <= nelems
    ensures t * per + per <= nelems
  {
    assert t * per + per == (t + 1) * per;
    assert (nthreads - (t + 1)) * per >= 0;
  }

  lemma RangeSumMonotone(a: nat, b: nat, c: nat, d: nat)
    requires a <= b <= c <= d
    ensures RangeSum(b, c) <= RangeSum(a, d)
  {
    RangeSumSplit(a, b, d);
    RangeSumSplit(b, c, d);
  }

  // ---- the argument guard of the array and local variants

  function Pow2(k: nat): (p: nat)
    ensures p >= 1
  {
    if k == 0 then 1 else 2 * Pow2(k - 1)
  }

  lemma {:induction false} Pow2Splits(j: nat, k: nat)
    requires j <= k
    ensures Pow2(k) == Pow2(j) * Pow2(k - j)
  {
    if j > 0 {
      Pow2Splits(j - 1, k - 1);
    }
  }

  lemma {:induction false} Pow2Grows(j: nat, k: nat)
    requires j <= k
    ensures Pow2(j) <= Pow2(k)
  {
    if j < k {
      Pow2Grows(j, k - 1);
    }
  }

  /** A factor of a power of two is one. */
  lemma {:induction false} FactorIsPower(d: nat, q: nat, k: nat) returns (j: nat)
    requires d * q == Pow2(k)
    ensures j <= k && d == Pow2(j)
  {
    if k == 0 {
      assert d == 1;
      j := 0;
    } else if d % 2 == 0 {
      assert d == 2 * (d / 2);
      assert (d / 2) * q == Pow2(k - 1);
      j := FactorIsPower(d / 2, q, k - 1);
      j := j + 1;
    } else {
      OddFactor(d, q, Pow2(k - 1));
      assert d * (q / 2) == Pow2(k - 1);
      j := FactorIsPower(d, q / 2, k - 1);
    }
  }

  lemma OddTimesOdd(d: nat, q: nat)
    requires d % 2 == 1 && q % 2 == 1
    ensures (d * q) % 2 == 1
  {
    var a, b := d / 2, q / 2;
    assert d * q == 2 * (2 * a * b + a + b) + 1;
  }

  lemma OddFactor(d: nat, q: nat, half: nat)
    requires d % 2 == 1 && d * q == 2 * half
    ensures q % 2 == 0 && q == 2 * (q / 2)
  {
    if q % 2 == 1 {
      OddTimesOdd(d, q);
    }
  }

  /** The guard of the array and local variants, which lets the program go on. */
  predicate Accepted(nthreads: nat, logNelems: nat)
    requires nthreads >= 1
  {
    !(Pow2(logNelems) % nthreads != 0 || logNelems > 31)
  }

  /** It accepts exactly the powers of two up to the number of elements, for at most 2^31 elements. */
  lemma AcceptedExactly(nthreads: nat, logNelems: nat)
    requires nthreads >= 1
    ensures Accepted(nthreads, logNelems)
       <==> logNelems <= 31 && exists j :: 0 <= j <= logNelems && nthreads == Pow2(j)
  {
    var n := Pow2(logNelems);
    if Accepted(nthreads, logNelems) {
      assert nthreads * (n / nthreads) == n;
      var j := FactorIsPower(nthreads, n / nthreads, logNelems);
    } else if logNelems <= 31 {
      if j :| 0 <= j <= logNelems && nthreads == Pow2(j) {
        Pow2Splits(j, logNelems);
        MultipleHasNoRemainder(nthreads, Pow2(logNelems - j));
      }
    }
  }

  lemma MultipleHasNoRemainder(d: nat, q: nat)
    requires d >= 1
    ensures (d * q) % d == 0 && (d * q) / d == q
  {
    var x := d * q;
    var k := q - x / d;
    assert d * k == x % d;
    ScaleKeepsApart(d, k);
  }

  lemma ScaleKeepsApart(d: nat, k: int)
    ensures k >= 1 ==> d * k >= d
    ensures k <= -1 ==> d * k + d <= 0
  {
    if k >= 1 {
      assert d * k == d + d * (k - 1);
    } else if k <= -1 {
      assert d * k == d * (k + 1) - d;
    }
  }

  /** Then nothing overflows a signed 64-bit long: not the product in the check, nor any sum of elements. */
  lemma FitsInLong(logNelems: nat)
    requires logNelems <= 31
    ensures Pow2(logNelems) * Pow2(logNelems) <= 0x4000_0000_0000_0000
  {
    Pow2Grows(logNelems, 31);
    Pow2At31();
    SquareGrows(Pow2(logNelems), 0x8000_0000);
  }

  lemma Pow2At31()
    ensures Pow2(31) == 0x8000_0000
  {
    assert Pow2(10) == 1024;
    assert Pow2(20) == 0x10_0000;
  }

  lemma SquareGrows(a: nat, b: nat)
    requires a <= b
    ensures a * a <= b * b
  {
    assert a * a <= a * b <= b * b;
  }

  lemma WholeBlocks(nelems: nat, nthreads: nat)
    requires nthreads >= 1
    ensures nthreads * (nelems / nthreads) == nelems - nelems % nthreads
  {
  }

  lemma SameExpected(m: nat, nelems: nat)
    requires m <= nelems
    ensures Expected(m) == Expected(nelems) <==> m == nelems || (m == 0 && nelems == 1)
  {
    RangeSumExpected(m);
    RangeSumExpected(nelems);
    RangeSumSplit(0, m, nelems);
    if m < nelems {
      RangeSumZero(m, nelems);
    }
  }

  /** The unguarded check passes exactly when the blocks leave no element out, or there is but one element. */
  lemma CheckPassesExactly(nthreads: nat, nelems: nat)
    requires nthreads >= 1 && nelems >= 1
    ensures Expected(nthreads * (nelems / nthreads)) == Expected(nelems) <==> nelems % nthreads == 0 || nelems == 1
  {
    WholeBlocks(nelems, nthreads);
    SameExpected(nthreads * (nelems / nthreads), nelems);
  }

  lemma {:induction false} RangeSumZero(a: nat, b: nat)
    requires a < b
    ensures RangeSum(a, b) == 0 <==> a == 0 && b == 1
  {
    if a < b - 1 {
      RangeSumZero(a, b - 1);
    }
  }
}
