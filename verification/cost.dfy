/** The scheduling cost hint of the host kernel, QrOp::GetCostPerUnit: the
    Householder QR flop count 2 max(m,n) min(m,n)^2 - (2/3) min(m,n)^3,
    clamped to the largest 64-bit signed integer. The formula is evaluated in
    exact real arithmetic; the conversion to int64 of a value below the clamp
    truncates, which for a non-negative value is the floor. */
module Cost {
  import opened Shapes

  const Int64Max: int := 0x7fff_ffff_ffff_ffff

  /** The flop count, exactly. */
  function CostReal(m: nat, n: nat): real {
    var big := Max(m, n) as real;
    var small := Min(m, n) as real;
    2.0 * big * small * small - 2.0 * small * small * small / 3.0
  }

  /** Three times the flop count, which is an integer. */
  function TripleCost(big: nat, small: nat): int {
    6 * big * small * small - 2 * small * small * small
  }

  /** The value returned to the scheduler. */
  function GetCostPerUnit(m: nat, n: nat): (c: int)
    ensures 0 <= c <= Int64Max
    ensures CostReal(m, n) >= Int64Max as real ==> c == Int64Max
    ensures CostReal(m, n) < Int64Max as real ==> c as real <= CostReal(m, n) < c as real + 1.0
  {
    CostLowerBound(m, n);
    var cost := CostReal(m, n);
    if cost >= Int64Max as real then Int64Max else cost.Floor
  }

  lemma TripleCostIsExact(m: nat, n: nat)
    ensures CostReal(m, n) == TripleCost(Max(m, n), Min(m, n)) as real / 3.0
  {
    var b, s := Max(m, n), Min(m, n);
    assert (b * s * s) as real == b as real * s as real * s as real;
    assert (s * s * s) as real == s as real * s as real * s as real;
  }

  /** The estimate does not depend on which extent is the larger one. */
  lemma CostSymmetric(m: nat, n: nat)
    ensures CostReal(m, n) == CostReal(n, m)
    ensures GetCostPerUnit(m, n) == GetCostPerUnit(n, m)
  {
  }

  /** Since max(m,n) >= min(m,n), the estimate is at least (4/3) min(m,n)^3,
      and so never negative. */
  lemma CostLowerBound(m: nat, n: nat)
    ensures var s := Min(m, n) as real;
            CostReal(m, n) >= 4.0 / 3.0 * s * s * s
    ensures CostReal(m, n) >= 0.0
  {
    var b, s := Max(m, n), Min(m, n);
    TripleCostIsExact(m, n);
    MulLeftMonotone(s, b, s * s);
    assert TripleCost(b, s) >= 4 * (s * s * s);
    assert (s * s * s) as real == s as real * s as real * s as real;
  }

  lemma MulLeftMonotone(x: nat, y: nat, z: nat)
    requires x <= y
    ensures x * z <= y * z
  {
  }

  /** With the larger extent fixed, three times the estimate grows with the
      smaller extent up to the larger one. */
  lemma TripleCostGrowsWithSmall(big: nat, s: nat, s': nat)
    requires s <= s' <= big
    ensures TripleCost(big, s) <= TripleCost(big, s')
  {
    var d := s' - s;
    var sum := s' * s' + s' * s + s * s;
    TripleCostDifference(big, s, d);
    SumOfSquaresBound(big, s, s');
    MulNonNegative(d, 6 * big * (s' + s) - 2 * sum);
  }

  /** TripleCost(big, s + d) - TripleCost(big, s) factored by d. */
  lemma TripleCostDifference(big: nat, s: nat, d: nat)
    ensures var s' := s + d;
            TripleCost(big, s') - TripleCost(big, s)
              == d * (6 * big * (s' + s) - 2 * (s' * s' + s' * s + s * s))
  {
  }

  lemma SumOfSquaresBound(big: nat, s: nat, s': nat)
    requires s <= s' <= big
    ensures 2 * (s' * s' + s' * s + s * s) <= 6 * big * (s' + s)
  {
    MulLeftMonotone(s', big, s');
    MulLeftMonotone(s, big, s');
    MulLeftMonotone(s, big, s);
    assert s' * s' + s' * s + s * s <= big * s' + big * s' + big * s;
  }

  lemma MulNonNegative(x: int, y: int)
    requires x >= 0 && y >= 0
    ensures x * y >= 0
  {
  }

  /** With the smaller extent fixed, three times the estimate grows with the
      larger extent. */
  lemma TripleCostGrowsWithBig(big: nat, big': nat, s: nat)
    requires big <= big'
    ensures TripleCost(big, s) <= TripleCost(big', s)
  {
    MulLeftMonotone(big, big', s * s);
    assert big * s * s == big * (s * s) && big' * s * s == big' * (s * s);
  }

  /** The estimate grows with the row count at a fixed column count (and, by
      symmetry, with the column count at a fixed row count). */
  lemma CostMonotone(m: nat, m': nat, n: nat)
    requires m <= m'
    ensures CostReal(m, n) <= CostReal(m', n)
    ensures CostReal(n, m) <= CostReal(n, m')
    ensures GetCostPerUnit(m, n) <= GetCostPerUnit(m', n)
  {
    TripleCostIsExact(m, n);
    TripleCostIsExact(m', n);
    CostSymmetric(m, n);
    CostSymmetric(m', n);
    if m' <= n {
      TripleCostGrowsWithSmall(n, m, m');
    } else if n <= m {
      TripleCostGrowsWithBig(m, m', n);
    } else {
      TripleCostGrowsWithSmall(n, m, n);
      TripleCostGrowsWithBig(n, m', n);
    }
  }

  /** For n > 0 a square n x n input costs (4/3) n^3, strictly less than the
      (10/3) n^3 of a 2n x n input. */
  lemma CostSquareVersusTall(n: nat)
    requires n > 0
    ensures var c := n as real * n as real * n as real;
            && CostReal(n, n) == 4.0 / 3.0 * c
            && CostReal(2 * n, n) == 10.0 / 3.0 * c
            && CostReal(n, n) < CostReal(2 * n, n)
  {
    var c := n as real * n as real * n as real;
    assert c > 0.0 by {
      MulNonNegative(n, n);
      assert (n * n * n) as real == c;
      assert n * n * n >= 1 by { MulLeftMonotone(1, n, n); MulLeftMonotone(1, n * n, n); }
    }
    assert (2 * n) as real == 2.0 * n as real;
  }

  /** A 100 x 100 input is estimated as costlier than a 10 x 10 input. */
  lemma CostLargerSquare()
    ensures CostReal(10, 10) < CostReal(100, 100)
    ensures GetCostPerUnit(10, 10) < GetCostPerUnit(100, 100)
  {
    assert CostReal(10, 10) == 4000.0 / 3.0;
    assert CostReal(100, 100) == 4000000.0 / 3.0;
  }
}
