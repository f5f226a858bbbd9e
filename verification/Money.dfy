/**
 Amounts of money in whole cents.

 Decimal amounts are exact fractions num/den of a cent, so rounding is exact:
 to the nearest cent, halves away from zero (Python's ROUND_HALF_UP).
 */
module Money {

  function Abs(x: int): nat {
    if x < 0 then -x else x
  }

  function Min(a: int, b: int): int {
    if a <= b then a else b
  }

  function Max(a: int, b: int): int {
    if a <= b then b else a
  }

  /** num/den of a cent, as the nearest whole cent, halves away from zero. */
  function RoundHalfUp(num: int, den: int): (cents: int)
    requires den > 0
    ensures 2 * Abs(num - cents * den) <= den
    ensures 2 * Abs(num - cents * den) == den ==> Abs(cents) * den > Abs(num)
  {
    if num >= 0 then
      RoundUpHalf(num, den)
    else
      var r: int := RoundUpHalf(-num, den);
      assert -r * den == -(r * den);
      -r
  }

  function RoundUpHalf(num: nat, den: int): (cents: nat)
    requires den > 0
    ensures 2 * Abs(num - cents * den) <= den
    ensures 2 * Abs(num - cents * den) == den ==> cents * den > num
  {
    var q, r := num / den, num % den;
    assert num == q * den + r;
    if 2 * r < den then q else
      assert (q + 1) * den == q * den + den;
      q + 1
  }

  /** A whole number of cents rounds to itself. */
  lemma WholeCents(cents: int)
    ensures RoundHalfUp(cents, 1) == cents
  {}

  function Sum(amounts: seq<int>): (total: int) {
    if amounts == [] then 0 else Sum(amounts[..|amounts| - 1]) + amounts[|amounts| - 1]
  }

  lemma SumAppend(amounts: seq<int>, last: int)
    ensures Sum(amounts + [last]) == Sum(amounts) + last
  {
    assert (amounts + [last])[..|amounts|] == amounts;
  }

  lemma {:induction false} SumRepeated(each: int, n: nat)
    ensures Sum(seq(n, _ => each)) == each * n
  {
    if n > 0 {
      var s := seq(n, _ => each);
      assert s[..n - 1] == seq(n - 1, _ => each);
      SumRepeated(each, n - 1);
    }
  }

  // ---- Splitting a balance into installments ----

  /** Equal installments, with any leftover cents on the last one. */
  function SplitAmount(total: int, count: int): (installments: seq<int>)
    requires count > 0
    ensures |installments| == count
  {
    var each := RoundHalfUp(total, count);
    seq(count - 1, _ => each) + [total - each * (count - 1)]
  }

  /** No cent is lost or made: the installments sum to exactly what was split. */
  lemma SplitSumsToTotal(total: int, count: int)
    requires count > 0
    ensures Sum(SplitAmount(total, count)) == total
  {
    var each := RoundHalfUp(total, count);
    SumRepeated(each, count - 1);
    SumAppend(seq(count - 1, _ => each), total - each * (count - 1));
  }

  /**
   All but the last installment are equal, and the last is within count/2 cents of them. The equal
   ones are rounded half up, so of something owed it never exceeds them by as much.
   */
  lemma SplitIsEven(total: int, count: int)
    requires count > 0
    ensures var s := SplitAmount(total, count);
            && (forall i, j :: 0 <= i < count - 1 && 0 <= j < count - 1 ==> s[i] == s[j])
            && (forall i :: 0 <= i < count - 1 ==> 2 * Abs(s[count - 1] - s[i]) <= count)
            && (total >= 0 ==> forall i :: 0 <= i < count - 1 ==> 2 * (s[count - 1] - s[i]) < count)
  {
    var each := RoundHalfUp(total, count);
    var whole := each * count;
    assert total - each * (count - 1) - each == total - whole;
    if total >= 0 {
      MulOrder(each, -1, count);
      assert 2 * (total - whole) < count;
    }
  }

  ghost predicate AllPositive(amounts: seq<int>) {
    forall i :: 0 <= i < |amounts| ==> amounts[i] > 0
  }

  /** What must be checked before splitting so that no installment is zero or negative. */
  predicate Splittable(total: int, count: int)
    requires count > 0
  {
    total > 0 && if 2 * (total % count) < count then total >= count else total / count + total % count >= count
  }

  /** The two amounts in a split of something owed, by the total's quotient and remainder. */
  lemma SplitAmountsAre(total: int, count: int)
    requires count >= 2 && total > 0
    ensures var s, q, r := SplitAmount(total, count), total / count, total % count;
            && (forall i :: 0 <= i < count - 1 ==> s[i] == if 2 * r < count then q else q + 1)
            && s[count - 1] == if 2 * r < count then q + r else q + r + 1 - count
  {
    var q, r := total / count, total % count;
    var whole := q * count;
    assert total == whole + r;
    assert q * (count - 1) == whole - q;
    assert (q + 1) * (count - 1) == whole - q + count - 1;
  }

  lemma SplitPositiveExactly(total: int, count: int)
    requires count >= 2
    ensures AllPositive(SplitAmount(total, count)) <==> Splittable(total, count)
  {
    var s := SplitAmount(total, count);
    if total > 0 {
      SplitAmountsAre(total, count);
      QuotientPositive(total, count);
      assert AllPositive(s) <==> s[0] > 0 && s[count - 1] > 0;
    } else {
      assert s[0] == RoundHalfUp(total, count) <= 0;
    }
  }

  lemma QuotientPositive(n: nat, d: int)
    requires d > 0
    ensures n / d >= 0 && (n / d >= 1 <==> n >= d)
  {
    QuotientsOrder(if n >= d then d - 1 else n, if n >= d then n else d, d);
    DivModOf(d, d, 1, 0);
    DivModOf(d - 1, d, 0, d - 1);
  }

  /** Quotient and remainder order numbers as the numbers themselves do. */
  lemma QuotientsOrder(a: int, b: int, d: int)
    requires d > 0 && a < b
    ensures a / d < b / d || (a / d == b / d && a % d < b % d)
  {
    var qa, qb := a / d, b / d;
    var wholeA, wholeB := qa * d, qb * d;
    assert a == wholeA + a % d && b == wholeB + b % d;
    assert (qb + 1) * d == wholeB + d;
    MulOrder(qb + 1, qa, d);
  }

  lemma MulOrder(a: int, b: int, c: nat)
    ensures a <= b ==> a * c <= b * c
  {
    if a <= b { MulMonotone(a, b, c); }
  }

  lemma MulMonotone(a: int, b: int, c: nat)
    requires a <= b
    ensures a * c <= b * c
  {}

  /** The largest total that cannot be split into count positive installments. */
  function LargestUnsplittable(count: int): int {
    (count / 2 - 1) * count + (count + 1) / 2
  }

  /** Exactly how small a balance is too small: the bound itself fails, everything above it works. */
  lemma SplitThreshold(total: int, count: int)
    requires count >= 2
    ensures !AllPositive(SplitAmount(LargestUnsplittable(count), count))
    ensures total > LargestUnsplittable(count) ==> AllPositive(SplitAmount(total, count))
  {
    var h, up := count / 2, (count + 1) / 2;
    var bad := LargestUnsplittable(count);
    assert h + up == count;
    DivModOf(bad, count, h - 1, up);
    SplitPositiveExactly(bad, count);
    if total > bad {
      MulMonotone(0, h - 1, count);
      SplitPositiveExactly(total, count);
      QuotientsOrder(bad, total, count);
      QuotientPositive(total, count);
    }
  }

  /** The bound in round numbers: n(n-1)/2 cents is always enough to exceed, and exact for even n. */
  lemma SplitRoundBound(total: int, count: int)
    requires count >= 2 && 2 * total > count * (count - 1)
    ensures AllPositive(SplitAmount(total, count))
  {
    var h := count / 2;
    var k := (h - 1) * count;
    assert (2 * h - 2) * count == 2 * k;
    assert (count - 2) * count == count * (count - 1) - count;
    assert (count - 3) * count == count * (count - 1) - 2 * count;
    MulMonotone(2 * h - 2, if count % 2 == 0 then count - 2 else count - 3, count);
    assert total > LargestUnsplittable(count);
    SplitThreshold(total, count);
  }

  lemma DivModOf(n: int, d: int, q: int, r: int)
    requires d > 0 && 0 <= r < d && n == q * d + r
    ensures n / d == q && n % d == r
  {
    var q', r' := n / d, n % d;
    var whole, whole' := q * d, q' * d;
    assert n == whole' + r';
    assert (q' + 1) * d == whole' + d && (q + 1) * d == whole + d;
    MulOrder(q' + 1, q, d);
    MulOrder(q + 1, q', d);
  }
}
