/**
 * The exact two-sided McNemar test.  The loop's running term is a binomial coefficient, so its
 * integer division is exact; the value it reports is the share of the equally likely outcomes of the
 * discordant pairs that are at least as lopsided as the one observed.
 */
module McNemar {
  import opened Common

  // ---------------------------------------------------------------- powers and lengths

  function Pow2(n: nat): (r: nat)
    ensures r > 0
  {
    if n == 0 then 1 else 2 * Pow2(n - 1)
  }

  lemma {:induction false} Pow2Add(m: nat, n: nat)
    ensures Pow2(m + n) == Pow2(m) * Pow2(n)
  {
    if n > 0 {
      Pow2Add(m, n - 1);
      calc {
        Pow2(m + n);
        2 * Pow2(m + (n - 1));
        2 * (Pow2(m) * Pow2(n - 1));
        Pow2(m) * (2 * Pow2(n - 1));
      }
    }
  }

  lemma {:induction false} Pow2Monotone(m: nat, n: nat)
    requires m <= n
    ensures Pow2(m) <= Pow2(n)
  {
    if m < n { Pow2Monotone(m, n - 1); }
  }

  /** Number of binary digits. */
  function BitLength(n: nat): nat
  {
    if n < 2 then 1 else 1 + BitLength(n / 2)
  }

  lemma {:induction false} BitLengthBounds(n: nat)
    requires n > 0
    ensures BitLength(n) >= 1 && Pow2(BitLength(n) - 1) <= n < Pow2(BitLength(n))
  {
    if n >= 2 { BitLengthBounds(n / 2); }
  }

  lemma BitLengthMonotone(m: nat, n: nat)
    requires 0 < m <= n
    ensures BitLength(m) <= BitLength(n)
  {
    BitLengthBounds(m);
    BitLengthBounds(n);
    var k: nat := BitLength(m) - 1;
    if BitLength(n) <= k { Pow2Monotone(BitLength(n), k); }
  }

  // ---------------------------------------------------------------- binomial coefficients

  function Binomial(n: nat, k: int): nat
  {
    if k < 0 then 0
    else if n == 0 then (if k == 0 then 1 else 0)
    else Binomial(n - 1, k - 1) + Binomial(n - 1, k)
  }

  /** The sum of Binomial(n, j) for j up to k. */
  function Tail(n: nat, k: int): nat
    decreases k + 1
  {
    if k < 0 then 0 else Tail(n, k - 1) + Binomial(n, k)
  }

  lemma {:induction false} BinomialEnds(n: nat)
    ensures Binomial(n, 0) == 1 && (forall k :: k > n ==> Binomial(n, k) == 0)
  {
    if n > 0 { BinomialEnds(n - 1); }
  }

  /** One step of the loop: multiplying by n - i + 1 and dividing by i leaves no remainder. */
  lemma {:induction false} DivisionIsExact(n: nat, i: int)
    requires i >= 1
    ensures Binomial(n, i) * i == Binomial(n, i - 1) * (n - i + 1)
    decreases n
  {
    if n == 0 {
    } else if i == 1 {
      DivisionIsExact(n - 1, 1);
      BinomialEnds(n - 1);
    } else {
      var a, b, c := Binomial(n - 1, i - 2), Binomial(n - 1, i - 1), Binomial(n - 1, i);
      DivisionIsExact(n - 1, i);
      DivisionIsExact(n - 1, i - 1);
      Regroup(a, b, c, n, i);
    }
  }

  lemma Regroup(a: int, b: int, c: int, n: int, i: int)
    requires c * i == b * (n - i) && b * (i - 1) == a * (n - i + 1)
    ensures (b + c) * i == (a + b) * (n - i + 1)
  {
    Distribute(i, b, c);
    Distribute(b, i, n - i);
    Distribute(n - i + 1, a, b);
    Distribute(b, i - 1, n - i + 1);
  }

  lemma Distribute(x: int, y: int, z: int)
    ensures x * (y + z) == x * y + x * z && (y + z) * x == y * x + z * x
  {
  }

  lemma MultiplyMonotone(x: nat, y: nat, d: nat)
    requires x <= y
    ensures x * d <= y * d
  {
    Distribute(d, x, y - x);
  }

  lemma {:induction false} BinomialSymmetric(n: nat, k: int)
    ensures Binomial(n, k) == Binomial(n, n - k)
  {
    if n > 0 && k >= 0 {
      BinomialSymmetric(n - 1, k - 1);
      BinomialSymmetric(n - 1, k);
      BinomialEnds(n);
    } else {
      BinomialEnds(n);
    }
  }

  lemma {:induction false} TailTotal(n: nat, k: int)
    requires k >= n
    ensures Tail(n, k) == Pow2(n)
    decreases n, k
  {
    if n == 0 {
      if k > 0 { TailTotal(0, k - 1); }
    } else {
      TailStep(n, k);
      TailTotal(n - 1, k);
      TailTotal(n - 1, k - 1);
    }
  }

  lemma {:induction false} TailStep(n: nat, k: int)
    requires n > 0
    ensures Tail(n, k) == Tail(n - 1, k) + Tail(n - 1, k - 1)
    decreases k + 1
  {
    if k >= 0 { TailStep(n, k - 1); }
  }

  /** The two tails of the distribution mirror each other. */
  lemma {:induction false} TailsMirror(n: nat, k: int)
    requires -1 <= k <= n
    ensures Tail(n, k) + Tail(n, n - k - 1) == Pow2(n)
    decreases n - k
  {
    if k == n {
      TailTotal(n, n);
    } else {
      TailsMirror(n, k + 1);
      BinomialSymmetric(n, k + 1);
    }
  }

  lemma {:induction false} TailGrows(n: nat, j: int, k: int)
    requires j <= k
    ensures Tail(n, j) <= Tail(n, k)
    decreases k - j
  {
    if j < k { TailGrows(n, j, k - 1); }
  }

  lemma {:induction false} BinomialPositive(n: nat, k: int)
    requires 0 <= k <= n
    ensures Binomial(n, k) > 0
  {
    if n > 0 {
      if k == n { BinomialPositive(n - 1, k - 1); } else { BinomialPositive(n - 1, k); }
    }
  }

  lemma DivideBack(q: nat, d: nat)
    requires d > 0
    ensures q * d / d == q
  {
    var r := q * d / d;
    var rest := q * d % d;
    assert q * d == r * d + rest && 0 <= rest < d;
    if r < q {
      MultiplyMonotone(r + 1, q, d);
      Distribute(d, r, 1);
    } else if q < r {
      MultiplyMonotone(q + 1, r, d);
      Distribute(d, q, 1);
    }
  }

  // ---------------------------------------------------------------- the test

  const MAX_SAFE_INTEGER: int := 0x1F_FFFF_FFFF_FFFF

  predicate SafeCount(n: int) { 0 <= n <= MAX_SAFE_INTEGER }

  /**
   * A quotient: exactly 1, or `scaled` / 2^`shift`, which is what is rounded to a double at the very
   * end.
   */
  datatype Quotient = One | Scaled(scaled: nat, shift: nat)

  datatype TestResult = TestResult(gains: nat, losses: nat, discordant: nat, p: Quotient)

  function Ratio(num: nat, den: nat): Quotient
    requires num > 0 && den > 0
  {
    if num >= den then One
    else
      var d := BitLength(den) - BitLength(num) + 64;
      var shift := if d > 0 then d else 0;
      Scaled(num * Pow2(shift) / den, shift)
  }

  /** 2 * P(X <= min), over 2^n: numerator and denominator before the cap. */
  function Numerator(gains: nat, losses: nat): nat { 2 * Tail(gains + losses, Least(gains, losses)) }

  function PValue(gains: nat, losses: nat): real {
    var num, den := Numerator(gains, losses), Pow2(gains + losses);
    if num >= den then 1.0 else num as real / den as real
  }

  method ExactMcNemar(gains: int, losses: int) returns (r: Option<TestResult>)
    ensures r.Some? <==> SafeCount(gains) && SafeCount(losses) && SafeCount(gains + losses)
    ensures r.Some? ==>
              && Numerator(gains, losses) > 0
              && r.value
                 == TestResult(gains, losses, gains + losses, Ratio(Numerator(gains, losses), Pow2(gains + losses)))
  {
    if !SafeCount(gains) || !SafeCount(losses) || !SafeCount(gains + losses) { return None; }
    var n: nat := gains + losses;
    var smaller := Least(gains, losses);
    var term: nat, tail: nat := 1, 1;
    BinomialEnds(n);
    assert Tail(n, 0) == 1;
    var i := 1;
    while i <= smaller
      invariant 1 <= i <= smaller + 1
      invariant term == Binomial(n, i - 1)
      invariant tail == Tail(n, i - 1)
    {
      DivisionIsExact(n, i);
      DivideBack(Binomial(n, i), i);
      term := term * (n - i + 1) / i;
      tail := tail + term;
      i := i + 1;
    }
    TailGrows(n, 0, smaller);
    return Some(TestResult(gains, losses, n, Ratio(2 * tail, Pow2(n))));
  }

  // ---------------------------------------------------------------- what the value is

  /** The value-1 branch is taken exactly for ties and differences of one. */
  lemma ReportsOneExactlyWhenBalanced(gains: nat, losses: nat)
    requires Numerator(gains, losses) > 0
    ensures Ratio(Numerator(gains, losses), Pow2(gains + losses)) == One <==> -1 <= gains - losses <= 1
    ensures PValue(gains, losses) == 1.0 <==> -1 <= gains - losses <= 1
  {
    var n, k := gains + losses, Least(gains, losses);
    TailsMirror(n, k);
    BinomialPositive(n, k);
    if n - k >= k + 2 {
      TailGrows(n, k + 1, n - k - 1);
      BinomialPositive(n, k + 1);
      assert 2 * Tail(n, k) < Pow2(n);
      assert (2 * Tail(n, k)) as real < Pow2(n) as real;
    }
  }

  lemma ShareBelowOne(num: nat, den: nat)
    requires num < den
    ensures num as real / den as real < 1.0
  {
  }

  lemma FloorBounds(top: nat, den: nat, least: nat, q: nat, rest: nat)
    requires top == q * den + rest && rest < den && least > 0 && den * least <= top
    ensures q >= least
    ensures q * den <= top < (q + 1) * den
    ensures rest * least < top
  {
    Distribute(den, q, 1);
    if q < least {
      MultiplyMonotone(q + 1, least, den);
    }
    MultiplyMonotone(rest + 1, den, least);
    Distribute(least, rest, 1);
  }

  /** The shift leaves at least 64 significant bits: 2^(len(num) - 1) <= num and den < 2^len(den). */
  lemma ShiftedIsLarge(num: nat, den: nat, ln: nat, ld: nat, bits: nat)
    requires 1 <= ln <= ld && Pow2(ln - 1) <= num && den < Pow2(ld)
    ensures den * Pow2(bits) <= num * Pow2(ld - ln + bits + 1)
  {
    var shift := ld - ln + bits + 1;
    Pow2Add(ln - 1, shift);
    Pow2Add(ld, bits);
    MultiplyMonotone(Pow2(ln - 1), num, Pow2(shift));
    MultiplyMonotone(den, Pow2(ld), Pow2(bits));
  }

  /** Below 1 the scaled quotient keeps at least 64 significant bits: its floor is off by less than one part in 2^63. */
  lemma ScaledQuotientBounds(num: nat, den: nat)
    requires 0 < num < den
    ensures var q := Ratio(num, den);
            q.Scaled? && q.shift >= 64 && IsFloor(num * Pow2(q.shift), q.scaled, den, Pow2(63))
  {
    BitLengthBounds(num);
    BitLengthBounds(den);
    BitLengthMonotone(num, den);
    var shift: nat := BitLength(den) - BitLength(num) + 64;
    ShiftedIsLarge(num, den, BitLength(num), BitLength(den), 63);
    ScaledRatio(num, den, shift);
    FloorQuotient(num * Pow2(shift), den, Pow2(63));
  }

  lemma ScaledRatio(num: nat, den: nat, shift: nat)
    requires 0 < num < den && shift == BitLength(den) - BitLength(num) + 64
    ensures Ratio(num, den) == Scaled(num * Pow2(shift) / den, shift)
  {
  }

  /** The floor of a quotient that is at least `least`, and off by less than one part in `least`. */
  predicate IsFloor(top: nat, q: nat, den: nat, least: nat) {
    q >= least && q * den <= top < (q + 1) * den && (top - q * den) * least < top
  }

  lemma FloorQuotient(top: nat, den: nat, least: nat)
    requires least > 0 && den > 0 && den * least <= top
    ensures IsFloor(top, top / den, den, least)
  {
    FloorBounds(top, den, least, top / den, top % den);
    assert top - top / den * den == top % den;
  }

  /** Of the outcomes of `rest` more fair flips after `heads` heads: those ending at most `low` or at least `high`. */
  function Extreme(rest: nat, heads: nat, low: int, high: int): nat
  {
    if rest == 0 then (if heads <= low || heads >= high then 1 else 0)
    else Extreme(rest - 1, heads, low, high) + Extreme(rest - 1, heads + 1, low, high)
  }

  lemma {:induction false} ExtremeByTails(rest: nat, heads: nat, low: int, high: int, a: int, b: int)
    requires low < high && a == low - heads && b == high - heads - 1
    ensures Extreme(rest, heads, low, high) == Tail(rest, a) + Pow2(rest) - Tail(rest, b)
    decreases rest
  {
    if rest == 0 {
      TailOfNothing(a);
      TailOfNothing(b);
    } else {
      ExtremeByTails(rest - 1, heads, low, high, a, b);
      ExtremeByTails(rest - 1, heads + 1, low, high, a - 1, b - 1);
      TailStep(rest, a);
      TailStep(rest, b);
    }
  }

  lemma {:induction false} TailOfNothing(k: int)
    ensures Tail(0, k) == if k < 0 then 0 else 1
    decreases k
  {
    if k > 0 { TailOfNothing(k - 1); }
  }

  lemma {:induction false} ExtremeAll(rest: nat, heads: nat, low: int, high: int)
    requires low >= high
    ensures Extreme(rest, heads, low, high) == Pow2(rest)
    decreases rest
  {
    if rest > 0 {
      ExtremeAll(rest - 1, heads, low, high);
      ExtremeAll(rest - 1, heads + 1, low, high);
    }
  }

  /**
   * The p-value times 2^n counts the outcomes at least as lopsided as the observed one; the cap at
   * 1 is never a guess.
   */
  lemma PValueCountsExtremeOutcomes(gains: nat, losses: nat)
    ensures var n, k := gains + losses, Least(gains, losses);
            PValue(gains, losses) * Pow2(n) as real == Extreme(n, 0, k, n - k) as real
  {
    var n, k := gains + losses, Least(gains, losses);
    ExtremeIsNumerator(gains, losses);
    if k < n - k {
      ScaleBack(Numerator(gains, losses), Pow2(n));
    }
  }

  /** A lopsided split counts twice its lower tail; an even one counts every outcome. */
  lemma ExtremeIsNumerator(gains: nat, losses: nat)
    ensures var n, k := gains + losses, Least(gains, losses);
            if k < n - k then Extreme(n, 0, k, n - k) == Numerator(gains, losses) <= Pow2(n)
            else Extreme(n, 0, k, n - k) == Pow2(n) <= Numerator(gains, losses)
  {
    var n, k := gains + losses, Least(gains, losses);
    TailsMirror(n, k);
    if k < n - k {
      ExtremeByTails(n, 0, k, n - k, k, n - k - 1);
      TailGrows(n, k, n - k - 1);
    } else {
      ExtremeAll(n, 0, k, n - k);
    }
  }

  lemma ScaleBack(num: nat, den: nat)
    requires den > 0
    ensures num as real / den as real * den as real == num as real
  {
  }

  /** Fixed the number of discordant pairs, a more lopsided split never has the larger value; order does not matter. */
  lemma PValueOrdersByImbalance(gains: nat, losses: nat, gains': nat, losses': nat)
    requires gains + losses == gains' + losses' && Least(gains, losses) <= Least(gains', losses')
    ensures PValue(gains, losses) <= PValue(gains', losses')
    ensures PValue(gains, losses) == PValue(losses, gains)
  {
    var n := gains + losses;
    TailGrows(n, Least(gains, losses), Least(gains', losses'));
    var a, b, d := Numerator(gains, losses), Numerator(gains', losses'), Pow2(n);
    if a < d { ShareBelowOne(a, d); }
    DivideMonotone(a, b, d);
  }

  lemma DivideMonotone(a: nat, b: nat, d: nat)
    requires a <= b && d > 0
    ensures a as real / d as real <= b as real / d as real
  {
  }
}
