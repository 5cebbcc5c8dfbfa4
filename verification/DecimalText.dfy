/** Numbers as generated ids and keys write them. */
module DecimalText {
  function Digit(d: nat): char
    requires d < 10
  {
    "0123456789"[d]
  }

  function Decimal(n: nat): string {
    if n < 10 then [Digit(n)] else Decimal(n / 10) + [Digit(n % 10)]
  }

  function DigitValue(c: char): nat {
    if '0' <= c <= '9' then (c - '0') as nat else 0
  }

  function Reading(s: string): nat {
    if s == "" then 0 else 10 * Reading(s[..|s| - 1]) + DigitValue(s[|s| - 1])
  }

  lemma DigitReads(d: nat)
    requires d < 10
    ensures DigitValue(Digit(d)) == d && '0' <= Digit(d) <= '9'
  {
  }

  /** The decimal text of a number reads back as that number and is made of digits only. */
  lemma {:induction false} DecimalReads(n: nat)
    ensures Reading(Decimal(n)) == n && Decimal(n) != ""
    ensures AllDigits(Decimal(n))
  {
    if n < 10 {
      DigitReads(n);
      assert Decimal(n)[..0] == "";
    } else {
      DecimalReads(n / 10);
      DigitReads(n % 10);
      assert Decimal(n)[..|Decimal(n)| - 1] == Decimal(n / 10);
    }
  }

  predicate AllDigits(s: string) { forall i :: 0 <= i < |s| ==> '0' <= s[i] <= '9' }

  predicate IsDigit(c: char) { '0' <= c <= '9' }

  /** The digits a text ends in are determined once something other than a digit precedes them. */
  lemma DigitSuffix(a: string, b: string, x: char, y: char, m: string, n: string)
    requires AllDigits(m) && AllDigits(n) && !IsDigit(x) && !IsDigit(y)
    requires a + [x] + m == b + [y] + n
    ensures a == b && x == y && m == n
  {
    var s := a + [x] + m;
    assert s[|a|] == x && s[|b|] == y;
    assert forall k :: |a| < k < |s| ==> s[k] == m[k - |a| - 1];
    assert forall k :: |b| < k < |s| ==> s[k] == n[k - |b| - 1];
    assert |a| == |b|;
    assert s[..|a|] == a && s[..|b|] == b;
    assert s[|a| + 1..] == m && s[|b| + 1..] == n;
  }

  /** A text followed by an underscore and a number splits one way only. */
  lemma NumberedSuffix(a: string, b: string, m: nat, n: nat)
    requires a + "_" + Decimal(m) == b + "_" + Decimal(n)
    ensures a == b && m == n
  {
    DecimalReads(m);
    DecimalReads(n);
    DigitSuffix(a, b, '_', '_', Decimal(m), Decimal(n));
  }
}
