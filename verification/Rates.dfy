/** The rounded percentages of the analytics overview. */
module Rates {
  import opened Money

  /** Math.round((part / whole) * 10000) / 100, or 0 for an empty whole. */
  function Rate(part: nat, whole: nat): real {
    if whole > 0 then MathRound(part as real / whole as real * 10000.0) as real / 100.0 else 0.0
  }

  /** A rate is the percentage rounded to the nearest hundredth, halves upwards; 0 of nothing is 0. */
  lemma RateMeaning(part: nat, whole: nat)
    ensures (Rate(part, whole) * 100.0).Floor as real == Rate(part, whole) * 100.0
    ensures whole == 0 ==> Rate(part, whole) == 0.0
    ensures whole > 0 ==> Rate(part, whole) - 0.005 <= part as real / whole as real * 100.0 < Rate(part, whole) + 0.005
  {
    if whole > 0 {
      NearestHundredth(part as real / whole as real);
      assert Rate(part, whole) * 100.0 == MathRound(part as real / whole as real * 10000.0) as real;
    }
  }

  lemma NearestHundredth(x: real)
    ensures var r := MathRound(x * 10000.0) as real / 100.0; r - 0.005 <= x * 100.0 < r + 0.005
  {
  }

  lemma QuotientOrder(a: nat, b: nat, c: nat, d: nat)
    requires b > 0 && d > 0 && a * d <= c * b
    ensures a as real / b as real <= c as real / d as real
  {
  }

  /** Comparing fractions crosswise carries over to the rounded percentages. */
  lemma RateMonotone(a: nat, b: nat, c: nat, d: nat)
    requires b > 0 && d > 0 && a * d <= c * b
    ensures Rate(a, b) <= Rate(c, d)
  {
    QuotientOrder(a, b, c, d);
    RoundMonotone(a as real / b as real * 10000.0, c as real / d as real * 10000.0);
  }

  /** Conversion never exceeds success: the same successes over more transactions. */
  lemma ConversionAtMostSuccess(successes: nat, completed: nat, total: nat)
    requires successes <= completed <= total
    ensures Rate(successes, total) <= Rate(successes, completed)
  {
    if completed > 0 {
      assert successes * completed <= successes * total;
      RateMonotone(successes, total, successes, completed);
    }
  }

  /** The exact half that both rates round up. */
  predicate BothRoundUp(successes: nat, completed: nat)
    requires completed > 0
  {
    (20000 * successes) % completed == 0 && (20000 * successes / completed) % 2 == 1
  }

  lemma ComplementRounds(x: real)
    ensures MathRound(x) + MathRound(10000.0 - x) == if (x + 0.5).Floor as real == x + 0.5 then 10001 else 10000
  {
  }

  lemma PositiveFactor(k: int, d: int)
    requires d > 0
    ensures k >= 1 ==> k * d >= d
    ensures k <= -1 ==> k * d <= -d
    ensures k * d == 0 <==> k == 0
  {
  }

  lemma DivExact(n: int, d: int, q: int)
    requires d > 0 && n == q * d
    ensures n % d == 0 && n / d == q
  {
    var k := n / d - q;
    assert n == d * (n / d) + n % d;
    assert k * d == d * (n / d) - q * d;
    PositiveFactor(k, d);
  }

  lemma CancelReal(gap: real, c: real)
    requires c > 0.0 && gap * c == 0.0
    ensures gap == 0.0
  {
  }

  /** A real quotient is the integer k exactly when k is the integer quotient without remainder. */
  lemma IntegerQuotient(y: real, n: int, c: int, k: int)
    requires c > 0 && y * c as real == n as real
    ensures y == k as real <==> n % c == 0 && n / c == k
  {
    assert (k * c) as real == k as real * c as real;
    if y == k as real {
      DivExact(n, c, k);
    }
    if n % c == 0 && n / c == k {
      assert n == c * (n / c);
      assert (y - k as real) * c as real == 0.0;
      CancelReal(y - k as real, c as real);
    }
  }

  lemma ScaledQuotient(part: nat, whole: nat, scale: int)
    requires whole > 0
    ensures part as real / whole as real * scale as real * whole as real == (scale * part) as real
  {
  }

  lemma HalfMeansOddQuotient(successes: nat, completed: nat)
    requires completed > 0
    ensures var x := successes as real / completed as real * 10000.0;
            (x + 0.5).Floor as real == x + 0.5 <==> BothRoundUp(successes, completed)
  {
    var x := successes as real / completed as real * 10000.0;
    var y := successes as real / completed as real * 20000.0;
    assert y == 2.0 * x;
    ScaledQuotient(successes, completed, 20000);
    var k := 2 * (x + 0.5).Floor - 1;
    IntegerQuotient(y, 20000 * successes, completed, k);
    var odd := 20000 * successes / completed;
    IntegerQuotient(y, 20000 * successes, completed, odd);
    if BothRoundUp(successes, completed) {
      assert y == odd as real;
      var m := (odd + 1) / 2;
      assert odd == 2 * m - 1;
      assert x + 0.5 == m as real;
    }
  }

  lemma SharesAddToOne(a: nat, b: nat)
    requires a + b > 0
    ensures a as real / (a + b) as real + b as real / (a + b) as real == 1.0
  {
  }

  /** Success and failure rate add up to 100.00, or to 100.01 exactly when both are rounded up. */
  lemma RatesAddUp(successes: nat, failures: nat)
    requires successes + failures > 0
    ensures Rate(successes, successes + failures) + Rate(failures, successes + failures)
            == if BothRoundUp(successes, successes + failures) then 100.01 else 100.0
  {
    var completed := successes + failures;
    var x := successes as real / completed as real * 10000.0;
    SharesAddToOne(successes, failures);
    assert failures as real / completed as real * 10000.0 == 10000.0 - x;
    ComplementRounds(x);
    HalfMeansOddQuotient(successes, completed);
    var a, b := MathRound(x), MathRound(10000.0 - x);
    assert a as real / 100.0 + b as real / 100.0 == (a + b) as real / 100.0;
  }

  /** Three shares: the total's rate lies between the smallest and the largest rate of the
      non-empty ones. */
  lemma MediantBetween(s: seq<nat>, c: seq<nat>) returns (g: nat, h: nat)
    requires |s| == |c| == 3 && s[0] <= c[0] && s[1] <= c[1] && s[2] <= c[2] && c[0] + c[1] + c[2] > 0
    ensures g < 3 && c[g] > 0 && Rate(s[g], c[g]) <= Rate(s[0] + s[1] + s[2], c[0] + c[1] + c[2])
    ensures h < 3 && c[h] > 0 && Rate(s[0] + s[1] + s[2], c[0] + c[1] + c[2]) <= Rate(s[h], c[h])
  {
    var S, C := s[0] + s[1] + s[2], c[0] + c[1] + c[2];
    Spread(s, c, S, C);
    var x, y := [s[0] * C, s[1] * C, s[2] * C], [S * c[0], S * c[1], S * c[2]];
    g := SomeOrdered(x, y, c);
    assert s[g] * C <= S * c[g];
    RateMonotone(s[g], c[g], S, C);
    h := SomeOrdered(y, x, c);
    assert S * c[h] <= s[h] * C;
    RateMonotone(S, C, s[h], c[h]);
  }

  /** Of three pairs with equal sums, a pair that matters is ordered. */
  lemma SomeOrdered(x: seq<int>, y: seq<int>, c: seq<nat>) returns (g: nat)
    requires |x| == |y| == |c| == 3 && x[0] + x[1] + x[2] == y[0] + y[1] + y[2] && c[0] + c[1] + c[2] > 0
    requires forall k :: 0 <= k < 3 && c[k] == 0 ==> x[k] == y[k]
    ensures g < 3 && c[g] > 0 && x[g] <= y[g]
  {
    g := if c[0] > 0 && x[0] <= y[0] then 0 else if c[1] > 0 && x[1] <= y[1] then 1 else 2;
  }

  /** The crosswise sums agree, and empty shares contribute nothing. */
  lemma Spread(s: seq<nat>, c: seq<nat>, S: nat, C: nat)
    requires |s| == |c| == 3 && s[0] <= c[0] && s[1] <= c[1] && s[2] <= c[2]
    requires S == s[0] + s[1] + s[2] && C == c[0] + c[1] + c[2]
    ensures s[0] * C + s[1] * C + s[2] * C == S * c[0] + S * c[1] + S * c[2]
    ensures forall g :: 0 <= g < 3 && c[g] == 0 ==> s[g] * C == 0 && S * c[g] == 0
  {
  }
}
