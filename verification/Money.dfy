/** Cent arithmetic: Math.round to hundredths and the Decimal(12, 2) columns, over exact reals. */
module Money {

  /** An amount in whole cents: what a Decimal(12, 2) column holds. */
  type Cents = int

  /** The number a stored amount is read back as. */
  function Amount(c: Cents): real {
    c as real / 100.0
  }

  /** JavaScript's Math.round: to the nearest integer, halves upwards. */
  function MathRound(x: real): int {
    (x + 0.5).Floor
  }

  /** Math.round(x * 100) / 100 */
  function RoundHundredths(x: real): real {
    MathRound(x * 100.0) as real / 100.0
  }

  /** Writing a number into a Decimal(12, 2) column: nearest cent, halves away from zero. */
  function StoreDecimal(x: real): Cents {
    if x >= 0.0 then MathRound(x * 100.0) else -MathRound(-x * 100.0)
  }

  /** Rounding to hundredths gives the nearest whole number of cents, halves upwards. */
  lemma RoundMeaning(x: real)
    ensures exists c: Cents :: RoundHundredths(x) == Amount(c)
    ensures RoundHundredths(x) - 0.005 <= x < RoundHundredths(x) + 0.005
    ensures x >= 0.0 ==> Amount(StoreDecimal(x)) == RoundHundredths(x)
    ensures StoreDecimal(-x) == -StoreDecimal(x)
  {
    assert RoundHundredths(x) == Amount(MathRound(x * 100.0));
    assert x < 0.0 ==> -x * 100.0 == -(x * 100.0);
    assert -(-x) == x;
  }

  lemma RoundMonotone(x: real, y: real)
    requires x <= y
    ensures MathRound(x) <= MathRound(y)
    ensures RoundHundredths(x / 100.0) <= RoundHundredths(y / 100.0)
  {
  }

  lemma RoundShift(n: int, x: real)
    ensures MathRound(n as real + x) == n + MathRound(x)
  {
  }

  /** Whole cents survive every one of the conversions. */
  lemma WholeCentsExact(c: Cents)
    ensures RoundHundredths(Amount(c)) == Amount(c)
    ensures StoreDecimal(Amount(c)) == c
  {
  }

  /** One step of `Math.round((acc + x) * 100) / 100` loses nothing when both are whole cents. */
  lemma RoundedAdditionExact(a: Cents, b: Cents)
    ensures RoundHundredths(Amount(a) + Amount(b)) == Amount(a + b)
    ensures RoundHundredths(Amount(a) - Amount(b)) == Amount(a - b)
  {
    assert Amount(a) + Amount(b) == Amount(a + b);
    assert Amount(a) - Amount(b) == Amount(a - b);
    WholeCentsExact(a + b);
    WholeCentsExact(a - b);
  }
}
