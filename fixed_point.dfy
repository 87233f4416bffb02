/** Integer fixed-point arithmetic of the vault: powers of ten, the test
    suite's `decimal(n, d)`, conversion between the collateral token's and
    the vault token's precision, and payback ratios scaled by 10^18. */
module FixedPoint {

  /** 10^n. */
  function Pow10(n: nat): (r: nat)
    ensures r >= 1
  {
    if n == 0 then 1 else 10 * Pow10(n - 1)
  }

  /** `decimal(n, d)`: n whole units written with d decimals. */
  function Decimal(n: nat, d: nat): (r: nat)
    ensures r >= n && (n > 0 ==> r >= Pow10(d))
  {
    ProductBounds(n, Pow10(d));
    n * Pow10(d)
  }

  /** The fixed-point 1.0 of payback ratios, `decimal(1)` with 18 decimals. */
  const WAD: nat := 1_000_000_000_000_000_000

  /** Amount of collateral (collateral precision) to vault-token precision:
      scaled up exactly, or scaled down with truncation. */
  function ToVaultDecimals(amount: nat, collateralDecimals: nat, vaultDecimals: nat): (r: nat)
    ensures vaultDecimals >= collateralDecimals ==> r >= amount
    ensures vaultDecimals <= collateralDecimals ==> r <= amount
  {
    if vaultDecimals >= collateralDecimals then
      ScaleUp(amount, Pow10(vaultDecimals - collateralDecimals))
    else
      ScaleDown(amount, Pow10(collateralDecimals - vaultDecimals))
  }

  /** The mirror conversion, vault-token precision back to collateral precision. */
  function ToCollateralDecimals(amount: nat, collateralDecimals: nat, vaultDecimals: nat): (r: nat)
    ensures vaultDecimals >= collateralDecimals ==> r <= amount
    ensures vaultDecimals <= collateralDecimals ==> r >= amount
  {
    if vaultDecimals >= collateralDecimals then
      ScaleDown(amount, Pow10(vaultDecimals - collateralDecimals))
    else
      ScaleUp(amount, Pow10(collateralDecimals - vaultDecimals))
  }

  /** Multiplication by a scale factor, never below the amount. */
  function ScaleUp(amount: nat, factor: nat): (r: nat)
    requires factor >= 1
    ensures r >= amount
  {
    MulLe(0, amount, factor);
    MulLe(1, factor, amount);
    amount * factor
  }

  /** Truncating division by a scale factor, never above the amount. */
  function ScaleDown(amount: nat, factor: nat): (r: nat)
    requires factor > 0
    ensures r <= amount
  {
    DivMulBelow(amount, factor);
    MulLe(1, factor, amount / factor);
    amount / factor
  }

  /** `amount * ratio / 10^18`, truncated: the share of a request a ratio pays. */
  function Payout(amount: nat, ratio: nat): (r: nat)
    ensures ratio <= WAD ==> r <= amount
  {
    MulLe(0, amount, ratio);
    PayoutCapped(amount, ratio);
    amount * ratio / WAD
  }

  lemma PayoutCapped(amount: nat, ratio: nat)
    ensures ratio <= WAD ==> amount * ratio / WAD <= amount
  {
    if ratio <= WAD {
      MulLe(ratio, WAD, amount);
      DivMonotone(amount * ratio, amount * WAD, WAD);
      MulDivCancel(amount, WAD);
    }
  }

  // ---------------------------------------------------------------------
  // Arithmetic helpers

  lemma MulAtLeast(k: int, d: int)
    requires k >= 1 && d > 0
    ensures k * d >= d
  {
  }

  lemma MulLe(a: int, b: int, d: int)
    requires a <= b && d >= 0
    ensures a * d <= b * d
  {
  }

  lemma ProductBounds(n: nat, p: nat)
    requires p >= 1
    ensures n * p >= n && (n > 0 ==> n * p >= p)
  {
    MulLe(1, p, n);
    if n > 0 {
      MulAtLeast(n, p);
    }
  }

  /** Euclidean division is determined by quotient and remainder. */
  lemma DivModUnique(n: int, d: int, q: int, r: int)
    requires d > 0 && 0 <= r < d && n == q * d + r
    ensures n / d == q && n % d == r
  {
    var k := q - n / d;
    assert k * d == n % d - r;
    if k >= 1 {
      MulAtLeast(k, d);
    } else if k <= -1 {
      MulAtLeast(-k, d);
    }
  }

  lemma MulDivCancel(a: nat, p: nat)
    requires p > 0
    ensures a * p / p == a
  {
    DivModUnique(a * p, p, a, 0);
  }

  lemma DivMulBelow(a: nat, p: nat)
    requires p > 0
    ensures a / p * p <= a
    ensures a - a / p * p < p
  {
    assert a == a / p * p + a % p;
  }

  lemma DivMonotone(x: nat, y: nat, d: nat)
    requires d > 0 && x <= y
    ensures x / d <= y / d
  {
    var qx, qy := x / d, y / d;
    assert x == qx * d + x % d;
    assert y == qy * d + y % d;
    if qx > qy {
      MulLe(qy + 1, qx, d);
      assert false;
    }
  }

  // ---------------------------------------------------------------------
  // Properties

  lemma {:induction false} Pow10Add(a: nat, b: nat)
    ensures Pow10(a + b) == Pow10(a) * Pow10(b)
  {
    if a > 0 {
      Pow10Add(a - 1, b);
      assert Pow10(a + b) == 10 * Pow10(a - 1 + b);
    }
  }

  /** `decimal(1)` is the 18-decimal fixed-point one. */
  lemma WadIsDecimalOne()
    ensures Decimal(1, 18) == WAD
  {
    Pow10Add(9, 9);
    assert Pow10(9) == 1_000_000_000;
  }

  /** When the vault token has at least the collateral's precision, a
      collateral amount converted to vault precision and back is recovered
      exactly. */
  lemma ScaleUpRoundTrip(amount: nat, collateralDecimals: nat, vaultDecimals: nat)
    requires vaultDecimals >= collateralDecimals
    ensures ToVaultDecimals(amount, collateralDecimals, vaultDecimals)
            == amount * Pow10(vaultDecimals - collateralDecimals)
    ensures ToCollateralDecimals(ToVaultDecimals(amount, collateralDecimals, vaultDecimals),
                                 collateralDecimals, vaultDecimals) == amount
  {
    MulDivCancel(amount, Pow10(vaultDecimals - collateralDecimals));
  }

  /** When the vault token has less precision, converting down truncates:
      the amount recovered is never more than the original and loses less
      than one vault-token unit; a vault-token amount converted to
      collateral precision and back is recovered exactly. */
  lemma ScaleDownTruncates(amount: nat, vaultAmount: nat, collateralDecimals: nat, vaultDecimals: nat)
    requires vaultDecimals < collateralDecimals
    ensures ToVaultDecimals(amount, collateralDecimals, vaultDecimals)
            == amount / Pow10(collateralDecimals - vaultDecimals)
    ensures var back := ToCollateralDecimals(ToVaultDecimals(amount, collateralDecimals, vaultDecimals),
                                             collateralDecimals, vaultDecimals);
            back <= amount && amount - back < Pow10(collateralDecimals - vaultDecimals)
    ensures ToVaultDecimals(ToCollateralDecimals(vaultAmount, collateralDecimals, vaultDecimals),
                            collateralDecimals, vaultDecimals) == vaultAmount
  {
    var p := Pow10(collateralDecimals - vaultDecimals);
    DivMulBelow(amount, p);
    MulDivCancel(vaultAmount, p);
  }

  /** Both conversions preserve order. */
  lemma ConversionsMonotone(a: nat, b: nat, collateralDecimals: nat, vaultDecimals: nat)
    requires a <= b
    ensures ToVaultDecimals(a, collateralDecimals, vaultDecimals)
            <= ToVaultDecimals(b, collateralDecimals, vaultDecimals)
    ensures ToCollateralDecimals(a, collateralDecimals, vaultDecimals)
            <= ToCollateralDecimals(b, collateralDecimals, vaultDecimals)
  {
    if vaultDecimals >= collateralDecimals {
      var p := Pow10(vaultDecimals - collateralDecimals);
      MulLe(a, b, p);
      DivMonotone(a, b, p);
    } else {
      var p := Pow10(collateralDecimals - vaultDecimals);
      MulLe(a, b, p);
      DivMonotone(a, b, p);
    }
  }

  /** The deposit scenario of the test suite: 6-decimal collateral, 8-decimal
      vault token, one whole unit deposited mints one whole vault token. */
  lemma OneUnitSixToEight()
    ensures ToVaultDecimals(Decimal(1, 6), 6, 8) == Decimal(1, 8) == 100_000_000
  {
    Pow10Add(2, 6);
  }

  /** A payout never exceeds the request when the ratio is at most 1.0,
      grows with the ratio, and a ratio of exactly 1.0 pays in full. */
  lemma PayoutBounds(amount: nat, ratio: nat, larger: nat)
    requires ratio <= larger
    ensures Payout(amount, ratio) <= Payout(amount, larger)
    ensures ratio <= WAD ==> Payout(amount, ratio) <= amount
    ensures Payout(amount, WAD) == amount
  {
    assert amount * ratio <= amount * larger;
    DivMonotone(amount * ratio, amount * larger, WAD);
    MulDivCancel(amount, WAD);
    if ratio <= WAD {
      assert amount * ratio <= amount * WAD;
      DivMonotone(amount * ratio, amount * WAD, WAD);
    }
  }

  /** The accept scenario of the test suite: 500 units of 6-decimal
      collateral at a ratio of 0.70 lock 350 units. */
  lemma SeventyPercentOfFiveHundred()
    ensures Payout(Decimal(500, 6), Decimal(70, 16)) == Decimal(350, 6)
  {
    Pow10Add(10, 6);
    Pow10Add(8, 8);
    assert Decimal(500, 6) * Decimal(70, 16) == Decimal(350, 6) * WAD;
    MulDivCancel(Decimal(350, 6), WAD);
  }
}
