/** The financial-projection engine: a fixed catalog of investment packages,
    month-by-month compounding of a balance with a constant contribution, a
    yearly trajectory with summary figures, and a terminal net-worth estimate. */
module Investment {
  import Decimal

  datatype InvestmentPackage = InvestmentPackage(
    name: string,
    expectedReturn: real,  // annual rate as a decimal fraction (0.05 is 5%)
    risk: string,
    description: string)

  /** The catalog, ordered from the lowest to the highest expected return; the
      position of a package is also its risk tier. */
  const Packages: seq<InvestmentPackage> := [
    InvestmentPackage("Conservative", 0.03, "Low",
      "Capital preservation first. Mostly bonds and high-grade income."),
    InvestmentPackage("Balanced", 0.05, "Medium",
      "Blend of equities and bonds for smoother long-term growth."),
    InvestmentPackage("Growth", 0.07, "High",
      "Mostly equities with some stabilisers. Built for long horizons."),
    InvestmentPackage("Aggressive", 0.09, "Very High",
      "Equity-heavy and volatile, aiming for maximum long-run upside.")
  ]

  /** `packages[index] ?? packages[0]`: an index outside the catalog selects
      the first package. */
  function PackageAt(index: int): InvestmentPackage
  {
    if 0 <= index < |Packages| then Packages[index] else Packages[0]
  }

  function Rate(index: int): real
  {
    PackageAt(index).expectedReturn
  }

  /** The catalog has four packages, each earning strictly more than the one
      before it, all at a positive rate. */
  lemma CatalogOrdered()
    ensures |Packages| == 4
    ensures forall i, j :: 0 <= i < j < |Packages| ==>
      0.0 < Packages[i].expectedReturn < Packages[j].expectedReturn
  {
  }

  /** An index outside 0..3 selects exactly what index 0 (Conservative) selects. */
  lemma FallbackIsConservative(index: int)
    requires index < 0 || index >= |Packages|
    ensures PackageAt(index) == PackageAt(0) == Packages[0]
    ensures PackageAt(index).name == "Conservative" && Rate(index) == 0.03
  {
  }

  // ---------------------------------------------------------------------
  // The shared monthly recurrence

  /** One simulated month: growth at a twelfth of the annual rate first, then
      the contribution. */
  function Step(balance: real, contribution: real, rate: real): real
  {
    balance * (1.0 + rate / 12.0) + contribution
  }

  /** The balance after `months` simulated months starting from `balance`. */
  function Grow(balance: real, contribution: real, rate: real, months: nat): real
  {
    if months == 0 then balance
    else Step(Grow(balance, contribution, rate, months - 1), contribution, rate)
  }

  /** `Math.pow` for an integral exponent: iterated multiplication. */
  function Pow(x: real, n: nat): (p: real)
    ensures x != 0.0 ==> p != 0.0
    ensures x >= 1.0 ==> p >= 1.0
  {
    if n == 0 then 1.0 else x * Pow(x, n - 1)
  }

  /** `Math.pow` for any integral exponent; a negative one gives the
      reciprocal power. */
  function PowInt(x: real, n: int): (p: real)
    requires x != 0.0 || n >= 0
    ensures x != 0.0 ==> p != 0.0
    ensures n >= 0 ==> p == Pow(x, n)
    ensures n < 0 ==> p * Pow(x, -n) == 1.0
  {
    if n >= 0 then Pow(x, n) else 1.0 / Pow(x, -n)
  }

  /** Simulating n months and then k more is simulating n + k months. */
  lemma {:induction false} GrowSplit(b: real, c: real, r: real, n: nat, k: nat)
    ensures Grow(b, c, r, n + k) == Grow(Grow(b, c, r, n), c, r, k)
  {
    if k > 0 {
      GrowSplit(b, c, r, n, k - 1);
    }
  }

  /** Without growth and without contributions the balance never moves. */
  lemma {:induction false} GrowIdle(r: real, n: nat)
    ensures Grow(0.0, 0.0, r, n) == 0.0
  {
    if n > 0 {
      GrowIdle(r, n - 1);
    }
  }

  /** At a zero rate the recurrence is plain saving: start plus n contributions. */
  lemma {:induction false} GrowWithoutInterest(b: real, c: real, n: nat)
    ensures Grow(b, c, 0.0, n) == b + c * n as real
  {
    if n > 0 {
      GrowWithoutInterest(b, c, n - 1);
    }
  }

  /** One step of the closed form below, as a polynomial identity. */
  lemma ClosedFormStep(prev: real, p: real, k: real, c: real, q: real)
    requires prev * q == k * p - c
    ensures (prev * (1.0 + q) + c) * q == k * ((1.0 + q) * p) - c
  {
  }

  /** The annuity closed form of the recurrence, with q the monthly rate:
      Grow * q == (b * q + c) * (1 + q)^n - c. */
  lemma {:induction false} GrowClosedForm(b: real, c: real, r: real, n: nat)
    ensures Grow(b, c, r, n) * (r / 12.0) == (b * (r / 12.0) + c) * Pow(1.0 + r / 12.0, n) - c
  {
    var q := r / 12.0;
    if n > 0 {
      GrowClosedForm(b, c, r, n - 1);
      ClosedFormStep(Grow(b, c, r, n - 1), Pow(1.0 + q, n - 1), b * q + c, c, q);
    }
  }

  /** With non-negative inputs the balance stays non-negative and never
      shrinks from one month to a later one. */
  lemma {:induction false} GrowNonDecreasing(b: real, c: real, r: real, n: nat, k: nat)
    requires b >= 0.0 && c >= 0.0 && r >= 0.0
    ensures 0.0 <= Grow(b, c, r, n) <= Grow(b, c, r, n + k)
  {
    if k == 0 {
      if n > 0 {
        GrowNonDecreasing(b, c, r, 0, n);
      }
    } else {
      GrowNonDecreasing(b, c, r, n, k - 1);
      var prev := Grow(b, c, r, n + k - 1);
      assert prev * (r / 12.0) >= 0.0;
      assert Grow(b, c, r, n + k) == prev + prev * (r / 12.0) + c;
    }
  }

  /** With non-negative inputs the balance is at least the cash paid in. */
  lemma {:induction false} GrowCoversContributions(b: real, c: real, r: real, n: nat)
    requires b >= 0.0 && c >= 0.0 && r >= 0.0
    ensures Grow(b, c, r, n) >= b + c * n as real
  {
    if n > 0 {
      GrowCoversContributions(b, c, r, n - 1);
      GrowNonDecreasing(b, c, r, n - 1, 0);
      var prev := Grow(b, c, r, n - 1);
      assert prev * (r / 12.0) >= 0.0;
      assert Grow(b, c, r, n) == prev + prev * (r / 12.0) + c;
    }
  }

  /** One month at a higher rate from a higher non-negative balance ends higher. */
  lemma StepMonotone(x1: real, x2: real, c: real, r1: real, r2: real)
    requires 0.0 <= x1 <= x2 && 0.0 <= r1 <= r2
    ensures Step(x1, c, r1) <= Step(x2, c, r2)
  {
  }

  /** With non-negative inputs a higher rate never gives a lower balance. */
  lemma {:induction false} GrowMonotoneInRate(b: real, c: real, r1: real, r2: real, n: nat)
    requires b >= 0.0 && c >= 0.0 && 0.0 <= r1 <= r2
    ensures Grow(b, c, r1, n) <= Grow(b, c, r2, n)
  {
    if n > 0 {
      GrowMonotoneInRate(b, c, r1, r2, n - 1);
      GrowNonDecreasing(b, c, r1, n - 1, 0);
      StepMonotone(Grow(b, c, r1, n - 1), Grow(b, c, r2, n - 1), c, r1, r2);
    }
  }

  // ---------------------------------------------------------------------
  // The yearly projection

  datatype ProjectionResult = ProjectionResult(
    labels: seq<string>,
    values: seq<real>,
    totalContributions: real,
    futureValue: real,
    realValue: real)

  /** Number of year boundaries recorded: years 0..years, none for a negative horizon. */
  function YearCount(years: int): nat
  {
    if years >= 0 then years + 1 else 0
  }

  /** Months simulated in all: none for a negative horizon. */
  function TotalMonths(years: int): nat
  {
    if years >= 0 then 12 * years else 0
  }

  /** The inflation deflator `(1 + inflationPercent/100)^years` is non-zero
      whenever the horizon is positive, so the real value is a finite number. */
  predicate Deflatable(inflationPercent: real, years: int)
  {
    years > 0 ==> 1.0 + inflationPercent / 100.0 != 0.0
  }

  /** `futureValue / Math.pow(base, years)`. For a negative horizon and a zero
      base `Math.pow` is Infinity, and a finite amount divided by it is 0. */
  function Deflate(futureValue: real, base: real, years: int): (realValue: real)
    requires years > 0 ==> base != 0.0
    ensures base != 0.0 || years == 0 ==> realValue * PowInt(base, years) == futureValue
    ensures base == 0.0 && years < 0 ==> realValue == 0.0
  {
    if base == 0.0 && years < 0 then 0.0 else futureValue / PowInt(base, years)
  }

  /** The projection as a value: year y of the trajectory is the balance after
      12 * y months, independently of how the months are simulated. */
  function Projection(startingBalance: real, monthlyContribution: real, years: int,
                      inflationPercent: real, packageIndex: int): ProjectionResult
    requires Deflatable(inflationPercent, years)
  {
    var r := Rate(packageIndex);
    var n := YearCount(years);
    var futureValue := Grow(startingBalance, monthlyContribution, r, TotalMonths(years));
    ProjectionResult(
      seq(n, (y: int) requires 0 <= y => Decimal.NatToString(y)),
      seq(n, (y: int) requires 0 <= y => Grow(startingBalance, monthlyContribution, r, 12 * y)),
      startingBalance + monthlyContribution * years as real * 12.0,
      futureValue,
      Deflate(futureValue, 1.0 + inflationPercent / 100.0, years))
  }

  /** `runProjection`: simulates the months year by year, recording the balance
      at every year boundary together with the year's label. */
  method RunProjection(startingBalance: real, monthlyContribution: real, years: int,
                       inflationPercent: real, packageIndex: int)
    returns (res: ProjectionResult)
    requires Deflatable(inflationPercent, years)
    ensures res == Projection(startingBalance, monthlyContribution, years,
                              inflationPercent, packageIndex)
  {
    var pkg := PackageAt(packageIndex);
    var expected := pkg.expectedReturn;
    var balance := startingBalance;
    var labels: seq<string> := [];
    var values: seq<real> := [];
    var year := 0;
    while year <= years
      invariant 0 <= year <= YearCount(years)
      invariant |labels| == |values| == year
      invariant forall y :: 0 <= y < year ==> labels[y] == Decimal.NatToString(y)
      invariant forall y :: 0 <= y < year ==>
        values[y] == Grow(startingBalance, monthlyContribution, expected, 12 * y)
      invariant balance == Grow(startingBalance, monthlyContribution, expected,
                                if year == 0 then 0 else 12 * (year - 1))
    {
      labels := labels + [Decimal.NatToString(year)];
      if year == 0 {
        values := values + [balance];
        year := year + 1;
        continue;
      }
      for m := 0 to 12
        invariant balance == Grow(startingBalance, monthlyContribution, expected,
                                  12 * (year - 1) + m)
      {
        balance := balance * (1.0 + expected / 12.0) + monthlyContribution;
      }
      values := values + [balance];
      year := year + 1;
    }
    var totalContributions := startingBalance + monthlyContribution * years as real * 12.0;
    var futureValue := balance;
    var realValue := Deflate(futureValue, 1.0 + inflationPercent / 100.0, years);
    res := ProjectionResult(labels, values, totalContributions, futureValue, realValue);
  }

  /** Shape of a projection: parallel sequences for years 0..years whose labels
      are the year numerals, starting at the starting balance and ending at the
      future value; the contribution total is the linear cash-flow sum. */
  lemma ProjectionShape(startingBalance: real, monthlyContribution: real, years: int,
                        inflationPercent: real, packageIndex: int)
    requires Deflatable(inflationPercent, years)
    ensures var p := Projection(startingBalance, monthlyContribution, years,
                                inflationPercent, packageIndex);
      && |p.labels| == |p.values| == (if years >= 0 then years + 1 else 0)
      && (forall y :: 0 <= y < |p.labels| ==>
            Decimal.IsDigits(p.labels[y]) && Decimal.ParseDecimal(p.labels[y]) == y)
      && (years >= 0 ==> p.values[0] == startingBalance && p.futureValue == p.values[years])
      && (years < 0 ==> p.futureValue == startingBalance)
      && p.totalContributions == startingBalance + monthlyContribution * years as real * 12.0
  {
    var p := Projection(startingBalance, monthlyContribution, years,
                        inflationPercent, packageIndex);
    forall y | 0 <= y < |p.labels|
      ensures Decimal.IsDigits(p.labels[y]) && Decimal.ParseDecimal(p.labels[y]) == y
    {
      Decimal.ParseNatToString(y);
    }
  }

  /** Each recorded year is the previous one compounded for twelve more
      months, growth before contribution. */
  lemma ProjectionRecurrence(startingBalance: real, monthlyContribution: real, years: int,
                             inflationPercent: real, packageIndex: int)
    requires Deflatable(inflationPercent, years)
    ensures var p := Projection(startingBalance, monthlyContribution, years,
                                inflationPercent, packageIndex);
      forall y :: 1 <= y < |p.values| ==>
        p.values[y] == Grow(p.values[y - 1], monthlyContribution, Rate(packageIndex), 12)
  {
    var p := Projection(startingBalance, monthlyContribution, years,
                        inflationPercent, packageIndex);
    var r := Rate(packageIndex);
    forall y | 1 <= y < |p.values|
      ensures p.values[y] == Grow(p.values[y - 1], monthlyContribution, r, 12)
    {
      GrowSplit(startingBalance, monthlyContribution, r, 12 * (y - 1), 12);
    }
  }

  /** The real value is the future value deflated once by the compounded
      inflation over the whole horizon (0 when that deflator is an infinite
      power of zero); with non-negative inflation it never exceeds a
      non-negative future value. */
  lemma ProjectionRealValue(startingBalance: real, monthlyContribution: real, years: int,
                            inflationPercent: real, packageIndex: int)
    requires Deflatable(inflationPercent, years)
    ensures var p := Projection(startingBalance, monthlyContribution, years,
                                inflationPercent, packageIndex);
      && (1.0 + inflationPercent / 100.0 != 0.0 || years == 0 ==>
            p.realValue * PowInt(1.0 + inflationPercent / 100.0, years) == p.futureValue)
      && (1.0 + inflationPercent / 100.0 == 0.0 && years < 0 ==> p.realValue == 0.0)
      && (inflationPercent >= 0.0 && years >= 0 && p.futureValue >= 0.0 ==>
            0.0 <= p.realValue <= p.futureValue)
  {
  }

  /** With non-negative starting balance and contribution the trajectory never
      decreases (every catalog rate is non-negative). */
  lemma ProjectionMonotone(startingBalance: real, monthlyContribution: real, years: int,
                           inflationPercent: real, packageIndex: int)
    requires Deflatable(inflationPercent, years)
    requires startingBalance >= 0.0 && monthlyContribution >= 0.0
    ensures var p := Projection(startingBalance, monthlyContribution, years,
                                inflationPercent, packageIndex);
      forall i, j :: 0 <= i <= j < |p.values| ==> 0.0 <= p.values[i] <= p.values[j]
  {
    var p := Projection(startingBalance, monthlyContribution, years,
                        inflationPercent, packageIndex);
    forall i, j | 0 <= i <= j < |p.values|
      ensures 0.0 <= p.values[i] <= p.values[j]
    {
      GrowNonDecreasing(startingBalance, monthlyContribution, Rate(packageIndex),
                        12 * i, 12 * j - 12 * i);
    }
  }

  /** With non-negative inputs the projected future value is at least the
      nominal total paid in. */
  lemma ProjectionCoversContributions(startingBalance: real, monthlyContribution: real, years: int,
                                      inflationPercent: real, packageIndex: int)
    requires Deflatable(inflationPercent, years)
    requires startingBalance >= 0.0 && monthlyContribution >= 0.0 && years >= 0
    ensures var p := Projection(startingBalance, monthlyContribution, years,
                                inflationPercent, packageIndex);
      p.futureValue >= p.totalContributions
  {
    GrowCoversContributions(startingBalance, monthlyContribution, Rate(packageIndex), 12 * years);
  }

  /** Any package index outside 0..3 projects exactly like index 0. */
  lemma ProjectionFallback(startingBalance: real, monthlyContribution: real, years: int,
                           inflationPercent: real, packageIndex: int)
    requires Deflatable(inflationPercent, years)
    requires packageIndex < 0 || packageIndex >= |Packages|
    ensures Projection(startingBalance, monthlyContribution, years, inflationPercent, packageIndex)
         == Projection(startingBalance, monthlyContribution, years, inflationPercent, 0)
  {
  }

  // ---------------------------------------------------------------------
  // The terminal estimate

  /** The estimate as a value: a zero start compounded for 12 * years months. */
  function NetWorth(monthlyInvestment: real, packageIndex: int, years: int): real
  {
    Grow(0.0, monthlyInvestment, Rate(packageIndex), TotalMonths(years))
  }

  /** `estimateNetWorth`: the same nested loop from a zero balance, returning
      only the final balance. */
  method EstimateNetWorth(monthlyInvestment: real, packageIndex: int, years: int := 20)
    returns (balance: real)
    ensures balance == NetWorth(monthlyInvestment, packageIndex, years)
  {
    var pkg := PackageAt(packageIndex);
    var expected := pkg.expectedReturn;
    balance := 0.0;
    var y := 0;
    while y < years
      invariant 0 <= y <= (if years >= 0 then years else 0)
      invariant balance == Grow(0.0, monthlyInvestment, expected, 12 * y)
    {
      for m := 0 to 12
        invariant balance == Grow(0.0, monthlyInvestment, expected, 12 * y + m)
      {
        balance := balance * (1.0 + expected / 12.0) + monthlyInvestment;
      }
      y := y + 1;
    }
  }

  /** The estimate is the future value of a projection from a zero starting
      balance, whatever the inflation. */
  lemma NetWorthIsZeroStartProjection(monthlyInvestment: real, packageIndex: int, years: int,
                                      inflationPercent: real)
    requires Deflatable(inflationPercent, years)
    ensures NetWorth(monthlyInvestment, packageIndex, years)
         == Projection(0.0, monthlyInvestment, years, inflationPercent, packageIndex).futureValue
  {
  }

  /** Without contributions the estimate is zero, whatever the package. */
  lemma NetWorthWithoutContributions(packageIndex: int, years: int)
    ensures NetWorth(0.0, packageIndex, years) == 0.0
  {
    GrowIdle(Rate(packageIndex), TotalMonths(years));
  }

  /** Any package index outside 0..3 estimates exactly like index 0. */
  lemma NetWorthFallback(monthlyInvestment: real, packageIndex: int, years: int)
    requires packageIndex < 0 || packageIndex >= |Packages|
    ensures NetWorth(monthlyInvestment, packageIndex, years) == NetWorth(monthlyInvestment, 0, years)
  {
  }

  /** A higher risk tier never gives a lower estimate for a non-negative
      investment, and the estimate covers the cash paid in. */
  lemma NetWorthMonotoneInTier(monthlyInvestment: real, i: int, j: int, years: int)
    requires monthlyInvestment >= 0.0
    requires 0 <= i <= j < |Packages|
    ensures monthlyInvestment * TotalMonths(years) as real
         <= NetWorth(monthlyInvestment, i, years)
         <= NetWorth(monthlyInvestment, j, years)
  {
    CatalogOrdered();
    GrowCoversContributions(0.0, monthlyInvestment, Rate(i), TotalMonths(years));
    GrowMonotoneInRate(0.0, monthlyInvestment, Rate(i), Rate(j), TotalMonths(years));
  }
}
