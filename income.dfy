/** The budget planner's recommendation rule: how much of the disposable
    income to invest each month, which package tier that suggests, and the
    net worth that investment is estimated to reach in twenty years. */
module Income {
  import Investment

  /** `Math.max` on two numbers. */
  function RealMax(a: real, b: real): real { if a >= b then a else b }

  /** `Math.min` on two numbers. */
  function RealMin(a: real, b: real): real { if a <= b then a else b }

  /** The horizon of the planner's estimate, in years. */
  const EstimateYears: int := 20

  /** The recommended monthly investment: 40% of the disposable income, never
      below zero, capped by the stated monthly savings. It is the largest
      amount that respects both the savings cap and the 40% share. */
  function InvestAmount(income: real, savings: real, spending: real): (invest: real)
    ensures invest <= savings
    ensures invest <= 0.4 * RealMax(0.0, income - spending)
    ensures invest == savings || invest == 0.4 * RealMax(0.0, income - spending)
    ensures savings >= 0.0 ==> 0.0 <= invest
  {
    var disposable := income - spending;
    var invest := RealMax(0.0, disposable * 0.4);
    RealMin(invest, savings)
  }

  /** `income ? invest / income : 0`: a zero income gives ratio 0 instead of
      a division by zero; any other income (a negative one included) divides. */
  function Ratio(invest: real, income: real): (ratio: real)
    ensures income == 0.0 ==> ratio == 0.0
    ensures income != 0.0 ==> ratio * income == invest
    ensures invest >= 0.0 && income > 0.0 ==> ratio >= 0.0
  {
    if income != 0.0 then invest / income else 0.0
  }

  /** The ratio thresholds at which the recommendation moves up one tier. */
  const Thresholds: seq<real> := [0.1, 0.2, 0.3]

  /** The tier ladder: the first branch whose bound the ratio is below wins. */
  function Tier(ratio: real): (index: int)
    ensures 0 <= index < |Investment.Packages|
  {
    if ratio < 0.1 then 0
    else if ratio < 0.2 then 1
    else if ratio < 0.3 then 2
    else 3
  }

  /** How many of the thresholds the ratio has reached (a threshold is reached
      when the ratio is at least that value). */
  function Reached(thresholds: seq<real>, ratio: real): (count: nat)
    ensures count <= |thresholds|
  {
    if thresholds == [] then 0
    else (if thresholds[0] <= ratio then 1 else 0) + Reached(thresholds[1..], ratio)
  }

  /** The tier is the number of thresholds the ratio has reached. */
  lemma TierCountsThresholds(ratio: real)
    ensures Tier(ratio) == Reached(Thresholds, ratio)
  {
    var last: seq<real> := [0.3];
    assert last[1..] == [];
    assert Reached(last, ratio) == if 0.3 <= ratio then 1 else 0;
    var tail: seq<real> := [0.2, 0.3];
    assert tail[1..] == last;
    assert Thresholds[1..] == tail;
  }

  /** Every band is closed below and open above, and the bands cover all ratios. */
  lemma TierBands(ratio: real)
    ensures Tier(ratio) == 0 <==> ratio < 0.1
    ensures Tier(ratio) == 1 <==> 0.1 <= ratio < 0.2
    ensures Tier(ratio) == 2 <==> 0.2 <= ratio < 0.3
    ensures Tier(ratio) == 3 <==> 0.3 <= ratio
  {
  }

  /** A larger ratio never suggests a lower tier. */
  lemma TierMonotone(r1: real, r2: real)
    requires r1 <= r2
    ensures Tier(r1) <= Tier(r2)
  {
  }

  /** For an income of 1000, invested amounts just below and exactly at each
      threshold land on either side of it. */
  lemma TierLadderBoundaries()
    ensures Tier(Ratio(99.0, 1000.0)) == 0 && Tier(Ratio(100.0, 1000.0)) == 1
    ensures Tier(Ratio(199.0, 1000.0)) == 1 && Tier(Ratio(200.0, 1000.0)) == 2
    ensures Tier(Ratio(299.0, 1000.0)) == 2 && Tier(Ratio(300.0, 1000.0)) == 3
  {
  }

  datatype Recommendation = Recommendation(invest: real, index: int, estimated: real)

  /** The values the planner computes from income, savings and spending: the
      amount, the tier of the suggested package, and the estimate for that
      amount in that package over twenty years. */
  function Recommend(income: real, savings: real, spending: real): (rec: Recommendation)
    ensures rec.invest <= savings && rec.invest <= 0.4 * RealMax(0.0, income - spending)
    ensures rec.invest == savings || rec.invest == 0.4 * RealMax(0.0, income - spending)
    ensures 0 <= rec.index < |Investment.Packages|
    ensures rec.index == Tier(Ratio(rec.invest, income))
    ensures rec.estimated == Investment.NetWorth(rec.invest, rec.index, EstimateYears)
  {
    var invest := InvestAmount(income, savings, spending);
    var ratio := Ratio(invest, income);
    var index := Tier(ratio);
    Recommendation(invest, index, Investment.NetWorth(invest, index, EstimateYears))
  }

  /** With non-negative savings the recommended amount lies between zero and
      the savings, never exceeds 40% of the disposable income, and its
      estimate is at least the 240 contributions paid in. */
  lemma RecommendBounds(income: real, savings: real, spending: real)
    requires savings >= 0.0
    ensures var rec := Recommend(income, savings, spending);
      && 0.0 <= rec.invest <= savings
      && rec.invest <= 0.4 * RealMax(0.0, income - spending)
      && 240.0 * rec.invest <= rec.estimated
  {
    var rec := Recommend(income, savings, spending);
    Investment.NetWorthMonotoneInTier(rec.invest, rec.index, rec.index, EstimateYears);
  }

  /** A zero income suggests the Conservative package. */
  lemma RecommendZeroIncome(savings: real, spending: real)
    ensures Recommend(0.0, savings, spending).index == 0
    ensures Investment.Packages[Recommend(0.0, savings, spending).index].name == "Conservative"
  {
  }

  /** A negative income is divided by like any non-zero one; with non-negative
      savings the ratio is then at most 0, so the tier is 0. */
  lemma RecommendNegativeIncome(income: real, savings: real, spending: real)
    requires income < 0.0 && savings >= 0.0
    ensures Ratio(InvestAmount(income, savings, spending), income) <= 0.0
    ensures Recommend(income, savings, spending).index == 0
  {
  }

  /** The estimate shown is what the estimator computes, and the future value
      of a projection from a zero start, for the recommended amount and tier. */
  lemma RecommendEstimate(income: real, savings: real, spending: real, inflationPercent: real)
    requires Investment.Deflatable(inflationPercent, EstimateYears)
    ensures var rec := Recommend(income, savings, spending);
      rec.estimated
        == Investment.Projection(0.0, rec.invest, EstimateYears, inflationPercent, rec.index).futureValue
  {
  }

  /** The planner's initial inputs (income 5000, savings 1000, spending 3500)
      recommend 600 a month, a ratio of 0.12 and the Balanced package. */
  lemma RecommendDefaults()
    ensures InvestAmount(5000.0, 1000.0, 3500.0) == 600.0
    ensures Ratio(600.0, 5000.0) == 0.12
    ensures Recommend(5000.0, 1000.0, 3500.0)
         == Recommendation(600.0, 1, Investment.NetWorth(600.0, 1, EstimateYears))
    ensures Investment.Packages[1].name == "Balanced"
  {
  }
}
