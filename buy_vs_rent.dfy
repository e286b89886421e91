/**
 * The buy-versus-rent comparison as a whole: the sidebar inputs, the values
 * derived from them, the two present values and their difference, and the
 * recommendation read off the sign of the difference.
 */
module BuyVsRent {
  import opened Numerics
  import opened Mortgage
  import opened Npv

  /** The sidebar inputs; every percentage slider is already divided by 100. */
  datatype Inputs = Inputs(
    rent: real,
    homePrice: real,
    rentIncrease: real,
    homeAppreciation: real,
    investmentReturn: real,
    propertyTaxRate: real,
    insuranceRate: real,
    maintenanceRate: real,
    transactionCost: real,
    holdingPeriod: nat,
    downPaymentPct: real,
    mortgageRate: real,
    loanTermYears: nat)

  /** The ranges the sliders allow; monthly rent and home price are unbounded number inputs. */
  predicate InSliderRanges(p: Inputs)
  {
    && 0.0 <= p.rentIncrease <= 0.05
    && 0.0 <= p.homeAppreciation <= 0.05
    && 0.0 <= p.investmentReturn <= 0.10
    && 0.0 <= p.propertyTaxRate <= 0.03
    && 0.0 <= p.insuranceRate <= 0.01
    && 0.0 <= p.maintenanceRate <= 0.02
    && 0.0 <= p.transactionCost <= 0.10
    && 1 <= p.holdingPeriod <= 30
    && 0.0 <= p.downPaymentPct <= 1.0
    && 0.0 <= p.mortgageRate <= 0.10
    && 5 <= p.loanTermYears <= 40
  }

  /** The values computed once from the inputs before any discounting. */
  datatype Derived = Derived(
    loanAmount: real,
    monthlyMortgagePayment: real,
    annualRent: real,
    annualOwnershipCost: real,
    annualMortgagePayment: real)

  /** The recommendation shown for a difference of present values. */
  datatype Verdict = RentingCheaper | BuyingCheaper | Equal

  /** The three results of one evaluation, with the recommendation they support. */
  datatype Outcome = Outcome(rentNpv: real, ownNpv: real, difference: real, verdict: Verdict)

  /**
   * The derived mortgage values and annualised costs. The ownership cost is
   * property tax, insurance and maintenance, each a rate of the purchase price;
   * the mortgage is paid only when there is a loan.
   */
  function Derive(p: Inputs): (d: Derived)
    requires p.mortgageRate >= 0.0 && p.loanTermYears >= 1
    ensures d.loanAmount == p.homePrice * (1.0 - p.downPaymentPct)
    ensures d.monthlyMortgagePayment == MonthlyPayment(d.loanAmount, p.mortgageRate, p.loanTermYears)
    ensures d.annualRent == 12.0 * p.rent
    ensures d.annualOwnershipCost == p.homePrice * (p.propertyTaxRate + p.insuranceRate + p.maintenanceRate)
    ensures d.annualMortgagePayment == 12.0 * d.monthlyMortgagePayment
    ensures d.loanAmount <= 0.0 <==> d.annualMortgagePayment == 0.0
    ensures d.loanAmount > 0.0 <==> d.annualMortgagePayment > 0.0
    ensures p.downPaymentPct == 1.0 ==> d.annualMortgagePayment == 0.0
    ensures p.homePrice >= 0.0 && p.propertyTaxRate >= 0.0 && p.insuranceRate >= 0.0 && p.maintenanceRate >= 0.0
            ==> d.annualOwnershipCost >= 0.0
  {
    var loanAmount := LoanAmount(p.homePrice, p.downPaymentPct);
    var monthlyMortgagePayment := MonthlyPayment(loanAmount, p.mortgageRate, p.loanTermYears);
    var annualPropertyTax := p.homePrice * p.propertyTaxRate;
    var annualInsurance := p.homePrice * p.insuranceRate;
    var annualMaintenance := p.homePrice * p.maintenanceRate;
    Derived(
      loanAmount,
      monthlyMortgagePayment,
      p.rent * 12.0,
      annualPropertyTax + annualInsurance + annualMaintenance,
      monthlyMortgagePayment * 12.0)
  }

  /**
   * The recommendation as displayed: a positive difference is announced as
   * "renting is cheaper", a negative one as "buying is cheaper".
   */
  function VerdictAsWritten(difference: real): (v: Verdict)
    ensures v == RentingCheaper <==> difference > 0.0
    ensures v == BuyingCheaper <==> difference < 0.0
    ensures v == Equal <==> difference == 0.0
  {
    if difference > 0.0 then RentingCheaper
    else if difference < 0.0 then BuyingCheaper
    else Equal
  }

  /** The recommendation names the option with the smaller present-value cost. */
  function Recommend(rentNpv: real, ownNpv: real): (v: Verdict)
    ensures v == RentingCheaper <==> rentNpv < ownNpv
    ensures v == BuyingCheaper <==> ownNpv < rentNpv
    ensures v == Equal <==> rentNpv == ownNpv
  {
    var difference := rentNpv - ownNpv;
    if difference > 0.0 then BuyingCheaper
    else if difference < 0.0 then RentingCheaper
    else Equal
  }

  /** One evaluation of the calculator on inputs the sidebar can produce. */
  function Evaluate(p: Inputs): (r: Outcome)
    requires InSliderRanges(p)
    ensures r.difference == r.rentNpv - r.ownNpv
    ensures r.verdict == Recommend(r.rentNpv, r.ownNpv)
    ensures p.rent > 0.0 ==> r.rentNpv > 0.0
  {
    var d := Derive(p);
    var rentNpv := NpvOfRent(d.annualRent, p.rentIncrease, p.investmentReturn, p.holdingPeriod);
    var ownNpv := OwnNpv(p.homePrice, p.homeAppreciation, p.investmentReturn, p.holdingPeriod,
                         d.annualOwnershipCost, d.annualMortgagePayment, p.loanTermYears, p.transactionCost);
    Outcome(rentNpv, ownNpv, rentNpv - ownNpv, Recommend(rentNpv, ownNpv))
  }

  /**
   * The calculator run top to bottom: derive the mortgage and cost values, value
   * the rent path, run the year-by-year ownership loop and compare.
   */
  method Run(p: Inputs) returns (r: Outcome)
    requires InSliderRanges(p)
    ensures r == Evaluate(p)
  {
    var d := Derive(p);
    var rentNpv := NpvOfRent(d.annualRent, p.rentIncrease, p.investmentReturn, p.holdingPeriod);
    var ownNpv := OwningVsRenting(p.homePrice, p.homeAppreciation, p.investmentReturn, p.holdingPeriod,
                                  d.annualOwnershipCost, d.annualMortgagePayment, p.loanTermYears,
                                  p.transactionCost);
    var diff := rentNpv - ownNpv;
    r := Outcome(rentNpv, ownNpv, diff, Recommend(rentNpv, ownNpv));
  }

  /**
   * The difference in closed form: the rent path less the ownership cost as a level
   * annuity over the holding period, less the mortgage as a level annuity over the
   * years the loan runs within it, plus the discounted net gain of the sale.
   */
  lemma DifferenceClosedForm(p: Inputs)
    requires InSliderRanges(p)
    ensures var d := Derive(p);
      Evaluate(p).difference
      == NpvOfRent(d.annualRent, p.rentIncrease, p.investmentReturn, p.holdingPeriod)
         - AnnuitySum(d.annualOwnershipCost, p.investmentReturn, p.holdingPeriod)
         - AnnuitySum(d.annualMortgagePayment, p.investmentReturn, Min(p.holdingPeriod, p.loanTermYears))
         + NetGain(p.homePrice, p.homeAppreciation, p.transactionCost, p.holdingPeriod)
           / Pow(1.0 + p.investmentReturn, p.holdingPeriod)
  {
    var d := Derive(p);
    OwnCostSumSplit(d.annualOwnershipCost, d.annualMortgagePayment, p.loanTermYears,
                    p.investmentReturn, p.holdingPeriod);
  }

  /**
   * The displayed recommendation is inverted: it says renting is cheaper exactly
   * when renting has the larger present-value cost, and buying is cheaper exactly
   * when buying has.
   */
  lemma VerdictAsWrittenIsInverted(rentNpv: real, ownNpv: real)
    ensures VerdictAsWritten(rentNpv - ownNpv) == RentingCheaper <==> rentNpv > ownNpv
    ensures VerdictAsWritten(rentNpv - ownNpv) == BuyingCheaper <==> ownNpv > rentNpv
    ensures rentNpv != ownNpv ==> VerdictAsWritten(rentNpv - ownNpv) != Recommend(rentNpv, ownNpv)
  {
  }

  /**
   * The default inputs: a full cash purchase, so no mortgage payment; an ownership
   * cost of 70000 a year and a rent of 80400 a year. Renting then costs between
   * 150000 and 250000 more than owning in present value, so the right
   * recommendation is to buy, while the displayed one is to rent.
   */
  lemma DefaultScenario()
    ensures var p := Inputs(6700.0, 2500000.0, 0.02, 0.01, 0.05, 0.015, 0.003, 0.01, 0.07, 10, 1.0, 0.065, 30);
            && InSliderRanges(p)
            && Derive(p).monthlyMortgagePayment == 0.0
            && Derive(p).annualOwnershipCost == 70000.0
            && Derive(p).annualRent == 80400.0
            && Evaluate(p).ownNpv > 0.0
            && 150000.0 < Evaluate(p).difference < 250000.0
            && Evaluate(p).verdict == BuyingCheaper
            && VerdictAsWritten(Evaluate(p).difference) == RentingCheaper
  {
  }
}
