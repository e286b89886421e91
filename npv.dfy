/**
 * Discounting of the two yearly cash-flow paths to present value: the rent
 * path, a geometric series of rents, and the ownership path, the carrying cost
 * of each year less the discounted gain of the sale at the end of the holding
 * period.
 */
module Npv {
  import opened Numerics

  function Min(a: nat, b: nat): nat
  {
    if a <= b then a else b
  }

  /**
   * The present value of renting for `years` years: the rent of year `t` is
   * `r0 * (1+growth)^t`, discounted by `(1+discount)^t`, summed over years
   * `1..years` in order.
   */
  function NpvOfRent(r0: real, growth: real, discount: real, years: nat): (r: real)
    requires discount != -1.0
    ensures r0 > 0.0 && growth > -1.0 && discount > -1.0 ==> (r > 0.0 <==> years >= 1)
  {
    if years == 0 then 0.0
    else NpvOfRent(r0, growth, discount, years - 1) + RentTerm(r0, growth, discount, years)
  }

  /** The rent of year `t`, grown from `r0` and discounted to today. */
  function RentTerm(r0: real, growth: real, discount: real, t: nat): real
    requires discount != -1.0
  {
    r0 * Pow(1.0 + growth, t) / Pow(1.0 + discount, t)
  }

  /** The present value of `amount` paid at the end of each of years `1..years`. */
  function AnnuitySum(amount: real, discount: real, years: nat): real
    requires discount != -1.0
  {
    if years == 0 then 0.0
    else AnnuitySum(amount, discount, years - 1) + amount / Pow(1.0 + discount, years)
  }

  /** Without rent growth, the rent path is the first year's rent times the annuity of one. */
  lemma {:induction false} RentNpvWithoutGrowth(r0: real, discount: real, years: nat)
    requires discount != -1.0
    ensures NpvOfRent(r0, 0.0, discount, years) == r0 * AnnuitySum(1.0, discount, years)
  {
    if years > 0 {
      RentNpvWithoutGrowth(r0, discount, years - 1);
      PowOfOne(years);
      var p := Pow(1.0 + discount, years);
      QuotientAsProduct(r0 * 1.0, p);
    }
  }

  /** The annuity of one in closed form: `d * sum == 1 - 1/(1+d)^years`. */
  lemma {:induction false} AnnuityOfOneTimesRate(discount: real, years: nat)
    requires discount > -1.0
    ensures AnnuitySum(1.0, discount, years) * discount == 1.0 - 1.0 / Pow(1.0 + discount, years)
  {
    if years > 0 {
      AnnuityOfOneTimesRate(discount, years - 1);
      AnnuityStep(AnnuitySum(1.0, discount, years - 1), discount, Pow(1.0 + discount, years - 1));
    }
  }

  /** Adding one more discounted unit keeps the closed form of the annuity of one. */
  lemma AnnuityStep(s: real, d: real, p: real)
    requires p > 0.0 && d > -1.0
    requires s * d == 1.0 - 1.0 / p
    ensures (s + 1.0 / ((1.0 + d) * p)) * d == 1.0 - 1.0 / ((1.0 + d) * p)
  {
    var q := (1.0 + d) * p;
    assert 1.0 / p == (1.0 + d) / q;
    calc {
      (s + 1.0 / q) * d;
      s * d + d / q;
      1.0 - (1.0 + d) / q + d / q;
      1.0 - 1.0 / q;
    }
  }

  /** For a nonzero discount rate, the annuity of one is `(1 - (1+d)^-years) / d`. */
  lemma AnnuityOfOneClosedForm(discount: real, years: nat)
    requires discount > -1.0 && discount != 0.0
    ensures AnnuitySum(1.0, discount, years) == (1.0 - 1.0 / Pow(1.0 + discount, years)) / discount
  {
    AnnuityOfOneTimesRate(discount, years);
  }

  /** When rents grow at the discount rate, every year is worth the first year's rent today. */
  lemma {:induction false} RentNpvGrowthMatchesDiscount(r0: real, rate: real, years: nat)
    requires rate != -1.0
    ensures NpvOfRent(r0, rate, rate, years) == r0 * years as real
  {
    if years > 0 {
      RentNpvGrowthMatchesDiscount(r0, rate, years - 1);
      RentTermAtMatchingGrowth(r0, rate, years);
    }
  }

  /** Growth at the discount rate leaves one year's rent at its first-year value. */
  lemma RentTermAtMatchingGrowth(r0: real, rate: real, t: nat)
    requires rate != -1.0
    ensures RentTerm(r0, rate, rate, t) == r0
  {
    QuotientCancels(r0, Pow(1.0 + rate, t));
  }

  /** Faster rent growth makes renting strictly dearer, for a positive rent and at least one year. */
  lemma {:induction false} RentNpvIncreasingInGrowth(r0: real, growth: real, growth': real, discount: real, years: nat)
    requires r0 > 0.0 && -1.0 < growth < growth' && discount > -1.0 && years >= 1
    ensures NpvOfRent(r0, growth, discount, years) < NpvOfRent(r0, growth', discount, years)
  {
    if years > 1 {
      RentNpvIncreasingInGrowth(r0, growth, growth', discount, years - 1);
    }
    RentTermIncreasingInGrowth(r0, growth, growth', discount, years);
  }

  /** The discounted rent of a single year grows strictly with the growth rate. */
  lemma RentTermIncreasingInGrowth(r0: real, growth: real, growth': real, discount: real, t: nat)
    requires r0 > 0.0 && -1.0 < growth < growth' && discount > -1.0 && t >= 1
    ensures RentTerm(r0, growth, discount, t) < RentTerm(r0, growth', discount, t)
  {
    PowStrictlyIncreasing(1.0 + growth, 1.0 + growth', t);
    ScaledQuotientLess(r0, Pow(1.0 + growth, t), Pow(1.0 + growth', t), Pow(1.0 + discount, t));
  }

  /** Scaling by a positive factor and dividing by a positive divisor keep a strict order. */
  lemma ScaledQuotientLess(c: real, a: real, b: real, p: real)
    requires c > 0.0 && a < b && p > 0.0
    ensures c * a / p < c * b / p
  {
    assert c * a < c * b;
  }

  /** The carrying cost of year `t`: the ownership cost, plus the mortgage while the loan runs. */
  function YearlyCost(annualOwnershipCost: real, annualMortgagePayment: real, loanTermYears: nat, t: nat): real
  {
    annualOwnershipCost + (if t <= loanTermYears then annualMortgagePayment else 0.0)
  }

  /** The present value of the carrying costs of years `1..k`. */
  function OwnCostSum(annualOwnershipCost: real, annualMortgagePayment: real, loanTermYears: nat,
                      discountRate: real, k: nat): real
    requires discountRate != -1.0
  {
    if k == 0 then 0.0
    else OwnCostSum(annualOwnershipCost, annualMortgagePayment, loanTermYears, discountRate, k - 1)
         + YearlyCost(annualOwnershipCost, annualMortgagePayment, loanTermYears, k) / Pow(1.0 + discountRate, k)
  }

  /** The gain of selling after `years` years of appreciation, net of the transaction cost, over the price paid. */
  function NetGain(homePrice: real, appreciation: real, transactionCost: real, years: nat): real
  {
    SaleGain(homePrice, Pow(1.0 + appreciation, years), transactionCost)
  }

  /** The home resold at `growthFactor` times its price, less the transaction cost and the price paid. */
  function SaleGain(homePrice: real, growthFactor: real, transactionCost: real): real
  {
    var futureHomeValue := homePrice * growthFactor;
    var netSaleValue := futureHomeValue * (1.0 - transactionCost);
    netSaleValue - homePrice
  }

  /** The present value of owning: the discounted carrying costs less the discounted net gain of the sale. */
  function OwnNpv(homePrice: real, appreciation: real, discountRate: real, years: nat,
                  annualOwnershipCost: real, annualMortgagePayment: real, loanTermYears: nat,
                  transactionCost: real): real
    requires discountRate != -1.0
  {
    OwnCostSum(annualOwnershipCost, annualMortgagePayment, loanTermYears, discountRate, years)
    - NetGain(homePrice, appreciation, transactionCost, years) / Pow(1.0 + discountRate, years)
  }

  /**
   * The ownership path computed year by year: the yearly carrying cost, discounted,
   * is added to a running total, and the discounted net gain of the sale is taken
   * off at the end.
   */
  method OwningVsRenting(homePrice: real, appreciation: real, discountRate: real, years: nat,
                         annualOwnershipCost: real, annualMortgagePayment: real, loanTermYears: nat,
                         transactionCost: real)
    returns (npv: real)
    requires discountRate != -1.0
    ensures npv == OwnNpv(homePrice, appreciation, discountRate, years,
                          annualOwnershipCost, annualMortgagePayment, loanTermYears, transactionCost)
  {
    var npvCosts := 0.0;
    for t := 1 to years + 1
      invariant npvCosts == OwnCostSum(annualOwnershipCost, annualMortgagePayment, loanTermYears, discountRate, t - 1)
    {
      var yearlyCost := annualOwnershipCost + (if t <= loanTermYears then annualMortgagePayment else 0.0);
      npvCosts := npvCosts + yearlyCost / Pow(1.0 + discountRate, t);
    }
    var futureHomeValue := homePrice * Pow(1.0 + appreciation, years);
    var netSaleValue := futureHomeValue * (1.0 - transactionCost);
    var netGain := netSaleValue - homePrice;
    assert netGain == NetGain(homePrice, appreciation, transactionCost, years);
    var npvNetGain := netGain / Pow(1.0 + discountRate, years);
    npv := npvCosts - npvNetGain;
  }

  /**
   * The discounted carrying costs split into the ownership cost, paid every year,
   * and the mortgage, paid only in the years up to the loan term.
   */
  lemma {:induction false} OwnCostSumSplit(annualOwnershipCost: real, annualMortgagePayment: real,
                                           loanTermYears: nat, discountRate: real, k: nat)
    requires discountRate != -1.0
    ensures OwnCostSum(annualOwnershipCost, annualMortgagePayment, loanTermYears, discountRate, k)
         == AnnuitySum(annualOwnershipCost, discountRate, k)
            + AnnuitySum(annualMortgagePayment, discountRate, Min(k, loanTermYears))
  {
    if k > 0 {
      OwnCostSumSplit(annualOwnershipCost, annualMortgagePayment, loanTermYears, discountRate, k - 1);
      if k <= loanTermYears {
        SumOfQuotients(annualOwnershipCost, annualMortgagePayment, Pow(1.0 + discountRate, k));
      }
    }
  }

  /**
   * Faster appreciation makes owning strictly cheaper, for a positive home price,
   * a transaction cost below one and at least one year of holding.
   */
  lemma OwnNpvDecreasingInAppreciation(homePrice: real, appreciation: real, appreciation': real,
                                       discountRate: real, years: nat,
                                       annualOwnershipCost: real, annualMortgagePayment: real,
                                       loanTermYears: nat, transactionCost: real)
    requires homePrice > 0.0 && transactionCost < 1.0 && years >= 1
    requires -1.0 < appreciation < appreciation' && discountRate > -1.0
    ensures OwnNpv(homePrice, appreciation', discountRate, years,
                   annualOwnershipCost, annualMortgagePayment, loanTermYears, transactionCost)
          < OwnNpv(homePrice, appreciation, discountRate, years,
                   annualOwnershipCost, annualMortgagePayment, loanTermYears, transactionCost)
  {
    NetGainIncreasingInAppreciation(homePrice, appreciation, appreciation', transactionCost, years);
    QuotientLess(NetGain(homePrice, appreciation, transactionCost, years),
                 NetGain(homePrice, appreciation', transactionCost, years),
                 Pow(1.0 + discountRate, years));
  }

  /** The net gain of the sale grows strictly with appreciation. */
  lemma NetGainIncreasingInAppreciation(homePrice: real, appreciation: real, appreciation': real,
                                        transactionCost: real, years: nat)
    requires homePrice > 0.0 && transactionCost < 1.0 && years >= 1
    requires -1.0 < appreciation < appreciation'
    ensures NetGain(homePrice, appreciation, transactionCost, years)
          < NetGain(homePrice, appreciation', transactionCost, years)
  {
    PowStrictlyIncreasing(1.0 + appreciation, 1.0 + appreciation', years);
    SaleGainIncreasing(homePrice, Pow(1.0 + appreciation, years), Pow(1.0 + appreciation', years), transactionCost);
  }

  /** A higher growth factor gives a strictly higher gain on the sale, for a positive price and a cost below one. */
  lemma SaleGainIncreasing(homePrice: real, lo: real, hi: real, transactionCost: real)
    requires homePrice > 0.0 && lo < hi && transactionCost < 1.0
    ensures SaleGain(homePrice, lo, transactionCost) < SaleGain(homePrice, hi, transactionCost)
  {
    var f := 1.0 - transactionCost;
    ProductLess(homePrice, lo, hi, f);
    var low, high := homePrice * lo * f, homePrice * hi * f;
    assert low < high;
    assert SaleGain(homePrice, lo, transactionCost) == low - homePrice;
    assert SaleGain(homePrice, hi, transactionCost) == high - homePrice;
  }
}
