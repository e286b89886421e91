/**
 * The derived mortgage values of the calculator: the loan left after the down
 * payment and the level monthly payment that repays it over the loan term at
 * one twelfth of the yearly mortgage rate.
 */
module Mortgage {
  import opened Numerics

  /** The outcome of evaluating the payment formula as the calculator writes it. */
  datatype PaymentOutcome = Amount(amount: real) | DivisionByZero

  /** The loan is what the down payment leaves of the home price. */
  function LoanAmount(homePrice: real, downPaymentPct: real): (r: real)
    ensures r == homePrice * (1.0 - downPaymentPct)
    ensures homePrice >= 0.0 && 0.0 <= downPaymentPct <= 1.0 ==> 0.0 <= r <= homePrice
    ensures downPaymentPct == 1.0 ==> r == 0.0
  {
    var downPayment := homePrice * downPaymentPct;
    homePrice - downPayment
  }

  /** The monthly rate is one twelfth of the yearly mortgage rate. */
  function MonthlyRate(mortgageRate: real): real
  {
    mortgageRate / 12.0
  }

  /** One payment per month of the loan term. */
  function PaymentCount(loanTermYears: nat): nat
  {
    loanTermYears * 12
  }

  /**
   * The level annuity payment exactly as the calculator computes it: no payment
   * without a loan, otherwise `L * (r * (1+r)^n) / ((1+r)^n - 1)`, whose divisor
   * is zero, and the division fails, when the monthly rate is zero.
   */
  function MonthlyPaymentAsWritten(loanAmount: real, mortgageRate: real, loanTermYears: nat): (r: PaymentOutcome)
    ensures loanAmount <= 0.0 ==> r == Amount(0.0)
  {
    if loanAmount > 0.0 then
      var monthlyRate := MonthlyRate(mortgageRate);
      var growth := Pow(1.0 + monthlyRate, PaymentCount(loanTermYears));
      if growth - 1.0 == 0.0 then DivisionByZero
      else Amount(loanAmount * (monthlyRate * growth) / (growth - 1.0))
    else
      Amount(0.0)
  }

  /**
   * The level monthly payment with the zero-rate case handled: at a zero rate the
   * loan is repaid in equal parts, the limit of the annuity formula as the rate
   * goes to zero.
   */
  function MonthlyPayment(loanAmount: real, mortgageRate: real, loanTermYears: nat): (r: real)
    requires mortgageRate >= 0.0 && loanTermYears >= 1
    ensures loanAmount <= 0.0 ==> r == 0.0
    ensures loanAmount > 0.0 ==> r > 0.0
    ensures loanAmount > 0.0 && mortgageRate == 0.0 ==> r * PaymentCount(loanTermYears) as real == loanAmount
  {
    if loanAmount <= 0.0 then 0.0
    else if mortgageRate == 0.0 then loanAmount / PaymentCount(loanTermYears) as real
    else
      var monthlyRate := MonthlyRate(mortgageRate);
      var growth := Pow(1.0 + monthlyRate, PaymentCount(loanTermYears));
      PowAboveOne(1.0 + monthlyRate, PaymentCount(loanTermYears));
      loanAmount * (monthlyRate * growth) / (growth - 1.0)
  }

  /**
   * The divisor `(1+r)^n - 1` of the annuity formula is positive for a positive
   * mortgage rate and zero for a zero rate, over any loan term of at least a year.
   */
  lemma AnnuityDivisor(mortgageRate: real, loanTermYears: nat)
    requires mortgageRate >= 0.0 && loanTermYears >= 1
    ensures mortgageRate > 0.0 <==> Pow(1.0 + MonthlyRate(mortgageRate), PaymentCount(loanTermYears)) - 1.0 > 0.0
    ensures mortgageRate == 0.0 <==> Pow(1.0 + MonthlyRate(mortgageRate), PaymentCount(loanTermYears)) - 1.0 == 0.0
  {
    if mortgageRate > 0.0 {
      PowAboveOne(1.0 + MonthlyRate(mortgageRate), PaymentCount(loanTermYears));
    } else {
      PowOfOne(PaymentCount(loanTermYears));
    }
  }

  /** The principal still owed after `k` months: each month adds interest and takes off one payment. */
  function Balance(loanAmount: real, monthlyRate: real, payment: real, k: nat): real
  {
    if k == 0 then loanAmount
    else Balance(loanAmount, monthlyRate, payment, k - 1) * (1.0 + monthlyRate) - payment
  }

  /** Closed form of the balance at a nonzero rate: `B_k * r == L * r * (1+r)^k - P * ((1+r)^k - 1)`. */
  lemma {:induction false} BalanceClosedForm(loanAmount: real, monthlyRate: real, payment: real, k: nat)
    ensures Balance(loanAmount, monthlyRate, payment, k) * monthlyRate
         == loanAmount * monthlyRate * Pow(1.0 + monthlyRate, k) - payment * (Pow(1.0 + monthlyRate, k) - 1.0)
  {
    if k > 0 {
      BalanceClosedForm(loanAmount, monthlyRate, payment, k - 1);
      ClosedFormStep(Balance(loanAmount, monthlyRate, payment, k), Balance(loanAmount, monthlyRate, payment, k - 1),
                     monthlyRate, loanAmount, payment,
                     Pow(1.0 + monthlyRate, k), Pow(1.0 + monthlyRate, k - 1));
    }
  }

  /** One month of interest and one payment, applied to both sides of the closed form. */
  lemma ClosedFormStep(b': real, b: real, r: real, loan: real, payment: real, q': real, q: real)
    requires b * r == loan * r * q - payment * (q - 1.0)
    requires b' == b * (1.0 + r) - payment
    requires q' == (1.0 + r) * q
    ensures b' * r == loan * r * q' - payment * (q' - 1.0)
  {
    calc {
      b' * r;
      (b * (1.0 + r) - payment) * r;
      (1.0 + r) * (b * r) - payment * r;
      (1.0 + r) * (loan * r * q - payment * (q - 1.0)) - payment * r;
    }
  }

  /** Closed form of the balance at a zero rate: `B_k == L - k * P`. */
  lemma {:induction false} BalanceAtZeroRate(loanAmount: real, payment: real, k: nat)
    ensures Balance(loanAmount, 0.0, payment, k) == loanAmount - k as real * payment
  {
    if k > 0 {
      BalanceAtZeroRate(loanAmount, payment, k - 1);
    }
  }

  /**
   * The monthly payment is the one and only level payment that leaves nothing owed
   * after the last month of the loan term.
   */
  lemma ZeroFinalBalanceIffMonthlyPayment(loanAmount: real, mortgageRate: real, loanTermYears: nat, payment: real)
    requires loanAmount > 0.0 && mortgageRate >= 0.0 && loanTermYears >= 1
    ensures Balance(loanAmount, MonthlyRate(mortgageRate), payment, PaymentCount(loanTermYears)) == 0.0
        <==> payment == MonthlyPayment(loanAmount, mortgageRate, loanTermYears)
  {
    if mortgageRate == 0.0 {
      ZeroFinalBalanceAtZeroRate(loanAmount, loanTermYears, payment);
    } else {
      ZeroFinalBalanceAtPositiveRate(loanAmount, mortgageRate, loanTermYears, payment);
    }
  }

  /** The zero-rate case: only the equal parts `L / n` clear the loan. */
  lemma ZeroFinalBalanceAtZeroRate(loanAmount: real, loanTermYears: nat, payment: real)
    requires loanAmount > 0.0 && loanTermYears >= 1
    ensures Balance(loanAmount, 0.0, payment, PaymentCount(loanTermYears)) == 0.0
        <==> payment == MonthlyPayment(loanAmount, 0.0, loanTermYears)
  {
    var n := PaymentCount(loanTermYears);
    BalanceAtZeroRate(loanAmount, payment, n);
    StraightLineSolution(Balance(loanAmount, 0.0, payment, n), loanAmount, n as real,
                         MonthlyPayment(loanAmount, 0.0, loanTermYears), payment);
  }

  /** The positive-rate case: only the annuity payment clears the loan. */
  lemma ZeroFinalBalanceAtPositiveRate(loanAmount: real, mortgageRate: real, loanTermYears: nat, payment: real)
    requires loanAmount > 0.0 && mortgageRate > 0.0 && loanTermYears >= 1
    ensures Balance(loanAmount, MonthlyRate(mortgageRate), payment, PaymentCount(loanTermYears)) == 0.0
        <==> payment == MonthlyPayment(loanAmount, mortgageRate, loanTermYears)
  {
    var n := PaymentCount(loanTermYears);
    var r := MonthlyRate(mortgageRate);
    var q := Pow(1.0 + r, n);
    PowAboveOne(1.0 + r, n);
    BalanceClosedForm(loanAmount, r, payment, n);
    AnnuitySolution(Balance(loanAmount, r, payment, n), r, loanAmount,
                    MonthlyPayment(loanAmount, mortgageRate, loanTermYears), q, payment);
  }

  /**
   * At a zero rate, a final balance `L - n * P` vanishes exactly for the payment
   * that splits the loan into `n` equal parts.
   */
  lemma StraightLineSolution(b: real, loan: real, n: real, equalPart: real, payment: real)
    requires n > 0.0
    requires b == loan - n * payment
    requires equalPart * n == loan
    ensures b == 0.0 <==> payment == equalPart
  {
    assert b == (equalPart - payment) * n;
  }

  /**
   * At a nonzero rate `r` with growth factor `q > 1`, a final balance in closed form
   * vanishes exactly for the annuity payment `L * (r * q) / (q - 1)`.
   */
  lemma AnnuitySolution(b: real, r: real, loan: real, annuity: real, q: real, payment: real)
    requires r != 0.0 && q > 1.0
    requires b * r == loan * r * q - payment * (q - 1.0)
    requires annuity == loan * (r * q) / (q - 1.0)
    ensures b == 0.0 <==> payment == annuity
  {
    assert annuity * (q - 1.0) == loan * (r * q);
    assert b * r == (annuity - payment) * (q - 1.0);
    if payment == annuity {
      assert b == (b * r) / r;
    } else {
      NonzeroProduct(annuity - payment, q - 1.0);
    }
  }

  /**
   * Where the payment formula as written gives a value it is the corrected payment;
   * it fails exactly when a loan is taken at a zero mortgage rate.
   */
  lemma AsWrittenVersusCorrected(loanAmount: real, mortgageRate: real, loanTermYears: nat)
    requires mortgageRate >= 0.0 && loanTermYears >= 1
    ensures MonthlyPaymentAsWritten(loanAmount, mortgageRate, loanTermYears)
         == if loanAmount > 0.0 && mortgageRate == 0.0 then DivisionByZero
            else Amount(MonthlyPayment(loanAmount, mortgageRate, loanTermYears))
  {
    AnnuityDivisor(mortgageRate, loanTermYears);
  }

  /** A half-financed purchase at a zero mortgage rate makes the payment formula divide by zero. */
  lemma ZeroRateLoanDividesByZero()
    ensures LoanAmount(2500000.0, 0.5) == 1250000.0
    ensures MonthlyPaymentAsWritten(LoanAmount(2500000.0, 0.5), 0.0, 30) == DivisionByZero
  {
    AsWrittenVersusCorrected(1250000.0, 0.0, 30);
  }
}
