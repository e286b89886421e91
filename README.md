# Buy versus rent: a verified model of the calculator

The calculator compares renting a home with buying it over a holding period of
whole years. Both options are valued as net present values (NPV), using the
investment return as the discount rate:

- **Rent path.** Year `t` costs the annual rent grown by `(1 + rent increase)^t`.
- **Ownership path.** Year `t` costs property tax, insurance and maintenance, each a
  fixed rate of the purchase price. It also costs the mortgage payment while
  `t <= loan term`.
- **Sale.** At the end of the holding period the home is sold. The gain, net of the
  transaction cost, is discounted and taken off the cost of owning.
- **Result.** The calculator reports `rent NPV - own NPV` and a recommendation read
  off its sign.

The mortgage payment is the level annuity payment. The monthly rate is the
yearly rate divided by 12, and there are 12 payments per year of the loan term.

The model works in exact `real` arithmetic. Every exponent is a natural number
(years or months), so `x ** n` is the recursive `Numerics.Pow`. The project has
four modules:

- `Numerics` (`numerics.dfy`): powers and a few facts about real products and quotients.
- `Mortgage` (`mortgage.dfy`): the loan amount and the monthly payment. It holds
  both the payment as written and the corrected payment, plus the outstanding
  balance month by month.
- `Npv` (`npv.dfy`): `npv_of_rent` as a recursive sum, and `owning_vs_renting` as
  a method with the source's year loop. The method is proved equal to a recursive
  specification, `OwnNpv`.
- `BuyVsRent` (`buy_vs_rent.dfy`): the sidebar inputs and their slider ranges, the
  derived values, the whole evaluation and the recommendation.

The source reads `annual_ownership_cost`, `annual_mortgage_payment`,
`loan_term_years` and `transaction_cost` from module globals inside
`owning_vs_renting`. Here they are explicit parameters. The slider ranges
(`buy_vs_rent.py:10-23`) are the precondition of the whole evaluation. Monthly
rent and home price come from unbounded number inputs, so they are not
constrained.

## Model

| member | source | states |
|---|---|---|
| `Numerics.Pow` | buy_vs_rent.py:31 | `x ** n` for a natural `n`; positive for a positive base and nonzero for a nonzero base, so every discount divisor `(1+d)^t` with `d > -1` is positive |
| `Mortgage.LoanAmount` | buy_vs_rent.py:26-27 | the loan is `home_price * (1 - down_payment_pct)`; with a nonnegative price and a down payment in [0,1] it lies between 0 and the price; at 100% down it is exactly 0 |
| `Mortgage.MonthlyPaymentAsWritten` | buy_vs_rent.py:28-33 | the payment formula as written, with the division failure as an outcome; without a loan the payment is 0 whatever the rate |
| `Mortgage.AnnuityDivisor` | buy_vs_rent.py:28-31 | the divisor `(1+r)^n - 1` is positive exactly when the mortgage rate is positive, and zero exactly when it is zero (rate >= 0, term >= 1 year) |
| `Mortgage.AsWrittenVersusCorrected` | buy_vs_rent.py:30-33 | the formula as written divides by zero exactly when there is a loan at a zero rate; everywhere else it gives the corrected payment |
| `Mortgage.ZeroRateLoanDividesByZero` | buy_vs_rent.py:21-31 | a half-financed 2500000 home at a 0% mortgage rate, allowed by the sliders, makes the formula divide by zero |
| `Mortgage.MonthlyPayment` | buy_vs_rent.py:28-33 | the corrected payment is 0 without a loan and positive with one; at a zero rate the `n` equal payments add up to the loan |
| `Mortgage.BalanceClosedForm` | buy_vs_rent.py:31 | after `k` months the balance satisfies `B_k * r == L*r*(1+r)^k - P*((1+r)^k - 1)`, the identity behind the annuity formula |
| `Mortgage.ZeroFinalBalanceIffMonthlyPayment` | buy_vs_rent.py:28-33 | a level payment leaves nothing owed after the last month of the term if and only if it is the (corrected) monthly payment |
| `Mortgage.ZeroFinalBalanceAtZeroRate` | buy_vs_rent.py:28-33 | at a zero rate, the balance after the last month is 0 exactly when each payment is the equal part `L / n` |
| `Mortgage.ZeroFinalBalanceAtPositiveRate` | buy_vs_rent.py:28-31 | at a positive rate, the balance after the last month is 0 exactly when each payment is line 31's annuity payment |
| `Npv.NpvOfRent` | buy_vs_rent.py:43-44 | `sum(r0*(1+g)^t/(1+d)^t for t in 1..years)`, summed in order; for a positive rent with `g, d > -1` it is positive exactly when `years >= 1` |
| `Npv.RentNpvWithoutGrowth` | buy_vs_rent.py:43-44 | with zero growth the rent NPV is `r0 * sum_{t=1..H} 1/(1+d)^t` |
| `Npv.AnnuityOfOneTimesRate` | buy_vs_rent.py:44 | `d * sum_{t=1..H} 1/(1+d)^t == 1 - 1/(1+d)^H` for `d > -1` |
| `Npv.AnnuityOfOneClosedForm` | buy_vs_rent.py:44 | for a nonzero `d > -1`, `sum_{t=1..H} 1/(1+d)^t == (1 - (1+d)^-H) / d` |
| `Npv.RentTermAtMatchingGrowth` | buy_vs_rent.py:44 | one year's rent, grown and discounted at the same rate, is worth the first-year rent `r0` today |
| `Npv.RentNpvGrowthMatchesDiscount` | buy_vs_rent.py:43-44 | when growth equals the discount rate every discounted term is `r0`, so the rent NPV is `r0 * H` |
| `Npv.RentTermIncreasingInGrowth` | buy_vs_rent.py:44 | for a positive rent and year `t >= 1`, the discounted rent of that year grows strictly with the growth rate |
| `Npv.RentNpvIncreasingInGrowth` | buy_vs_rent.py:43-44 | for a positive rent and at least one year, a higher growth rate gives a strictly higher rent NPV |
| `Npv.OwningVsRenting` | buy_vs_rent.py:46-55 | the loop keeps the running total equal to the recursive sum (`OwnCostSum`) of the discounted yearly costs over years `1..t-1`. Each yearly cost (`YearlyCost`, line 49) is the ownership cost plus the mortgage while `t <= loan term`. The result is that sum minus the discounted net gain of the sale (`NetGain`, lines 51-53: the appreciated price less the transaction cost, minus the price paid), which is `OwnNpv` |
| `Npv.OwnCostSumSplit` | buy_vs_rent.py:47-50 | the discounted yearly costs are the ownership cost as a level annuity over all `k` years plus the mortgage as a level annuity over the first `min(k, loan term)` years only |
| `Npv.SaleGainIncreasing` | buy_vs_rent.py:51-53 | for a positive price and a transaction cost below one, a higher growth factor gives a strictly higher gain on the sale |
| `Npv.NetGainIncreasingInAppreciation` | buy_vs_rent.py:51-53 | for a positive price, a transaction cost below one and at least one year, the net gain of the sale rises strictly with appreciation |
| `Npv.OwnNpvDecreasingInAppreciation` | buy_vs_rent.py:51-55 | for a positive price, a transaction cost below 1 and at least one year, higher appreciation gives a strictly lower own NPV |
| `BuyVsRent.Derive` | buy_vs_rent.py:26-41 | the monthly payment is the (corrected) `MonthlyPayment` of the loan; the annual rent is 12 monthly rents; the ownership cost is `home_price * (tax + insurance + maintenance rate)` and nonnegative for nonnegative inputs; the annual mortgage is 12 monthly payments; it is 0 exactly when there is no loan, and 0 at 100% down |
| `BuyVsRent.Evaluate` | buy_vs_rent.py:57-59 | the difference is rent NPV minus own NPV; the recommendation agrees with it; a positive rent gives a positive rent NPV |
| `BuyVsRent.Run` | buy_vs_rent.py:26-59 | running the calculator top to bottom (derived values, rent NPV, the ownership loop, the difference) gives exactly `Evaluate` |
| `BuyVsRent.DifferenceClosedForm` | buy_vs_rent.py:46-59 | the difference equals the rent NPV, minus the ownership-cost annuity over the holding period, minus the mortgage annuity over `min(holding period, loan term)` years, plus the discounted net gain of the sale |
| `BuyVsRent.VerdictAsWritten` | buy_vs_rent.py:66-71 | the message as displayed: "renting is cheaper" exactly when the difference is positive, "buying is cheaper" exactly when it is negative, "approximately equal" exactly when it is zero |
| `BuyVsRent.Recommend` | buy_vs_rent.py:66-71 | the corrected recommendation names renting exactly when its NPV is lower, buying exactly when its NPV is lower, and a tie exactly when they are equal |
| `BuyVsRent.VerdictAsWrittenIsInverted` | buy_vs_rent.py:66-69 | the displayed message says renting is cheaper exactly when renting's NPV is higher, and buying is cheaper exactly when buying's NPV is higher; it disagrees with `Recommend` whenever the NPVs differ |
| `BuyVsRent.DefaultScenario` | buy_vs_rent.py:8-23 | at the default inputs: no mortgage payment (full cash purchase), ownership cost 70000, annual rent 80400, positive own NPV, and a difference between 150000 and 250000; so buying is cheaper, but the message says renting is |

## Findings

| source | as written | input that shows it | evidently intended | confidence | as-written member | corrected member |
|---|---|---|---|---|---|---|
| buy_vs_rent.py:30-31 | with a loan, the payment divides by `(1 + r)^n - 1`, and that divisor is 0 when the mortgage-rate slider (line 22) is at 0.0 | home price 2500000, down payment 50%, mortgage rate 0%, loan term 30 years | at a zero rate, repay the loan in `n` equal parts (`L / n`), the limit of the annuity formula, so that the loan is fully repaid | high; not executed | `Mortgage.ZeroRateLoanDividesByZero` | `Mortgage.ZeroFinalBalanceIffMonthlyPayment` |
| buy_vs_rent.py:66-69 | a positive `diff` (renting's NPV cost is higher) is announced as "Renting is cheaper", and a negative one as "Buying is cheaper" | the default inputs: `diff` is between 150000 and 250000 | a positive `diff` means buying is cheaper | high; not executed | `BuyVsRent.DefaultScenario` | `BuyVsRent.Recommend` |

The evaluation (`BuyVsRent.Evaluate`, `BuyVsRent.Run`) uses the corrected
payment and the corrected recommendation. Wherever the source produces a result,
the corrected payment equals the one written (`Mortgage.AsWrittenVersusCorrected`).

## Left out

- The Streamlit page is not modelled: the title, sidebar widgets and result rendering (`buy_vs_rent.py:1-23`, `62-71`). It is input and output glue. The slider bounds are kept as `BuyVsRent.InSliderRanges`.
- Currency formatting (`:,.0f`) and the text of the messages are presentation only. The choice of message is modelled as `BuyVsRent.VerdictAsWritten`, whose results are the values of the `Verdict` datatype.
- Floating-point rounding is not modelled: the model uses exact reals. So the exact-equality branch of the message (line 70) holds only for exactly equal NPVs.
- The unused `numpy` import (line 2) is not modelled.
- Input validation with an "invalid input" error is not modelled, because the source has none. Its only guard is the slider ranges, and the model uses those as the precondition. Monthly rent and home price stay unconstrained, as their number inputs are.
- The source does not track the remaining loan balance. The terminal gain ignores it, and the ownership cost is not scaled by appreciation. The model keeps both simplifications. `Mortgage.Balance` is used only to state what the payment repays.
