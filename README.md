# Payment orchestration fee engine, in Dafny

This project models the fee engine of a payment orchestration service and the two endpoints built on it.

- `calculate_fee` takes an amount and a payment mode. It looks up that mode's bracket table and falls back to the upi table for an unknown mode. It scans the brackets in order, takes the percentage of the first bracket with `min <= amount <= max`, and uses 0.0 when no bracket matches. It returns the fee `amount * pct / 100` and the total `amount + fee`.
- `create_checkout` quotes a fixed, ordered catalog of nine (gateway, mode) pairs for one amount.
- `get_fee` runs one evaluation and echoes its inputs.

Amounts and percentages are exact `real`s. An infinite upper bound is the `Unbounded` constructor of `Fees.Bound`. Python's `round(x, 2)` is passed in as a parameter `round2: real -> real`. The model says where it is applied and nothing about what it returns.

Modules:

- `Fees` (`fee_engine.dfy`) holds the tables, the recursive specification `FirstMatch` of the scan, the method `CalculateFee` with the scanning loop, and the lemmas about the tables.
- `Checkout` (`checkout.dfy`) holds the catalog, the method `CreateCheckout` with the loop that builds the options, and the function `GetFee`.

The code and the system's written design disagree about the tables. The design gives these brackets, which cover `[0, ∞)` with no gaps and no overlaps:

| mode | bracket | fee % |
|---|---|---|
| debit_card | [0, 2000] / (2000, ∞) | 0.0 / 0.5 |
| credit_card | [0, 25000] / (25000, ∞) | 0.1 / 0.5 |
| netbanking | [0, 10000] / (10000, 50000] / (50000, ∞) | 0.0 / 0.75 / 1.0 |
| upi | [0, ∞) | 0.0 |

The code's upper brackets start at `2000.01`, `25000.01`, `10000.01` and `50000.01`. With exact amounts this leaves open gaps such as `2000 < a < 2000.01`. An amount in a gap matches no bracket and pays a 0% fee. Negative amounts also match nothing. The model follows the code. `Fees.NoMatchIffGap` gives the exact set of amounts that match nothing.

The written design gives 10.0005 as the debit_card fee at 2000.01. The exact value of `2000.01 * 0.5 / 100` is 10.00005, and `Fees.DebitCardBoundary` states that value.

## Model

| member | source | states |
|---|---|---|
| Fees.InBracket | main.py:64 | The bracket test `min <= amount <= max`. With a finite max it holds exactly when `lo <= amount <= hi`. With an infinite max it holds exactly when `lo <= amount`. |
| Fees.DebitCardRanges | main.py:33-38 | The debit_card rows `(0, 2000, 0.0)` and `(2000.01, inf, 0.5)`. The table is ascending, starts at 0 and ends unbounded. |
| Fees.CreditCardRanges | main.py:39-44 | The credit_card rows `(0, 25000, 0.1)` and `(25000.01, inf, 0.5)`. The table is ascending, starts at 0 and ends unbounded. |
| Fees.NetbankingRanges | main.py:45-51 | The netbanking rows `(0, 10000, 0.0)`, `(10000.01, 50000, 0.75)` and `(50000.01, inf, 1.0)`. The table is ascending, starts at 0 and ends unbounded. |
| Fees.UpiRanges | main.py:52-56 | The single upi row `(0, inf, 0.0)`. It contains every amount ≥ 0. |
| Fees.Schedule | main.py:32-59 | The table of a mode. A mode other than debit_card, credit_card, netbanking and upi gets the upi table. Every table is non-empty, ascending, starts at 0 and ends unbounded. |
| Fees.FirstMatch | main.py:62-66 | The selected percentage. It is 0.0 when no bracket contains the amount. Otherwise it is the percentage of the first bracket that contains the amount, the one no earlier bracket precedes. |
| Fees.CalculateFee | main.py:29-72 | The in-order scan with early exit. The percentage is the first matching bracket's, or 0.0 when none matches. `fee == amount * pct / 100` and `total == amount + fee`. The result equals `Quote(amount, mode)`. |
| Fees.Percentage | main.py:59-66 | The percentage applied to an amount under a mode. It is the first matching bracket's percentage in the mode's table, or 0.0 when none matches. It is always one of 0, 0.1, 0.5, 0.75 and 1. |
| Fees.Quote | main.py:59-72 | calculate_fee as a value. Its percentage is `Percentage(amount, mode)`, its fee is `amount * pct / 100` and its total is `amount + fee`. When no bracket matches, the quote is fee 0, total == amount, percentage 0. |
| Fees.FirstMatchCases | main.py:62-66 | For every table and amount, either no bracket matches or exactly one bracket is the first match. |
| Fees.FirstMatchIsTablePercentage | main.py:62-66 | The selected percentage is 0.0 or the percentage of some bracket of the table. |
| Fees.DisjointMatchIsFirst | main.py:62-66 | In a table of pairwise disjoint brackets, any bracket that contains the amount gives the selected percentage. |
| Fees.LowerBoundsAscend | main.py:32-57 | In an ascending table the lower bounds never decrease from one bracket to a later one. |
| Fees.AscendingDisjoint | main.py:32-57 | No amount lies in two brackets of an ascending table. |
| Fees.BracketsDisjoint | main.py:32-57 | For every mode and amount, no two brackets of the mode's table both contain the amount. So any bracket containing the amount gives the percentage the first-match scan selects. |
| Fees.DebitCardTiers | main.py:35-36 | debit_card charges 0.5% when amount ≥ 2000.01. Every other amount gets 0.0, including amounts in 0..2000, negative amounts and amounts in the gap (2000, 2000.01). |
| Fees.CreditCardTiers | main.py:41-42 | credit_card charges 0.1% on 0..25000 and 0.5% from 25000.01. Negative amounts and the gap (25000, 25000.01) get 0.0. |
| Fees.NetbankingTiers | main.py:47-49 | netbanking charges 0.75% on 10000.01..50000 and 1% from 50000.01. Everything else gets 0.0. |
| Fees.UnknownModeActsAsUpi | main.py:52-59 | For every amount, an unknown mode's quote equals upi's. That quote is fee 0, total == amount, percentage 0. |
| Fees.DebitCardBoundary | main.py:35-36 | debit_card at 2000 pays nothing. At 2000.01 it pays 0.5%, a fee of 10.00005 and a total of 2010.01005. At 2000.005, inside the gap, it pays nothing. |
| Fees.NoMatchIffGap | main.py:35-66 | An amount matches no bracket of its mode if and only if it is negative or lies in one of the mode's epsilon gaps. Such an amount gets fee 0 and total == amount. |
| Fees.TablePercentages | main.py:32-57 | Every table percentage is one of 0, 0.1, 0.5, 0.75 and 1. |
| Fees.FeeNonNegative | main.py:32-70 | For amount ≥ 0 the percentage is between 0 and 1, the fee is between 0 and amount/100, and total ≥ amount. |
| Checkout.Catalog | main.py:89-99 | The nine (gateway, mode) pairs in display order. The pairs are pairwise distinct, every gateway is Razorpay, PayU or Cashfree, and every mode has a table of its own. |
| Checkout.IsOptionFor | main.py:105-112 | The option built for one catalog entry. With the engine's quote for its own base amount and mode, the quote's fee is `base * pct / 100` and its total is `base + fee`. The option's fee and total are those two values passed through `round2`. Its percentage is 0.0 when no bracket matches. |
| Checkout.CreateCheckout | main.py:81-117 | Exactly 9 options, and `original_amount` echoes the amount. Option i carries the i-th catalog gateway and mode and `base_amount == amount`. Its percentage is the engine's unrounded percentage for that mode. Its fee and total are the engine's fee and total passed through `round2`. |
| Checkout.GetFee | main.py:121-131 | Echoes amount and mode unchanged. The percentage is the unrounded first-match percentage, or 0.0 on no match. The engine's fee is `amount * pct / 100` and its total is `amount + fee`. The reported fee and total are those two values passed through `round2`. |
| Checkout.CheckoutAgreesWithGetFee | main.py:102-131 | Each checkout option has the same percentage, rounded fee, rounded total, amount and mode as a single `get_fee` evaluation of its mode. |
| Checkout.CatalogQuotesAt1500 | main.py:89-112 | At amount 1500 every catalog entry pays no fee except credit_card. credit_card pays 0.1%, a fee of 1.5 and a total of 1501.5. |

## Left out

- HTTP routing, pydantic request/response validation, the health endpoint and the uvicorn entry point (main.py:1-26, 75-77, 134-135): framework wiring with no logic of its own.
- IEEE-754 behaviour: amounts are exact reals. A float amount such as 2000.001 falls in a gap just as the exact real does. Rounding to two decimals is the uninterpreted parameter `round2`, and nothing is proved about its result.
- test.py is an HTTP demo client and provision_db.py a MySQL provisioning script. These are I/O with no system behaviour. They are not part of this model.
- Transaction storage, success-rate statistics, the cold-start default and recommendation scoring appear in the written design but not in the code modelled here. They are not part of this model.
