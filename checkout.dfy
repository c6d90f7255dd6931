/** The checkout and single-fee endpoints built on the fee engine: a quote
    over a fixed, ordered catalog of (gateway, mode) pairs, and one fee
    evaluation that echoes its inputs. Rounding of the displayed amounts to
    two decimals is a parameter `round2`, since its binary-float result is
    not modelled. */
module Checkout {
  import Fees

  /** One quoted option of the checkout response. */
  datatype PaymentOption = PaymentOption(
    gateway: string,
    paymentMode: string,
    baseAmount: real,
    feeAmount: real,
    totalAmount: real,
    feePercentage: real)

  /** The checkout response: the requested amount and one option per catalog entry. */
  datatype CheckoutResponse = CheckoutResponse(originalAmount: real, paymentOptions: seq<PaymentOption>)

  /** The answer of the single-fee endpoint. */
  datatype FeeResponse = FeeResponse(
    amount: real,
    paymentMode: string,
    feeAmount: real,
    totalAmount: real,
    feePercentage: real)

  /** The available payment methods, in display order: nine distinct
      (gateway, mode) pairs over three gateways, each mode one with a table
      of its own. */
  function Catalog(): (r: seq<(string, string)>)
    ensures |r| == 9
    ensures forall i :: 0 <= i < |r| ==> Fees.IsKnownMode(r[i].1)
    ensures forall i :: 0 <= i < |r| ==> r[i].0 in {"Razorpay", "PayU", "Cashfree"}
    ensures forall i, j :: 0 <= i < j < |r| ==> r[i] != r[j]
  {
    [("Razorpay", "debit_card"),
     ("Razorpay", "credit_card"),
     ("Razorpay", "netbanking"),
     ("Razorpay", "upi"),
     ("PayU", "debit_card"),
     ("PayU", "credit_card"),
     ("PayU", "upi"),
     ("Cashfree", "debit_card"),
     ("Cashfree", "upi")]
  }

  /** The option shown for `gateway` and `mode` at `amount`: the fee engine's
      percentage unrounded, its fee and total passed through `round2`. */
  predicate IsOptionFor(o: PaymentOption, gateway: string, mode: string, amount: real, round2: real -> real)
    ensures IsOptionFor(o, gateway, mode, amount, round2) ==>
              var q := Fees.Quote(o.baseAmount, o.paymentMode);
              q.feeAmount == o.baseAmount * o.feePercentage / 100.0 &&
              q.totalAmount == o.baseAmount + q.feeAmount &&
              o.feeAmount == round2(q.feeAmount) && o.totalAmount == round2(q.totalAmount)
    ensures IsOptionFor(o, gateway, mode, amount, round2) && Fees.NoMatch(Fees.Schedule(mode), amount) ==>
              o.feePercentage == 0.0
  {
    var q := Fees.Quote(amount, mode);
    o.gateway == gateway && o.paymentMode == mode && o.baseAmount == amount &&
    o.feePercentage == q.feePercentage &&
    o.feeAmount == round2(q.feeAmount) && o.totalAmount == round2(q.totalAmount)
  }

  /** Quotes every catalog entry, in catalog order, for the requested amount. */
  method CreateCheckout(amount: real, round2: real -> real) returns (resp: CheckoutResponse)
    ensures resp.originalAmount == amount
    ensures |resp.paymentOptions| == |Catalog()| == 9
    ensures forall i :: 0 <= i < |Catalog()| ==>
              IsOptionFor(resp.paymentOptions[i], Catalog()[i].0, Catalog()[i].1, amount, round2)
  {
    var paymentMethods := Catalog();
    var paymentOptions: seq<PaymentOption> := [];
    for k := 0 to |paymentMethods|
      invariant |paymentOptions| == k
      invariant forall i :: 0 <= i < k ==>
                  IsOptionFor(paymentOptions[i], paymentMethods[i].0, paymentMethods[i].1, amount, round2)
    {
      var (gateway, paymentMode) := paymentMethods[k];
      var feeAmount, totalAmount, feePercentage := Fees.CalculateFee(amount, paymentMode);
      paymentOptions := paymentOptions + [PaymentOption(
        gateway, paymentMode, amount, round2(feeAmount), round2(totalAmount), feePercentage)];
    }
    resp := CheckoutResponse(amount, paymentOptions);
  }

  /** One fee evaluation: echoes amount and mode, reports the raw percentage
      and the rounded fee and total. */
  function GetFee(amount: real, paymentMode: string, round2: real -> real): (r: FeeResponse)
    ensures r.amount == amount && r.paymentMode == paymentMode
    ensures Fees.NoMatch(Fees.Schedule(paymentMode), amount) ==>
              r.feePercentage == 0.0 && r.feeAmount == round2(0.0) && r.totalAmount == round2(amount)
    ensures forall i :: Fees.IsFirstMatch(Fees.Schedule(paymentMode), amount, i) ==>
              r.feePercentage == Fees.Schedule(paymentMode)[i].pct
    ensures var q := Fees.Quote(amount, paymentMode);
            q.feeAmount == amount * r.feePercentage / 100.0 && q.totalAmount == amount + q.feeAmount &&
            r.feeAmount == round2(q.feeAmount) && r.totalAmount == round2(q.totalAmount)
  {
    var q := Fees.Quote(amount, paymentMode);
    FeeResponse(amount, paymentMode, round2(q.feeAmount), round2(q.totalAmount), q.feePercentage)
  }

  /** Every option of a checkout carries the same fee figures as a single
      evaluation of its mode. */
  lemma CheckoutAgreesWithGetFee(o: PaymentOption, gateway: string, mode: string, amount: real, round2: real -> real)
    requires IsOptionFor(o, gateway, mode, amount, round2)
    ensures var f := GetFee(amount, mode, round2);
            o.feePercentage == f.feePercentage && o.feeAmount == f.feeAmount &&
            o.totalAmount == f.totalAmount && o.baseAmount == f.amount && o.paymentMode == f.paymentMode
  {
  }

  /** At amount 1500 the upi and debit_card entries charge nothing, credit_card
      charges 0.1% and netbanking nothing: every catalog entry but
      credit_card's is quoted a zero fee. */
  lemma CatalogQuotesAt1500(i: int)
    requires 0 <= i < |Catalog()|
    ensures var q := Fees.Quote(1500.0, Catalog()[i].1);
            if Catalog()[i].1 == "credit_card" then q == Fees.FeeQuote(1.5, 1501.5, 0.1)
            else q == Fees.FeeQuote(0.0, 1500.0, 0.0)
  {
    var mode := Catalog()[i].1;
    assert mode in {"debit_card", "credit_card", "netbanking", "upi"};
    if mode == "credit_card" {
      Fees.CreditCardTiers(1500.0);
      assert 1500.0 * 0.1 / 100.0 == 1.5;
    } else if mode == "debit_card" {
      Fees.DebitCardTiers(1500.0);
    } else if mode == "netbanking" {
      Fees.NetbankingTiers(1500.0);
    } else {
      assert Fees.Percentage(1500.0, mode) == 0.0 by {
        assert Fees.IsFirstMatch(Fees.UpiRanges(), 1500.0, 0);
      }
    }
  }
}
