/** The fee engine: a fixed per-mode table of amount brackets, a first-match
    scan over the brackets of the requested mode, and the fee and total that
    follow from the selected percentage. Amounts and percentages are exact
    reals. */
module Fees {

  /** Upper end of a bracket: a finite inclusive bound, or no bound at all. */
  datatype Bound = Finite(value: real) | Unbounded

  /** One `(min, max, percentage)` row of a mode's table. */
  datatype Bracket = Bracket(lo: real, hi: Bound, pct: real)

  /** The triple returned by the fee calculation. */
  datatype FeeQuote = FeeQuote(feeAmount: real, totalAmount: real, feePercentage: real)

  /** `min <= amount <= max`, where an unbounded max admits every amount. */
  predicate InBracket(b: Bracket, amount: real)
    ensures b.hi.Finite? ==> (InBracket(b, amount) <==> b.lo <= amount <= b.hi.value)
    ensures b.hi.Unbounded? ==> (InBracket(b, amount) <==> b.lo <= amount)
  {
    b.lo <= amount && (b.hi.Unbounded? || amount <= b.hi.value)
  }

  /** A table in ascending order: every finite bracket has `lo <= hi`, and
      every bracket but the last has a finite upper bound below the lower
      bound of the next one. */
  predicate Ascending(s: seq<Bracket>) {
    (forall j :: 0 <= j < |s| ==> NonEmpty(s[j])) &&
    (forall j :: 0 <= j < |s| - 1 ==> Separated(s[j], s[j + 1]))
  }

  /** A bracket with a finite upper bound does not end below its start. */
  predicate NonEmpty(b: Bracket) {
    b.hi.Finite? ==> b.lo <= b.hi.value
  }

  /** Bracket `a` has a finite upper bound below the start of `b`. */
  predicate Separated(a: Bracket, b: Bracket) {
    a.hi.Finite? && a.hi.value < b.lo
  }

  /** An ascending table that starts at 0 and has no upper bound at the end. */
  predicate WellShaped(s: seq<Bracket>) {
    |s| > 0 && Ascending(s) && s[0].lo == 0.0 && s[|s| - 1].hi.Unbounded?
  }

  // The four tables, row for row.

  function DebitCardRanges(): (r: seq<Bracket>)
    ensures WellShaped(r) && |r| == 2
  {
    [Bracket(0.0, Finite(2000.0), 0.0),
     Bracket(2000.01, Unbounded, 0.5)]
  }

  function CreditCardRanges(): (r: seq<Bracket>)
    ensures WellShaped(r) && |r| == 2
  {
    [Bracket(0.0, Finite(25000.0), 0.1),
     Bracket(25000.01, Unbounded, 0.5)]
  }

  function NetbankingRanges(): (r: seq<Bracket>)
    ensures WellShaped(r) && |r| == 3
  {
    [Bracket(0.0, Finite(10000.0), 0.0),
     Bracket(10000.01, Finite(50000.0), 0.75),
     Bracket(50000.01, Unbounded, 1.0)]
  }

  /** One bracket that holds every non-negative amount. */
  function UpiRanges(): (r: seq<Bracket>)
    ensures WellShaped(r) && |r| == 1
    ensures forall amount :: amount >= 0.0 ==> InBracket(r[0], amount)
  {
    [Bracket(0.0, Unbounded, 0.0)]
  }

  /** The modes that have a table of their own: exactly the four keys of the
      fee configuration (debit_card, credit_card, netbanking, upi). */
  predicate IsKnownMode(mode: string) {
    mode == "debit_card" || mode == "credit_card" || mode == "netbanking" || mode == "upi"
  }

  /** The table of `mode`; a mode without a table of its own falls back to upi's. */
  function Schedule(mode: string): (r: seq<Bracket>)
    ensures !IsKnownMode(mode) ==> r == UpiRanges()
    ensures WellShaped(r)
  {
    if mode == "debit_card" then DebitCardRanges()
    else if mode == "credit_card" then CreditCardRanges()
    else if mode == "netbanking" then NetbankingRanges()
    else UpiRanges()
  }

  /** Bracket `i` contains `amount` and no earlier bracket does. */
  predicate IsFirstMatch(ranges: seq<Bracket>, amount: real, i: int) {
    0 <= i < |ranges| && InBracket(ranges[i], amount) &&
    forall j :: 0 <= j < i ==> !InBracket(ranges[j], amount)
  }

  /** No bracket contains `amount`. */
  predicate NoMatch(ranges: seq<Bracket>, amount: real) {
    forall j :: 0 <= j < |ranges| ==> !InBracket(ranges[j], amount)
  }

  /** The percentage selected by the scan: that of the first bracket that
      contains `amount`, or 0.0 when none does. */
  function FirstMatch(ranges: seq<Bracket>, amount: real): (r: real)
    ensures NoMatch(ranges, amount) ==> r == 0.0
    ensures forall i :: IsFirstMatch(ranges, amount, i) ==> r == ranges[i].pct
  {
    if |ranges| == 0 then 0.0
    else if InBracket(ranges[0], amount) then ranges[0].pct
    else
      assert forall i :: IsFirstMatch(ranges, amount, i) ==> IsFirstMatch(ranges[1..], amount, i - 1);
      FirstMatch(ranges[1..], amount)
  }

  /** The percentage the engine applies to `amount` under `mode`: the first
      matching bracket's in the mode's table, otherwise 0.0; it is always one
      of the percentages the tables use. */
  function Percentage(amount: real, mode: string): (r: real)
    ensures NoMatch(Schedule(mode), amount) ==> r == 0.0
    ensures forall i :: IsFirstMatch(Schedule(mode), amount, i) ==> r == Schedule(mode)[i].pct
    ensures r in {0.0, 0.1, 0.5, 0.75, 1.0}
  {
    FirstMatchCases(Schedule(mode), amount);
    FirstMatch(Schedule(mode), amount)
  }

  /** The full result of the fee calculation, as a value: the mode's
      percentage, the fee it gives on `amount`, and amount plus fee. */
  function Quote(amount: real, mode: string): (q: FeeQuote)
    ensures q.feePercentage == Percentage(amount, mode)
    ensures q.feeAmount == amount * q.feePercentage / 100.0
    ensures q.totalAmount == amount + q.feeAmount
    ensures NoMatch(Schedule(mode), amount) ==> q == FeeQuote(0.0, amount, 0.0)
  {
    var pct := Percentage(amount, mode);
    var fee := amount * pct / 100.0;
    FeeQuote(fee, amount + fee, pct)
  }

  /** The fee calculation: scan the mode's brackets in order, stop at the
      first one that contains the amount, then derive fee and total. */
  method CalculateFee(amount: real, mode: string) returns (feeAmount: real, totalAmount: real, feePercentage: real)
    ensures NoMatch(Schedule(mode), amount) ==> feePercentage == 0.0
    ensures forall i :: IsFirstMatch(Schedule(mode), amount, i) ==> feePercentage == Schedule(mode)[i].pct
    ensures feeAmount == amount * feePercentage / 100.0
    ensures totalAmount == amount + feeAmount
    ensures FeeQuote(feeAmount, totalAmount, feePercentage) == Quote(amount, mode)
  {
    var ranges := Schedule(mode);
    feePercentage := 0.0;
    var i := 0;
    while i < |ranges|
      invariant 0 <= i <= |ranges|
      invariant forall j :: 0 <= j < i ==> !InBracket(ranges[j], amount)
      invariant feePercentage == 0.0
    {
      if InBracket(ranges[i], amount) {
        assert IsFirstMatch(ranges, amount, i);
        feePercentage := ranges[i].pct;
        break;
      }
      i := i + 1;
    }
    feeAmount := amount * feePercentage / 100.0;
    totalAmount := amount + feeAmount;
  }

  // ---------------------------------------------------------------------
  // Properties of the first-match scan

  /** The scan either finds a unique first match or finds nothing. */
  lemma {:induction false} FirstMatchCases(ranges: seq<Bracket>, amount: real)
    ensures NoMatch(ranges, amount) || exists i :: IsFirstMatch(ranges, amount, i)
    ensures forall i, k :: IsFirstMatch(ranges, amount, i) && IsFirstMatch(ranges, amount, k) ==> i == k
  {
    if |ranges| > 0 && !InBracket(ranges[0], amount) {
      FirstMatchCases(ranges[1..], amount);
      if !NoMatch(ranges[1..], amount) {
        var i :| IsFirstMatch(ranges[1..], amount, i);
        assert IsFirstMatch(ranges, amount, i + 1);
      } else {
        assert NoMatch(ranges, amount) by {
          forall j | 0 <= j < |ranges| ensures !InBracket(ranges[j], amount) {
            if j > 0 { assert ranges[j] == ranges[1..][j - 1]; }
          }
        }
      }
    } else if |ranges| > 0 {
      assert IsFirstMatch(ranges, amount, 0);
    }
  }

  /** The selected percentage is 0.0 or the percentage of some bracket. */
  lemma FirstMatchIsTablePercentage(ranges: seq<Bracket>, amount: real)
    ensures FirstMatch(ranges, amount) == 0.0 ||
            exists i :: 0 <= i < |ranges| && FirstMatch(ranges, amount) == ranges[i].pct
  {
    FirstMatchCases(ranges, amount);
  }

  /** Within a table whose brackets are pairwise disjoint, any bracket that
      contains the amount is the one the scan selects. */
  lemma DisjointMatchIsFirst(ranges: seq<Bracket>, amount: real, i: int)
    requires 0 <= i < |ranges| && InBracket(ranges[i], amount)
    requires forall j, k :: 0 <= j < k < |ranges| ==> !(InBracket(ranges[j], amount) && InBracket(ranges[k], amount))
    ensures FirstMatch(ranges, amount) == ranges[i].pct
  {
    assert IsFirstMatch(ranges, amount, i);
  }

  // ---------------------------------------------------------------------
  // Properties of the tables

  /** In an ascending table the lower bounds never decrease. */
  lemma {:induction false} LowerBoundsAscend(s: seq<Bracket>, j: int, k: int)
    requires Ascending(s) && 0 <= j <= k < |s|
    ensures s[j].lo <= s[k].lo
  {
    if j < k {
      LowerBoundsAscend(s, j, k - 1);
      assert NonEmpty(s[k - 1]) && Separated(s[k - 1], s[k]);
    }
  }

  /** No amount lies in two brackets of an ascending table. */
  lemma AscendingDisjoint(s: seq<Bracket>, amount: real)
    requires Ascending(s)
    ensures forall j, k :: 0 <= j < k < |s| ==> !(InBracket(s[j], amount) && InBracket(s[k], amount))
  {
    forall j, k | 0 <= j < k < |s|
      ensures !(InBracket(s[j], amount) && InBracket(s[k], amount))
    {
      LowerBoundsAscend(s, j + 1, k);
    }
  }

  /** No two brackets of the same mode overlap, so the first-match rule and
      "any bracket that contains the amount" select the same percentage. */
  lemma BracketsDisjoint(mode: string, amount: real)
    ensures forall j, k :: 0 <= j < k < |Schedule(mode)| ==>
              !(InBracket(Schedule(mode)[j], amount) && InBracket(Schedule(mode)[k], amount))
    ensures forall i :: 0 <= i < |Schedule(mode)| && InBracket(Schedule(mode)[i], amount) ==>
              Percentage(amount, mode) == Schedule(mode)[i].pct
  {
    var s := Schedule(mode);
    AscendingDisjoint(s, amount);
    forall i | 0 <= i < |s| && InBracket(s[i], amount)
      ensures Percentage(amount, mode) == s[i].pct
    {
      DisjointMatchIsFirst(s, amount, i);
    }
  }

  /** debit_card: 0% up to 2000 and 0.5% from 2000.01; every other amount
      (negative, or strictly between 2000 and 2000.01) matches no bracket. */
  lemma DebitCardTiers(amount: real)
    ensures Percentage(amount, "debit_card") == if amount >= 2000.01 then 0.5 else 0.0
  {
    var s := DebitCardRanges();
    if amount >= 2000.01 { assert IsFirstMatch(s, amount, 1); }
    else if 0.0 <= amount <= 2000.0 { assert IsFirstMatch(s, amount, 0); }
    else { assert NoMatch(s, amount); }
  }

  /** credit_card: 0.1% for 0..25000 and 0.5% from 25000.01; 0.0 otherwise. */
  lemma CreditCardTiers(amount: real)
    ensures Percentage(amount, "credit_card") ==
            if 0.0 <= amount <= 25000.0 then 0.1
            else if amount >= 25000.01 then 0.5
            else 0.0
  {
    var s := CreditCardRanges();
    if amount >= 25000.01 { assert IsFirstMatch(s, amount, 1); }
    else if 0.0 <= amount <= 25000.0 { assert IsFirstMatch(s, amount, 0); }
    else { assert NoMatch(s, amount); }
  }

  /** netbanking: 0% for 0..10000, 0.75% for 10000.01..50000 and 1% from
      50000.01; 0.0 otherwise. */
  lemma NetbankingTiers(amount: real)
    ensures Percentage(amount, "netbanking") ==
            if 10000.01 <= amount <= 50000.0 then 0.75
            else if amount >= 50000.01 then 1.0
            else 0.0
  {
    var s := NetbankingRanges();
    if amount >= 50000.01 { assert IsFirstMatch(s, amount, 2); }
    else if 10000.01 <= amount <= 50000.0 { assert IsFirstMatch(s, amount, 1); }
    else if 0.0 <= amount <= 10000.0 { assert IsFirstMatch(s, amount, 0); }
    else { assert NoMatch(s, amount); }
  }

  /** An unknown mode is quoted exactly as upi is, and upi never charges a fee. */
  lemma UnknownModeActsAsUpi(amount: real, mode: string)
    requires !IsKnownMode(mode)
    ensures Quote(amount, mode) == Quote(amount, "upi")
    ensures Quote(amount, mode) == FeeQuote(0.0, amount, 0.0)
  {
    var s := UpiRanges();
    if amount >= 0.0 { assert IsFirstMatch(s, amount, 0); }
    else { assert NoMatch(s, amount); }
  }

  /** debit_card at the edges of its bracket: 2000 pays nothing, 2000.01
      pays 0.5% (a fee of 10.00005 before rounding), and 2000.005, inside the
      gap, pays nothing. */
  lemma DebitCardBoundary()
    ensures Quote(2000.0, "debit_card") == FeeQuote(0.0, 2000.0, 0.0)
    ensures Quote(2000.01, "debit_card") == FeeQuote(10.00005, 2010.01005, 0.5)
    ensures Quote(2000.005, "debit_card") == FeeQuote(0.0, 2000.005, 0.0)
  {
    DebitCardTiers(2000.0);
    DebitCardTiers(2000.01);
    DebitCardTiers(2000.005);
    assert 2000.01 * 0.5 / 100.0 == 10.00005;
  }

  /** The amounts that fall outside every bracket of `mode`: negative amounts,
      and the open gaps the epsilon lower bounds leave above each finite max. */
  predicate InGap(mode: string, amount: real) {
    amount < 0.0 ||
    (mode == "debit_card" && 2000.0 < amount < 2000.01) ||
    (mode == "credit_card" && 25000.0 < amount < 25000.01) ||
    (mode == "netbanking" && ((10000.0 < amount < 10000.01) || (50000.0 < amount < 50000.01)))
  }

  /** An amount matches no bracket of its mode exactly when it lies in a gap;
      such an amount is charged nothing. */
  lemma NoMatchIffGap(mode: string, amount: real)
    ensures NoMatch(Schedule(mode), amount) <==> InGap(mode, amount)
    ensures InGap(mode, amount) ==> Quote(amount, mode) == FeeQuote(0.0, amount, 0.0)
  {
    var s := Schedule(mode);
    if InGap(mode, amount) {
      assert NoMatch(s, amount);
    } else if mode == "netbanking" {
      if amount >= 50000.01 { assert InBracket(s[2], amount); }
      else if amount >= 10000.01 { assert InBracket(s[1], amount); }
      else { assert InBracket(s[0], amount); }
    } else if mode == "debit_card" || mode == "credit_card" {
      if InBracket(s[0], amount) { } else { assert InBracket(s[1], amount); }
    } else {
      assert InBracket(s[0], amount);
    }
  }

  /** Every percentage in every table is one of 0, 0.1, 0.5, 0.75 and 1. */
  lemma TablePercentages(mode: string, i: int)
    requires 0 <= i < |Schedule(mode)|
    ensures Schedule(mode)[i].pct in {0.0, 0.1, 0.5, 0.75, 1.0}
  {
  }

  /** For a non-negative amount the fee is non-negative and the total is at
      least the amount; the percentage never exceeds 1%. */
  lemma FeeNonNegative(amount: real, mode: string)
    requires amount >= 0.0
    ensures 0.0 <= Quote(amount, mode).feePercentage <= 1.0
    ensures 0.0 <= Quote(amount, mode).feeAmount <= amount / 100.0
    ensures Quote(amount, mode).totalAmount >= amount
  {
    var s := Schedule(mode);
    FirstMatchIsTablePercentage(s, amount);
    var pct := Percentage(amount, mode);
    if pct != 0.0 {
      var i :| 0 <= i < |s| && pct == s[i].pct;
      TablePercentages(mode, i);
    }
    assert 0.0 <= amount * pct <= amount * 1.0;
  }
}
