/**
 The arithmetic of the calculator over exact reals: the cash option (price
 after the discount, and the discount invested at compound interest for as
 many months as there would be installments) and the installment schedule
 (the unspent balance earns the monthly rate, then one installment is paid).
 Percentages are given as in the input fields, e.g. 3.0 for 3%.
 */
module Finance {

  /** `base ** n` for a natural exponent. */
  function Pow(base: real, n: nat): (p: real)
    ensures base >= 0.0 ==> p >= 0.0
  {
    if n == 0 then 1.0 else base * Pow(base, n - 1)
  }

  lemma {:induction false} PowOfOne(n: nat)
    ensures Pow(1.0, n) == 1.0
  {
    if n > 0 {
      PowOfOne(n - 1);
    }
  }

  lemma {:induction false} PowAtLeastOne(base: real, n: nat)
    requires base >= 1.0
    ensures Pow(base, n) >= 1.0
  {
    if n > 0 {
      PowAtLeastOne(base, n - 1);
      assert base * Pow(base, n - 1) >= 1.0 * Pow(base, n - 1);
    }
  }

  // ---------------------------------------------------------------------
  // Cash option
  // ---------------------------------------------------------------------

  /** The four figures shown for paying in full. */
  datatype CashOption = CashOption(
    price: real,          // what is paid up front, after the discount
    discount: real,       // the amount saved by paying up front
    discountYield: real,  // what the saved amount earns over the period
    netCost: real)        // price minus that yield

  /** The cash option for a product of `value`, a discount of
      `discountPercent`, a monthly yield of `ratePercent`, and a period of
      `months` months. The discount is the part of the value not paid, the
      invested discount grows by the compound factor, and the net cost
      deducts its earnings from the price. */
  function CashOptionOf(value: real, discountPercent: real, ratePercent: real, months: nat): (c: CashOption)
    ensures c.price + c.discount == value
    ensures c.discount == value * discountPercent / 100.0
    ensures c.discount + c.discountYield == c.discount * Pow(1.0 + ratePercent / 100.0, months)
    ensures c.netCost + c.discountYield == c.price
  {
    var price := value * (1.0 - discountPercent / 100.0);
    var discount := value - price;
    var discountYield := discount * (Pow(1.0 + ratePercent / 100.0, months) - 1.0);
    CashOption(price, discount, discountYield, price - discountYield)
  }

  /** Without a discount the cash price is the full value and nothing is
      saved, so nothing is earned either. */
  lemma CashWithoutDiscount(value: real, ratePercent: real, months: nat)
    ensures var c := CashOptionOf(value, 0.0, ratePercent, months);
      c.price == value && c.discount == 0.0 && c.discountYield == 0.0 && c.netCost == value
  {
  }

  /** At a zero rate the saved discount earns nothing and the net cash cost
      is the cash price. */
  lemma CashAtZeroRate(value: real, discountPercent: real, months: nat)
    ensures var c := CashOptionOf(value, discountPercent, 0.0, months);
      c.discountYield == 0.0 && c.netCost == c.price
  {
    PowOfOne(months);
  }

  /** With non-negative inputs the saved discount never loses money, so the
      net cash cost is at most the cash price. */
  lemma CashYieldNonNegative(value: real, discountPercent: real, ratePercent: real, months: nat)
    requires value >= 0.0 && discountPercent >= 0.0 && ratePercent >= 0.0
    ensures var c := CashOptionOf(value, discountPercent, ratePercent, months);
      c.discount >= 0.0 && c.discountYield >= 0.0 && c.netCost <= c.price
  {
    PowAtLeastOne(1.0 + ratePercent / 100.0, months);
    var c := CashOptionOf(value, discountPercent, ratePercent, months);
    assert c.discount >= 0.0 by {
      assert value * discountPercent >= 0.0;
    }
  }

  // ---------------------------------------------------------------------
  // Installment schedule
  // ---------------------------------------------------------------------

  /** The installment: the value split evenly over the months. */
  function InstallmentAmount(value: real, months: nat): (a: real)
    requires months >= 1
    ensures (months as real) * a == value
  {
    value / (months as real)
  }

  /** What a month that opens with `balance` earns. */
  function MonthlyYield(balance: real, ratePercent: real): (y: real)
    ensures balance >= 0.0 && ratePercent >= 0.0 ==> y >= 0.0
    ensures ratePercent == 0.0 ==> y == 0.0
  {
    balance * (ratePercent / 100.0)
  }

  /** The balance after `k` months: each month the balance earns its yield
      and one installment is paid out of it. */
  function BalanceAfter(value: real, ratePercent: real, installment: real, k: nat): real
  {
    if k == 0 then value
    else
      var opening := BalanceAfter(value, ratePercent, installment, k - 1);
      opening + MonthlyYield(opening, ratePercent) - installment
  }

  /** The yield accumulated over the first `k` months. */
  function YieldAfter(value: real, ratePercent: real, installment: real, k: nat): real
  {
    if k == 0 then 0.0
    else
      YieldAfter(value, ratePercent, installment, k - 1)
        + MonthlyYield(BalanceAfter(value, ratePercent, installment, k - 1), ratePercent)
  }

  /** Every balance is the starting value plus what has been earned minus
      what has been paid. */
  lemma {:induction false} BalanceIsValuePlusYieldMinusPaid(value: real, ratePercent: real, installment: real, k: nat)
    ensures BalanceAfter(value, ratePercent, installment, k)
         == value + YieldAfter(value, ratePercent, installment, k) - (k as real) * installment
  {
    if k > 0 {
      BalanceIsValuePlusYieldMinusPaid(value, ratePercent, installment, k - 1);
      var opening := BalanceAfter(value, ratePercent, installment, k - 1);
      var earned := MonthlyYield(opening, ratePercent);
      assert BalanceAfter(value, ratePercent, installment, k) == opening + earned - installment;
      assert YieldAfter(value, ratePercent, installment, k)
          == YieldAfter(value, ratePercent, installment, k - 1) + earned;
      assert ((k - 1) as real) * installment + installment == (k as real) * installment;
    }
  }

  /** Since the installments add up to the value, the balance left after
      the last month is exactly the total yield. */
  lemma FinalBalanceIsTotalYield(value: real, ratePercent: real, months: nat)
    requires months >= 1
    ensures var installment := InstallmentAmount(value, months);
      BalanceAfter(value, ratePercent, installment, months)
        == YieldAfter(value, ratePercent, installment, months)
  {
    BalanceIsValuePlusYieldMinusPaid(value, ratePercent, InstallmentAmount(value, months), months);
  }

  /** At a zero rate no month earns anything. */
  lemma {:induction false} NoYieldAtZeroRate(value: real, installment: real, k: nat)
    ensures YieldAfter(value, 0.0, installment, k) == 0.0
  {
    if k > 0 {
      NoYieldAtZeroRate(value, installment, k - 1);
    }
  }

  /** With a non-negative value and rate, the balance never drops below zero
      during the schedule, and the accumulated yield is never negative. */
  lemma {:induction false} ScheduleStaysNonNegative(value: real, ratePercent: real, months: nat, k: nat)
    requires value >= 0.0 && ratePercent >= 0.0
    requires 1 <= months && k <= months
    ensures var installment := InstallmentAmount(value, months);
      BalanceAfter(value, ratePercent, installment, k) >= 0.0
        && YieldAfter(value, ratePercent, installment, k) >= 0.0
  {
    var installment := InstallmentAmount(value, months);
    if k > 0 {
      ScheduleStaysNonNegative(value, ratePercent, months, k - 1);
      var opening := BalanceAfter(value, ratePercent, installment, k - 1);
      var earned := MonthlyYield(opening, ratePercent);
      var earnedBefore := YieldAfter(value, ratePercent, installment, k - 1);
      var earnedNow := YieldAfter(value, ratePercent, installment, k);
      assert earnedNow == earnedBefore + earned;
      assert earnedNow >= 0.0;
      BalanceIsValuePlusYieldMinusPaid(value, ratePercent, installment, k);
      PaidWithinValue(value, months, k);
      var paid := (k as real) * installment;
      assert BalanceAfter(value, ratePercent, installment, k) == value + earnedNow - paid;
    }
  }

  /** Within the schedule, the installments paid so far never exceed the value. */
  lemma PaidWithinValue(value: real, months: nat, k: nat)
    requires value >= 0.0 && 1 <= months && k <= months
    ensures 0.0 <= (k as real) * InstallmentAmount(value, months) <= value
  {
  }

  /** With a non-negative value and rate, the accumulated yield grows month
      by month over the schedule. */
  lemma YieldGrowsMonthly(value: real, ratePercent: real, months: nat, k: nat)
    requires value >= 0.0 && ratePercent >= 0.0
    requires 1 <= months && k < months
    ensures var installment := InstallmentAmount(value, months);
      YieldAfter(value, ratePercent, installment, k)
        <= YieldAfter(value, ratePercent, installment, k + 1)
  {
    var installment := InstallmentAmount(value, months);
    ScheduleStaysNonNegative(value, ratePercent, months, k);
    var opening := BalanceAfter(value, ratePercent, installment, k);
    assert opening * (ratePercent / 100.0) >= 0.0;
  }
}
