/**
 One evaluation of the purchase comparator: reject a non-positive
 installment count, work out the cash option, simulate the installment
 option month by month, build the detail table, and say which option costs
 less once yields are counted.
 */
module Comparator {
  import opened Finance

  // ---------------------------------------------------------------------
  // Verdict
  // ---------------------------------------------------------------------

  /** Which option is cheaper after yields, and by how much. */
  datatype Verdict = CashBetter(savings: real) | InstallmentBetter(savings: real) | Tie

  /** Strict comparison of the two net costs; equal costs are a tie, and the
      saving reported is the positive gap between them. */
  function Compare(netCash: real, netInstallment: real): (v: Verdict)
    ensures v.CashBetter? <==> netCash < netInstallment
    ensures v.InstallmentBetter? <==> netInstallment < netCash
    ensures v.Tie? <==> netCash == netInstallment
    ensures v.CashBetter? ==> netCash + v.savings == netInstallment
    ensures v.InstallmentBetter? ==> netInstallment + v.savings == netCash
    ensures !v.Tie? ==> v.savings > 0.0
  {
    if netCash < netInstallment then CashBetter(netInstallment - netCash)
    else if netInstallment < netCash then InstallmentBetter(netCash - netInstallment)
    else Tie
  }

  /** The same verdict seen from the other option's side. */
  function Mirror(v: Verdict): Verdict
  {
    match v
    case CashBetter(s) => InstallmentBetter(s)
    case InstallmentBetter(s) => CashBetter(s)
    case Tie => Tie
  }

  /** Exchanging the two costs exchanges the winner and keeps the saving. */
  lemma CompareIsAntisymmetric(netCash: real, netInstallment: real)
    ensures Compare(netInstallment, netCash) == Mirror(Compare(netCash, netInstallment))
  {
  }

  // ---------------------------------------------------------------------
  // The installment simulation and the detail table
  // ---------------------------------------------------------------------

  /** The installment amount and, month by month, the accumulated yield and
      the closing balance. Each month the open balance earns the rate, the
      yield is added to the running total, and the installment is paid. The
      caller has already rejected a count below one. */
  method SimulateInstallments(value: real, ratePercent: real, months: nat)
    returns (installment: real, cumulativeYields: seq<real>, balances: seq<real>, totalYield: real)
    requires months >= 1
    ensures installment == InstallmentAmount(value, months)
    ensures |cumulativeYields| == months && |balances| == months
    ensures forall i :: 0 <= i < months ==>
      cumulativeYields[i] == YieldAfter(value, ratePercent, installment, i + 1)
    ensures forall i :: 0 <= i < months ==>
      balances[i] == BalanceAfter(value, ratePercent, installment, i + 1)
    ensures totalYield == YieldAfter(value, ratePercent, installment, months)
    ensures balances[months - 1] == totalYield
  {
    installment := value / (months as real);
    totalYield := 0.0;
    cumulativeYields := [];
    balances := [];
    var balance := value;
    for month := 1 to months + 1
      invariant |cumulativeYields| == month - 1 && |balances| == month - 1
      invariant balance == BalanceAfter(value, ratePercent, installment, month - 1)
      invariant totalYield == YieldAfter(value, ratePercent, installment, month - 1)
      invariant forall i :: 0 <= i < month - 1 ==>
        cumulativeYields[i] == YieldAfter(value, ratePercent, installment, i + 1)
      invariant forall i :: 0 <= i < month - 1 ==>
        balances[i] == BalanceAfter(value, ratePercent, installment, i + 1)
    {
      var monthYield := balance * (ratePercent / 100.0);
      totalYield := totalYield + monthYield;
      cumulativeYields := cumulativeYields + [totalYield];
      balance := balance + monthYield - installment;
      balances := balances + [balance];
    }
    FinalBalanceIsTotalYield(value, ratePercent, months);
  }

  /** One line of the detail table. */
  datatype DetailRow = DetailRow(month: nat, opening: real, monthYield: real, paid: real, closing: real)

  /** The detail line for the month numbered `i + 1`. */
  function RowAt(value: real, ratePercent: real, installment: real, i: nat): (row: DetailRow)
    ensures row.month == i + 1
    ensures row.opening == BalanceAfter(value, ratePercent, installment, i)
    ensures row.closing == row.opening + row.monthYield - row.paid
    ensures row.paid == installment
  {
    var opening := BalanceAfter(value, ratePercent, installment, i);
    DetailRow(i + 1, opening, MonthlyYield(opening, ratePercent), installment,
              BalanceAfter(value, ratePercent, installment, i + 1))
  }

  /** The detail table, recomputed from the starting value: each row opens
      with the previous row's closing balance, earns the rate on it and pays
      the installment. */
  method DetailSchedule(value: real, ratePercent: real, installment: real, months: nat)
    returns (rows: seq<DetailRow>)
    ensures |rows| == months
    ensures forall i :: 0 <= i < months ==> rows[i] == RowAt(value, ratePercent, installment, i)
  {
    rows := [];
    var balance := value;
    for month := 1 to months + 1
      invariant |rows| == month - 1
      invariant balance == BalanceAfter(value, ratePercent, installment, month - 1)
      invariant forall i :: 0 <= i < month - 1 ==> rows[i] == RowAt(value, ratePercent, installment, i)
    {
      var opening := balance;
      var monthYield := opening * (ratePercent / 100.0);
      var closing := opening + monthYield - installment;
      rows := rows + [DetailRow(month, opening, monthYield, installment, closing)];
      balance := closing;
    }
  }

  // ---------------------------------------------------------------------
  // One evaluation
  // ---------------------------------------------------------------------

  /** The four input fields. */
  datatype Inputs = Inputs(value: real, discountPercent: real, ratePercent: real, installments: int)

  /** The minimums the input fields enforce before a value reaches the
      computation. */
  predicate WithinFieldMinimums(inp: Inputs)
  {
    inp.value >= 100.0 && inp.discountPercent >= 0.0 && inp.ratePercent >= 0.0 && inp.installments >= 1
  }

  /** The one input the computation itself rejects. */
  datatype InputError = NonPositiveInstallments

  datatype Result<T> = Ok(value: T) | Err(error: InputError)

  /** The figures shown for paying in installments. */
  datatype InstallmentOption = InstallmentOption(
    amount: real,                  // one installment
    cumulativeYields: seq<real>,   // yield accumulated up to each month (the chart)
    balances: seq<real>,           // balance closing each month
    totalYield: real,
    netCost: real)

  /** Everything derived from valid inputs. */
  datatype Report = Report(cash: CashOption, installment: InstallmentOption, verdict: Verdict, detail: seq<DetailRow>)

  /** The installment option, month by month, as the simulation computes it. */
  function InstallmentOptionOf(value: real, ratePercent: real, months: nat): (o: InstallmentOption)
    requires months >= 1
    ensures (months as real) * o.amount == value
    ensures |o.cumulativeYields| == months && |o.balances| == months
    ensures o.cumulativeYields[months - 1] == o.totalYield
    ensures o.balances[months - 1] == o.totalYield
    ensures o.netCost + o.totalYield == value
  {
    var amount := InstallmentAmount(value, months);
    FinalBalanceIsTotalYield(value, ratePercent, months);
    InstallmentOption(
      amount,
      seq(months, i requires 0 <= i < months => YieldAfter(value, ratePercent, amount, i + 1)),
      seq(months, i requires 0 <= i < months => BalanceAfter(value, ratePercent, amount, i + 1)),
      YieldAfter(value, ratePercent, amount, months),
      value - YieldAfter(value, ratePercent, amount, months))
  }

  /** What one evaluation produces: the guard first, then every derived figure. */
  function Expected(inp: Inputs): (r: Result<Report>)
    ensures r.Err? <==> inp.installments <= 0
  {
    if inp.installments <= 0 then Err(NonPositiveInstallments)
    else
      var months := inp.installments as nat;
      var cash := CashOptionOf(inp.value, inp.discountPercent, inp.ratePercent, months);
      var installment := InstallmentOptionOf(inp.value, inp.ratePercent, months);
      Ok(Report(
        cash,
        installment,
        Compare(cash.netCost, installment.netCost),
        seq(months, i requires 0 <= i < months => RowAt(inp.value, inp.ratePercent, installment.amount, i))))
  }

  /** One evaluation, in the order the calculator performs it. */
  method Run(inp: Inputs) returns (r: Result<Report>)
    ensures r == Expected(inp)
  {
    if inp.installments <= 0 {
      return Err(NonPositiveInstallments);
    }
    var months := inp.installments as nat;
    var cash := CashOptionOf(inp.value, inp.discountPercent, inp.ratePercent, months);
    var amount, cumulativeYields, balances, totalYield := SimulateInstallments(inp.value, inp.ratePercent, months);
    var netInstallment := inp.value - totalYield;
    var verdict := Compare(cash.netCost, netInstallment);
    var detail := DetailSchedule(inp.value, inp.ratePercent, amount, months);
    var installment := InstallmentOption(amount, cumulativeYields, balances, totalYield, netInstallment);
    ghost var spec := InstallmentOptionOf(inp.value, inp.ratePercent, months);
    assert cumulativeYields == spec.cumulativeYields by {
      assert forall i :: 0 <= i < months ==> cumulativeYields[i] == spec.cumulativeYields[i];
    }
    assert balances == spec.balances by {
      assert forall i :: 0 <= i < months ==> balances[i] == spec.balances[i];
    }
    assert installment == spec;
    ghost var rows := seq(months, i requires 0 <= i < months => RowAt(inp.value, inp.ratePercent, amount, i));
    assert detail == rows by {
      assert forall i :: 0 <= i < months ==> detail[i] == rows[i];
    }
    r := Ok(Report(cash, installment, verdict, detail));
  }

  // ---------------------------------------------------------------------
  // Properties of an evaluation
  // ---------------------------------------------------------------------

  /** The chart, the balances and the detail table agree: the detail table
      recomputes the simulation's balances, each row opens where the previous
      one closed, and each chart point is the previous one plus that month's
      yield. */
  lemma ReportIsConsistent(inp: Inputs, rep: Report)
    requires Expected(inp) == Ok(rep)
    ensures inp.installments >= 1
    ensures |rep.detail| == inp.installments
    ensures rep.installment.balances[inp.installments - 1] == rep.installment.totalYield
    ensures rep.detail[0].opening == inp.value
    ensures rep.installment.cumulativeYields[0] == rep.detail[0].monthYield
    ensures forall i :: 0 <= i < inp.installments ==> rep.detail[i].closing == rep.installment.balances[i]
    ensures forall i :: 0 <= i < inp.installments ==>
      rep.detail[i].closing == rep.detail[i].opening + rep.detail[i].monthYield - rep.detail[i].paid
    ensures forall i :: 0 < i < inp.installments ==> rep.detail[i].opening == rep.detail[i - 1].closing
    ensures forall i :: 0 < i < inp.installments ==>
      rep.installment.cumulativeYields[i] == rep.installment.cumulativeYields[i - 1] + rep.detail[i].monthYield
  {
    var n := inp.installments;
    var amount := rep.installment.amount;
    assert YieldAfter(inp.value, inp.ratePercent, amount, 1)
        == MonthlyYield(BalanceAfter(inp.value, inp.ratePercent, amount, 0), inp.ratePercent);
    forall i | 0 < i < n
      ensures rep.installment.cumulativeYields[i] == rep.installment.cumulativeYields[i - 1] + rep.detail[i].monthYield
    {
      assert YieldAfter(inp.value, inp.ratePercent, amount, i + 1)
          == YieldAfter(inp.value, inp.ratePercent, amount, i)
             + MonthlyYield(BalanceAfter(inp.value, inp.ratePercent, amount, i), inp.ratePercent);
    }
  }

  /** With no discount and no yield both options cost exactly the value, so
      neither wins. */
  lemma NeutralInputsTie(value: real, installments: int)
    requires installments >= 1
    ensures var r := Expected(Inputs(value, 0.0, 0.0, installments));
      && r.Ok?
      && r.value.cash.netCost == value
      && r.value.installment.totalYield == 0.0
      && r.value.installment.netCost == value
      && r.value.verdict == Tie
  {
    var months := installments as nat;
    CashAtZeroRate(value, 0.0, months);
    NoYieldAtZeroRate(value, InstallmentAmount(value, months), months);
  }

  /** With no yield, any discount on a positive value makes paying in full
      cheaper, by exactly the discount. */
  lemma ZeroRateFavoursCash(value: real, discountPercent: real, installments: int)
    requires value > 0.0 && discountPercent > 0.0 && installments >= 1
    ensures var r := Expected(Inputs(value, discountPercent, 0.0, installments));
      r.Ok? && r.value.verdict == CashBetter(value * discountPercent / 100.0)
  {
    var months := installments as nat;
    CashAtZeroRate(value, discountPercent, months);
    NoYieldAtZeroRate(value, InstallmentAmount(value, months), months);
    assert value * discountPercent > 0.0;
  }

  /** For inputs the fields accept, no balance in the schedule or the detail
      table is negative, the charted yield never falls, and neither option's
      net cost exceeds what is paid for it. */
  lemma FieldMinimumsKeepFiguresInRange(inp: Inputs, rep: Report)
    requires WithinFieldMinimums(inp)
    requires Expected(inp) == Ok(rep)
    ensures forall i :: 0 <= i < inp.installments ==> rep.installment.balances[i] >= 0.0
    ensures forall i :: 0 <= i < inp.installments ==> rep.detail[i].opening >= 0.0
    ensures forall i :: 0 < i < inp.installments ==>
      rep.installment.cumulativeYields[i - 1] <= rep.installment.cumulativeYields[i]
    ensures rep.cash.netCost <= rep.cash.price
    ensures rep.installment.netCost <= inp.value
  {
    var months := inp.installments as nat;
    var amount := InstallmentAmount(inp.value, months);
    CashYieldNonNegative(inp.value, inp.discountPercent, inp.ratePercent, months);
    ScheduleStaysNonNegative(inp.value, inp.ratePercent, months, months);
    forall i | 0 <= i < months
      ensures rep.installment.balances[i] >= 0.0 && rep.detail[i].opening >= 0.0
    {
      ScheduleStaysNonNegative(inp.value, inp.ratePercent, months, i);
      ScheduleStaysNonNegative(inp.value, inp.ratePercent, months, i + 1);
    }
    forall i | 0 < i < months
      ensures rep.installment.cumulativeYields[i - 1] <= rep.installment.cumulativeYields[i]
    {
      YieldGrowsMonthly(inp.value, inp.ratePercent, months, i);
    }
  }

  /** The calculator's default inputs: 1000 with a 3% discount, a 1% monthly
      yield and two installments. Paying in full wins by 15.503. */
  lemma DefaultInputs(inp: Inputs)
    requires inp == Inputs(1000.0, 3.0, 1.0, 2)
    ensures var r := Expected(inp);
      && r.Ok?
      && r.value.cash == CashOption(970.0, 30.0, 0.603, 969.397)
      && r.value.installment.amount == 500.0
      && r.value.installment.cumulativeYields == [10.0, 15.1]
      && r.value.installment.balances == [510.0, 15.1]
      && r.value.installment.netCost == 984.9
      && r.value.verdict == CashBetter(15.503)
  {
  }
}
