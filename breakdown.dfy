/**
  The amortization engine of the EMI calculator (script.js, calculateEMIBreakdown).

  All arithmetic is over exact `real`; the floating-point rounding of the
  original is not modelled.  The engine charges interest on each month's
  opening balance, adds GST on that interest, clamps the principal repaid to
  the outstanding balance, and front-loads the processing fee (plus GST) into
  month 1.  The specification is given by recursive functions over the number
  of months processed so far; the method mirrors the original loop and is
  proved equal to them.
*/
module EmiBreakdown {

  /** GST charged on interest and on the processing fee (18%). */
  const GstRate: real := 0.18

  /** The five arguments of one calculation. */
  datatype Loan = Loan(
    totalAmount: real,
    loanTenure: int,
    emiAmount: real,
    interestRate: real,
    processingFees: real)

  /** One row of the breakdown; `remainingBalance` is the balance at the START of the month. */
  datatype MonthRecord = MonthRecord(
    month: int,
    remainingBalance: real,
    principalRepaid: real,
    interest: real,
    gstOnInterest: real,
    processingFees: real,
    totalMonthlyPayment: real)

  /** A percentage; `NonFinite` stands for the Infinity or NaN that a division by zero yields. */
  datatype Percentage = Finite(value: real) | NonFinite

  datatype BreakdownResult = BreakdownResult(
    breakdown: seq<MonthRecord>,
    totalHiddenCost: real,
    hiddenCostPercentage: Percentage)

  /** Annual percentage rate turned into a monthly fraction. */
  function MonthlyInterestRate(interestRate: real): real
  {
    interestRate / 12.0 / 100.0
  }

  function ProcessingFeesWithGst(processingFees: real): real
  {
    processingFees * (1.0 + GstRate)
  }

  /** Number of loop iterations: the loop runs for month = 1 .. loanTenure. */
  function Months(loan: Loan): nat
  {
    if loan.loanTenure > 0 then loan.loanTenure else 0
  }

  /** Interest charged for one month on `balance`. */
  function InterestOn(balance: real, monthlyRate: real): real
  {
    balance * monthlyRate
  }

  /** The record the loop produces for `month` when the balance at its start is `opening`. */
  function Record(loan: Loan, month: int, opening: real): MonthRecord
  {
    var interest := InterestOn(opening, MonthlyInterestRate(loan.interestRate));
    var gstOnInterest := interest * GstRate;
    var owed := loan.emiAmount - interest;
    var principalRepaid := if owed > opening then opening else owed;
    var fee := if month == 1 then ProcessingFeesWithGst(loan.processingFees) else 0.0;
    MonthRecord(month, opening, principalRepaid, interest, gstOnInterest, fee,
                loan.emiAmount + gstOnInterest + fee)
  }

  function ClosingBalance(r: MonthRecord): real
  {
    r.remainingBalance - r.principalRepaid
  }

  /** The outstanding balance after the first `k` months. */
  function BalanceAfter(loan: Loan, k: nat): real
  {
    if k == 0 then loan.totalAmount
    else ClosingBalance(Record(loan, k, BalanceAfter(loan, k - 1)))
  }

  /** The first `k` records of the breakdown. */
  function Schedule(loan: Loan, k: nat): (s: seq<MonthRecord>)
    ensures |s| == k
  {
    if k == 0 then []
    else Schedule(loan, k - 1) + [Record(loan, k, BalanceAfter(loan, k - 1))]
  }

  function GstOf(r: MonthRecord): real { r.gstOnInterest }

  function InterestOf(r: MonthRecord): real { r.interest }

  function PrincipalOf(r: MonthRecord): real { r.principalRepaid }

  /** Sum of one field over a run of records. */
  function Sum(s: seq<MonthRecord>, f: MonthRecord -> real): real
  {
    if s == [] then 0.0 else f(s[0]) + Sum(s[1..], f)
  }

  lemma {:induction false} SumAppend(s: seq<MonthRecord>, r: MonthRecord, f: MonthRecord -> real)
    ensures Sum(s + [r], f) == Sum(s, f) + f(r)
  {
    if s != [] {
      assert (s + [r])[1..] == s[1..] + [r];
      SumAppend(s[1..], r, f);
    }
  }

  /** `part / whole * 100`, non-finite when `whole` is zero. */
  function Percent(part: real, whole: real): Percentage
  {
    if whole == 0.0 then NonFinite else Finite(part / whole * 100.0)
  }

  /**
    What calculateEMIBreakdown returns: the month-by-month records, the hidden
    cost (processing fee with GST plus the GST on every month's interest, raw
    interest excluded) and that cost as a percentage of the total amount.
  */
  function Breakdown(loan: Loan): BreakdownResult
  {
    var s := Schedule(loan, Months(loan));
    var hidden := ProcessingFeesWithGst(loan.processingFees) + Sum(s, GstOf);
    BreakdownResult(s, hidden, Percent(hidden, loan.totalAmount))
  }

  /** The loop of calculateEMIBreakdown, with its running balance and hidden-cost accumulator. */
  method CalculateEmiBreakdown(
    totalAmount: real, loanTenure: int, emiAmount: real, interestRate: real, processingFees: real)
    returns (result: BreakdownResult)
    ensures result == Breakdown(Loan(totalAmount, loanTenure, emiAmount, interestRate, processingFees))
  {
    ghost var loan := Loan(totalAmount, loanTenure, emiAmount, interestRate, processingFees);
    var monthlyInterestRate := interestRate / 12.0 / 100.0;
    var remainingBalance := totalAmount;
    var breakdown: seq<MonthRecord> := [];
    var totalHiddenCost := 0.0;

    var processingFeesWithGst := processingFees * (1.0 + GstRate);
    totalHiddenCost := totalHiddenCost + processingFeesWithGst;

    var month := 1;
    while month <= loanTenure
      invariant 1 <= month <= Months(loan) + 1
      invariant breakdown == Schedule(loan, month - 1)
      invariant remainingBalance == BalanceAfter(loan, month - 1)
      invariant totalHiddenCost == processingFeesWithGst + Sum(breakdown, GstOf)
    {
      var interest := InterestOn(remainingBalance, monthlyInterestRate);
      var gstOnInterest := interest * GstRate;
      var principalRepaid := emiAmount - interest;
      if principalRepaid > remainingBalance {
        principalRepaid := remainingBalance;
      }
      var processingFeesForMonth := if month == 1 then processingFeesWithGst else 0.0;
      var totalMonthlyPayment := emiAmount + gstOnInterest + processingFeesForMonth;
      var row := MonthRecord(month, remainingBalance, principalRepaid, interest,
                             gstOnInterest, processingFeesForMonth, totalMonthlyPayment);
      assert row == Record(loan, month, remainingBalance);
      SumAppend(breakdown, row, GstOf);
      breakdown := breakdown + [row];

      remainingBalance := remainingBalance - principalRepaid;
      totalHiddenCost := totalHiddenCost + gstOnInterest;
      month := month + 1;
    }

    var hiddenCostPercentage := if totalAmount == 0.0 then NonFinite
                                else Finite(totalHiddenCost / totalAmount * 100.0);
    result := BreakdownResult(breakdown, totalHiddenCost, hiddenCostPercentage);
  }
}
