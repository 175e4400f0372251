/**
  Properties of the amortization engine: the shape of the breakdown, the
  per-month equations, the clamping invariant, fee front-loading, the
  composition of the hidden cost and conservation of principal.
*/
module EmiProperties {

  import opened EmiBreakdown

  /** Record `i` (0-based) of the breakdown of `loan`. */
  function At(loan: Loan, i: nat): MonthRecord
    requires i < Months(loan)
  {
    Breakdown(loan).breakdown[i]
  }

  /** Record `i` of any prefix is month `i + 1`, computed from the balance left after `i` months. */
  lemma {:induction false} ScheduleAt(loan: Loan, k: nat, i: nat)
    requires i < k
    ensures Schedule(loan, k)[i] == Record(loan, i + 1, BalanceAfter(loan, i))
  {
    if i < k - 1 {
      ScheduleAt(loan, k - 1, i);
    }
  }

  /** The breakdown has one record per month of the tenure, numbered 1, 2, ... in order. */
  lemma BreakdownShape(loan: Loan)
    ensures |Breakdown(loan).breakdown| == Months(loan)
    ensures loan.loanTenure > 0 ==> |Breakdown(loan).breakdown| == loan.loanTenure
    ensures forall i :: 0 <= i < Months(loan) ==> Breakdown(loan).breakdown[i].month == i + 1
  {
    forall i | 0 <= i < Months(loan)
      ensures Breakdown(loan).breakdown[i].month == i + 1
    {
      ScheduleAt(loan, Months(loan), i);
    }
  }

  /**
    Each record holds the month's opening balance; interest is charged on it,
    GST on that interest, and the month's payment is the instalment plus GST
    plus that month's fee.  The next record opens with this one's closing balance.
  */
  lemma MonthEquations(loan: Loan, i: nat)
    requires i < Months(loan)
    ensures At(loan, i).remainingBalance == BalanceAfter(loan, i)
    ensures At(loan, i).interest == InterestOn(At(loan, i).remainingBalance, MonthlyInterestRate(loan.interestRate))
    ensures At(loan, i).gstOnInterest == At(loan, i).interest * GstRate
    ensures At(loan, i).totalMonthlyPayment
         == loan.emiAmount + At(loan, i).gstOnInterest + At(loan, i).processingFees
    ensures BalanceAfter(loan, i + 1) == At(loan, i).remainingBalance - At(loan, i).principalRepaid
    ensures i + 1 < Months(loan) ==>
      At(loan, i + 1).remainingBalance == At(loan, i).remainingBalance - At(loan, i).principalRepaid
  {
    ScheduleAt(loan, Months(loan), i);
    if i + 1 < Months(loan) {
      ScheduleAt(loan, Months(loan), i + 1);
    }
  }

  /** With a zero rate no month carries interest or GST, and the whole instalment (clamped) repays principal. */
  lemma ZeroRateNoInterest(loan: Loan, i: nat)
    requires loan.interestRate == 0.0
    requires i < Months(loan)
    ensures At(loan, i).interest == 0.0 && At(loan, i).gstOnInterest == 0.0
    ensures At(loan, i).principalRepaid
         == if loan.emiAmount > At(loan, i).remainingBalance then At(loan, i).remainingBalance
            else loan.emiAmount
  {
    ScheduleAt(loan, Months(loan), i);
  }

  /**
    Clamping: a month never repays more principal than it opened with, so the
    balance after any month is non-negative; it does not grow in a month whose
    instalment covers the interest and whose opening balance is non-negative.
  */
  lemma PrincipalClamped(loan: Loan, i: nat)
    requires i < Months(loan)
    ensures At(loan, i).principalRepaid <= At(loan, i).remainingBalance
    ensures At(loan, i).principalRepaid == At(loan, i).remainingBalance
         || At(loan, i).principalRepaid == loan.emiAmount - At(loan, i).interest
    ensures BalanceAfter(loan, i + 1) >= 0.0
    ensures loan.emiAmount >= At(loan, i).interest && At(loan, i).remainingBalance >= 0.0 ==>
      BalanceAfter(loan, i + 1) <= At(loan, i).remainingBalance
  {
    ScheduleAt(loan, Months(loan), i);
  }

  /** Every opening balance is non-negative once the loan amount is. */
  lemma OpeningBalancesNonNegative(loan: Loan, i: nat)
    requires loan.totalAmount >= 0.0
    requires i < Months(loan)
    ensures At(loan, i).remainingBalance >= 0.0
  {
    ScheduleAt(loan, Months(loan), i);
    if i > 0 {
      PrincipalClamped(loan, i - 1);
    }
  }

  /** The processing fee with GST is charged in month 1 and in no other month. */
  lemma FeeFrontLoaded(loan: Loan, i: nat)
    requires i < Months(loan)
    ensures i == 0 ==> At(loan, i).processingFees == loan.processingFees * 1.18
    ensures i > 0 ==> At(loan, i).processingFees == 0.0
    ensures loan.processingFees == 0.0 ==> At(loan, i).processingFees == 0.0
  {
    ScheduleAt(loan, Months(loan), i);
  }

  lemma {:induction false} SumGstIsRateTimesInterest(s: seq<MonthRecord>)
    requires forall j :: 0 <= j < |s| ==> s[j].gstOnInterest == s[j].interest * GstRate
    ensures Sum(s, GstOf) == GstRate * Sum(s, InterestOf)
  {
    if s != [] {
      SumGstIsRateTimesInterest(s[1..]);
    }
  }

  lemma {:induction false} SumNonNegative(s: seq<MonthRecord>, f: MonthRecord -> real)
    requires forall j :: 0 <= j < |s| ==> f(s[j]) >= 0.0
    ensures Sum(s, f) >= 0.0
  {
    if s != [] {
      SumNonNegative(s[1..], f);
    }
  }

  /**
    The hidden cost is the processing fee with GST plus 18% of the interest of
    all months; the interest itself is not part of it.  The percentage is taken
    of the loan amount and is not finite when that amount is zero.
  */
  lemma HiddenCostComposition(loan: Loan)
    ensures Breakdown(loan).totalHiddenCost
         == loan.processingFees * 1.18 + GstRate * Sum(Breakdown(loan).breakdown, InterestOf)
    ensures loan.processingFees == 0.0 ==>
      Breakdown(loan).totalHiddenCost == Sum(Breakdown(loan).breakdown, GstOf)
    ensures loan.totalAmount != 0.0 ==>
      Breakdown(loan).hiddenCostPercentage
        == Finite(Breakdown(loan).totalHiddenCost / loan.totalAmount * 100.0)
    ensures loan.totalAmount == 0.0 ==> Breakdown(loan).hiddenCostPercentage == NonFinite
  {
    var s := Breakdown(loan).breakdown;
    forall j | 0 <= j < |s|
      ensures s[j].gstOnInterest == s[j].interest * GstRate
    {
      MonthEquations(loan, j);
    }
    SumGstIsRateTimesInterest(s);
  }

  /**
    For a positive loan amount, a non-negative rate and a positive fee, the
    hidden cost and its percentage are both positive.
  */
  lemma HiddenCostPositive(loan: Loan)
    requires loan.totalAmount > 0.0 && loan.interestRate >= 0.0 && loan.processingFees > 0.0
    ensures Breakdown(loan).totalHiddenCost >= loan.processingFees * 1.18
    ensures Breakdown(loan).totalHiddenCost > 0.0
    ensures Breakdown(loan).hiddenCostPercentage.Finite?
    ensures Breakdown(loan).hiddenCostPercentage.value > 0.0
  {
    var s := Breakdown(loan).breakdown;
    forall j | 0 <= j < |s|
      ensures GstOf(s[j]) >= 0.0
    {
      OpeningBalancesNonNegative(loan, j);
      MonthEquations(loan, j);
      InterestNonNegative(s[j].remainingBalance, MonthlyInterestRate(loan.interestRate));
    }
    SumNonNegative(s, GstOf);
    PositivePercentage(Breakdown(loan).totalHiddenCost, loan.totalAmount);
  }

  lemma InterestNonNegative(balance: real, monthlyRate: real)
    requires balance >= 0.0 && monthlyRate >= 0.0
    ensures InterestOn(balance, monthlyRate) >= 0.0
  {
  }

  lemma PositivePercentage(part: real, whole: real)
    requires part > 0.0 && whole > 0.0
    ensures part / whole * 100.0 > 0.0
  {
  }

  /** Principal is conserved: the loan amount is what was repaid plus what is still owed. */
  lemma {:induction false} PrincipalConserved(loan: Loan, k: nat)
    ensures loan.totalAmount == Sum(Schedule(loan, k), PrincipalOf) + BalanceAfter(loan, k)
  {
    if k > 0 {
      PrincipalConserved(loan, k - 1);
      SumAppend(Schedule(loan, k - 1), Record(loan, k, BalanceAfter(loan, k - 1)), PrincipalOf);
    }
  }

  /** Conservation over the whole breakdown. */
  lemma BreakdownConservesPrincipal(loan: Loan)
    ensures loan.totalAmount
         == Sum(Breakdown(loan).breakdown, PrincipalOf) + BalanceAfter(loan, Months(loan))
  {
    PrincipalConserved(loan, Months(loan));
  }

  /** Once the balance is zero it stays zero, given a non-negative instalment. */
  lemma {:induction false} PaidOffStaysPaidOff(loan: Loan, j: nat, k: nat)
    requires j <= k
    requires loan.emiAmount >= 0.0
    requires BalanceAfter(loan, j) == 0.0
    ensures BalanceAfter(loan, k) == 0.0
  {
    if j < k {
      PaidOffStaysPaidOff(loan, j, k - 1);
    }
  }

  /** After the loan is paid off, later months charge no interest or GST and repay nothing. */
  lemma PaidOffMonthsAreEmpty(loan: Loan, j: nat, i: nat)
    requires j <= i < Months(loan)
    requires loan.emiAmount >= 0.0
    requires BalanceAfter(loan, j) == 0.0
    ensures At(loan, i).remainingBalance == 0.0
    ensures At(loan, i).interest == 0.0 && At(loan, i).gstOnInterest == 0.0
    ensures At(loan, i).principalRepaid == 0.0
  {
    PaidOffStaysPaidOff(loan, j, i);
    ScheduleAt(loan, Months(loan), i);
  }
}
