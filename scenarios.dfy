/**
  The concrete calculations exercised by the project's tests; the first needs
  the general lemmas, the others Dafny evaluates directly.  Where a test expects something the code does not produce,
  the lemma states what the code produces.
*/
module EmiScenarios {

  import opened EmiBreakdown
  import opened EmiProperties

  /** No-cost EMI: 100000 over 12 months at 15% with a fee of 500 and instalment 100000/12. */
  lemma NoCostFirstMonth()
    ensures var loan := Loan(100000.0, 12, 100000.0 / 12.0, 15.0, 500.0);
      |Breakdown(loan).breakdown| == 12
      && At(loan, 0).interest == 1250.0
      && At(loan, 0).gstOnInterest == 225.0
      && At(loan, 0).processingFees == 590.0
      && At(loan, 0).totalMonthlyPayment > loan.emiAmount
      && Breakdown(loan).totalHiddenCost > 0.0
      && Breakdown(loan).hiddenCostPercentage.Finite?
      && Breakdown(loan).hiddenCostPercentage.value > 0.0
  {
    var loan := Loan(100000.0, 12, 100000.0 / 12.0, 15.0, 500.0);
    BreakdownShape(loan);
    MonthEquations(loan, 0);
    FeeFrontLoaded(loan, 0);
    HiddenCostPositive(loan);
  }

  /** A zero fee puts nothing in month 1; a zero rate charges no interest or GST in month 1. */
  lemma ZeroFeeAndZeroRateFirstMonth()
    ensures At(Loan(100000.0, 12, 8500.0, 15.0, 0.0), 0).processingFees == 0.0
    ensures At(Loan(100000.0, 12, 8500.0, 0.0, 500.0), 0).interest == 0.0
    ensures At(Loan(100000.0, 12, 8500.0, 0.0, 500.0), 0).gstOnInterest == 0.0
  {
  }

  /**
    Inputs (1, 1, 1, 1, 1): one record, whose remainingBalance is the opening
    balance 1 (not the near-zero closing balance); the balance left after the
    month is 1/1200.
  */
  lemma MinimumInputs()
    ensures var loan := Loan(1.0, 1, 1.0, 1.0, 1.0);
      |Breakdown(loan).breakdown| == 1
      && At(loan, 0).remainingBalance == 1.0
      && BalanceAfter(loan, 1) == 1.0 / 1200.0
  {
  }

  /**
    No-cost EMI of 104000 over 12 months at 16%: month 1 repays 7280 of
    principal, its record shows the opening balance 104000, and the balance
    after it is 96720.
  */
  lemma NoCostFirstRow()
    ensures var loan := Loan(104000.0, 12, 104000.0 / 12.0, 16.0, 199.0);
      |Breakdown(loan).breakdown| == 12
      && At(loan, 0).month == 1
      && At(loan, 0).principalRepaid == 7280.0
      && At(loan, 0).remainingBalance == 104000.0
      && BalanceAfter(loan, 1) == 96720.0
  {
  }
}
