/**
  The accept/reject rule of the form validation (script.js, validateInput) and
  what it guarantees the amortization engine when every field passes it.
*/
module InputValidation {

  import opened Wrappers
  import opened EmiBreakdown
  import opened EmiProperties

  /**
    Whether a field is accepted.  `parsed` is the result of parsing the field
    as a number, `None` standing for NaN (empty or non-numeric input).
  */
  function ValidateInput(parsed: Option<real>): (accepted: bool)
    ensures accepted <==> parsed.Some? && parsed.value > 0.0
    ensures parsed == None ==> !accepted
  {
    match parsed
    case None => false
    case Some(value) => !(value <= 0.0)
  }

  /**
    When the amount, instalment, rate and fee all pass validation and the
    tenure is a positive whole number, the breakdown has one record per
    month, every opening balance is non-negative, and the hidden cost and
    its percentage are positive and finite.
  */
  lemma AcceptedInputsGivePositiveHiddenCost(loan: Loan)
    requires ValidateInput(Some(loan.totalAmount))
    requires ValidateInput(Some(loan.emiAmount))
    requires ValidateInput(Some(loan.interestRate))
    requires ValidateInput(Some(loan.processingFees))
    requires loan.loanTenure > 0
    ensures |Breakdown(loan).breakdown| == loan.loanTenure
    ensures forall i :: 0 <= i < loan.loanTenure ==> Breakdown(loan).breakdown[i].remainingBalance >= 0.0
    ensures Breakdown(loan).totalHiddenCost > 0.0
    ensures Breakdown(loan).hiddenCostPercentage.Finite?
    ensures Breakdown(loan).hiddenCostPercentage.value > 0.0
  {
    BreakdownShape(loan);
    forall i | 0 <= i < loan.loanTenure
      ensures Breakdown(loan).breakdown[i].remainingBalance >= 0.0
    {
      OpeningBalancesNonNegative(loan, i);
    }
    HiddenCostPositive(loan);
  }

  /** The cases the project's tests exercise: 1000 is accepted; -1000, 0 and empty input are not. */
  lemma ValidationExamples()
    ensures ValidateInput(Some(1000.0))
    ensures !ValidateInput(Some(-1000.0))
    ensures !ValidateInput(Some(0.0))
    ensures !ValidateInput(None)
  {
  }
}
