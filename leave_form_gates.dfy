/** The desired-months gate of the annual-leave form
    (src/components/leaves/LeaveApplicationForm.tsx). Values the hooks have not
    delivered yet are `None`: the submission flag, the validation result and the
    calculated end date. */
module LeaveFormGates {
  import opened Wrappers
  import opened Models
  import DesiredMonthsApi
  import DesiredMonthsChecker

  datatype FormState = FormState(
    leaveType: LeaveType,
    startDate: Option<string>,
    calculatedEndDate: Option<string>,
    isCalculating: bool,
    hasSubmitted: Option<bool>,
    validation: Option<DesiredMonthsApi.ValidationResult>,
    isValidating: bool)

  /** Empty strings are falsy. */
  predicate Present(s: Option<string>) {
    s.Some? && s.value != ""
  }

  predicate ShouldValidateDesiredMonths(f: FormState) {
    f.leaveType == Annual && Present(f.startDate) && Present(f.calculatedEndDate) && !f.isCalculating
  }

  /** `!hasSubmitted`: an unknown submission flag blocks as well. */
  predicate IsAnnualLeaveBlocked(f: FormState) {
    f.leaveType == Annual && f.hasSubmitted != Some(true)
  }

  predicate IsDesiredMonthsInvalid(f: FormState) {
    f.leaveType == Annual && f.validation.Some? && !f.validation.value.isValid
  }

  predicate CanSubmit(f: FormState) {
    !f.isCalculating && !f.isValidating && Present(f.calculatedEndDate)
    && !IsAnnualLeaveBlocked(f) && !IsDesiredMonthsInvalid(f)
  }

  /** The start date, working days and reason inputs are disabled while blocked. */
  predicate InputsDisabled(f: FormState) {
    IsAnnualLeaveBlocked(f)
  }

  predicate SummaryShown(f: FormState) {
    (f.isCalculating || Present(f.calculatedEndDate)) && !IsAnnualLeaveBlocked(f)
  }

  /** The desired months never block or invalidate any other leave type. */
  lemma OtherLeaveTypesUngated(f: FormState)
    requires f.leaveType != Annual
    ensures !IsAnnualLeaveBlocked(f) && !IsDesiredMonthsInvalid(f) && !ShouldValidateDesiredMonths(f)
    ensures CanSubmit(f) <==> !f.isCalculating && !f.isValidating && Present(f.calculatedEndDate)
  {
  }

  /** An annual leave can be submitted only by someone known to have submitted
      desired months, with an end date, and with no validation result that
      says the dates are outside them; while blocked, the inputs are disabled and
      the summary is hidden. */
  lemma AnnualLeaveGate(f: FormState)
    requires f.leaveType == Annual
    ensures CanSubmit(f) ==> f.hasSubmitted == Some(true) && Present(f.calculatedEndDate)
                             && (f.validation.None? || f.validation.value.isValid)
    ensures IsAnnualLeaveBlocked(f) ==> InputsDisabled(f) && !SummaryShown(f) && !CanSubmit(f)
  {
  }

  /** A staff member or director who has not submitted desired months is both
      prompted for them and blocked from annual leave. */
  lemma PromptedUserIsBlocked(f: FormState, role: Role)
    requires f.leaveType == Annual && f.hasSubmitted == Some(false) && (role == Staff || role == Director)
    ensures DesiredMonthsChecker.ShouldOpenPrompt(false, f.hasSubmitted, Some(role))
    ensures IsAnnualLeaveBlocked(f) && !CanSubmit(f)
  {
  }
}
