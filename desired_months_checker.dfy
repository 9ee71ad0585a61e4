/** Who is asked for desired months (src/components/desiredMonths/DesiredMonthsChecker.tsx):
    staff and directors who have definitely not submitted yet. Admin and HR
    users, and a missing profile, render nothing. `hasSubmitted` is `None`
    while it is unknown. */
module DesiredMonthsChecker {
  import opened Wrappers
  import opened Models

  /** The condition of the effect that opens the dialog. */
  predicate ShouldOpenPrompt(isLoading: bool, hasSubmitted: Option<bool>, role: Option<Role>) {
    !isLoading && hasSubmitted == Some(false) && role.Some? && (role.value == Staff || role.value == Director)
  }

  /** Whether the component renders the form at all. */
  predicate RendersForm(role: Option<Role>) {
    !(role.None? || role.value == Admin || role.value == Hr)
  }

  /** The form is always rendered non-closable. */
  const PromptCanClose := false

  /** The prompt opens only for someone who is known not to have submitted, only
      for staff and directors, and only where the form is rendered. */
  lemma PromptAudience(isLoading: bool, hasSubmitted: Option<bool>, role: Option<Role>)
    ensures ShouldOpenPrompt(isLoading, hasSubmitted, role) ==> RendersForm(role)
    ensures hasSubmitted != Some(false) ==> !ShouldOpenPrompt(isLoading, hasSubmitted, role)
    ensures RendersForm(role) <==> role == Some(Staff) || role == Some(Director)
    ensures ShouldOpenPrompt(isLoading, hasSubmitted, role) <==>
      RendersForm(role) && !isLoading && hasSubmitted == Some(false)
  {
  }
}
