/**
 * The new-password step (components/ResetPasswordForm.tsx): a zod schema
 * asking for at least 6 characters and an identical confirmation. Only the
 * first reported issue is shown, so only the first is modelled.
 */
module ResetPasswordForm {
  import opened Wrappers
  import opened JsText
  import opened Forms

  const MinLength: nat := 6
  const TooShortError: string := "Password must be at least 6 characters."
  const MismatchError: string := "Passwords do not match."

  /** `z.string().min(6)` measures `length`, in UTF-16 code units. */
  predicate LongEnough(password: string) {
    Utf16Length(password) >= MinLength
  }

  /**
   * `result.error.issues[0]?.message`: the length check on `password` is
   * reported before the object-level refinement comparing the two fields.
   */
  function FirstIssue(password: string, confirmPassword: string): (r: Option<string>)
    ensures r.None? <==> LongEnough(password) && password == confirmPassword
    ensures !LongEnough(password) ==> r == Some(TooShortError)
    ensures LongEnough(password) && password != confirmPassword ==> r == Some(MismatchError)
  {
    if !LongEnough(password) then Some(TooShortError)
    else if password != confirmPassword then Some(MismatchError)
    else None
  }

  /** Any six characters pass the length rule: no character counts for less than one UTF-16 unit. */
  lemma SixCharactersSuffice(password: string)
    requires |password| >= MinLength
    ensures LongEnough(password)
  {
  }

  /** The body of `POST /api/auth/reset-password`. */
  datatype ResetRequest = ResetRequest(email: string, newPassword: string)

  /** `handleSubmit`: invalid input shows the first issue and sends nothing. */
  function SubmitPassword(email: string, password: string, confirmPassword: string): (r: Submission<ResetRequest>)
    ensures r.Submitted? <==> LongEnough(password) && password == confirmPassword
    ensures r.Submitted? ==> r.request == ResetRequest(email, password)
    ensures r.Rejected? ==> Some(r.error) == FirstIssue(password, confirmPassword)
  {
    match FirstIssue(password, confirmPassword)
    case Some(message) => Rejected(message)
    case None => Submitted(ResetRequest(email, password))
  }
}
