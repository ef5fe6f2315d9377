/**
  The password reset form of app/auth/reset-password/page.tsx: the two
  password fields, the checks made before the update is asked for, and
  where the page goes afterwards. The fields of `ResetForm` are its state.
 */
module ResetPassword {
  import opened Wrappers

  const MinLength: int := 6
  const Mismatch: string := "Passwords do not match"
  const TooShort: string := "Password must be at least 6 characters long"
  const Updated: string := "Password updated successfully! Redirecting to dashboard..."
  const UpdateFailed: string := "Failed to update password"
  const DefaultRedirect: string := "/account"

  datatype Message = Message(isError: bool, text: string)

  /** The message the checks give for a password and its confirmation, if either check fails. */
  function CheckProblem(password: string, confirmation: string): (r: Option<string>)
    ensures r == Some(Mismatch) <==> password != confirmation
    ensures r == Some(TooShort) <==> password == confirmation && |password| < MinLength
    ensures r.None? <==> password == confirmation && |password| >= MinLength
  {
    if password != confirmation then Some(Mismatch)
    else if |password| < MinLength then Some(TooShort)
    else None
  }

  /** `searchParams.get('redirectTo') || '/account'`. */
  function RedirectTarget(redirectTo: Option<string>): (r: string)
    ensures r != ""
    ensures redirectTo.Some? && redirectTo.value != "" ==> r == redirectTo.value
    ensures redirectTo.None? || redirectTo.value == "" ==> r == DefaultRedirect
  {
    if redirectTo.Some? && redirectTo.value != "" then redirectTo.value else DefaultRedirect
  }

  class ResetForm {
    var password: string
    var confirmPassword: string
    var loading: bool
    var message: Option<Message>

    constructor()
      ensures password == "" && confirmPassword == "" && !loading && message == None
      ensures SubmitDisabled()
    {
      password := "";
      confirmPassword := "";
      loading := false;
      message := None;
    }

    /** The button is disabled while a request runs or while either field is empty. */
    predicate SubmitDisabled()
      reads this
    {
      loading || password == "" || confirmPassword == ""
    }

    /**
      `handlePasswordReset`: the mismatch check, then the length check; only
      a password that passes both is sent (`sent`). `updateError` is the
      error the identity service answers with, if any.
     */
    method HandlePasswordReset(updateError: Option<string>) returns (sent: bool)
      modifies this`loading, this`message
      ensures !loading
      ensures sent <==> CheckProblem(password, confirmPassword).None?
      ensures !sent ==> message == Some(Message(true, CheckProblem(password, confirmPassword).value))
      ensures sent && updateError.None? ==> message == Some(Message(false, Updated))
      ensures sent && updateError.Some? ==>
        message == Some(Message(true, if updateError.value != "" then updateError.value else UpdateFailed))
    {
      loading := true;
      message := None;
      if password != confirmPassword {
        message := Some(Message(true, Mismatch));
        loading := false;
        return false;
      }
      if |password| < MinLength {
        message := Some(Message(true, TooShort));
        loading := false;
        return false;
      }
      sent := true;
      if updateError.None? {
        message := Some(Message(false, Updated));
      } else {
        message := Some(Message(true, if updateError.value != "" then updateError.value else UpdateFailed));
      }
      loading := false;
    }
  }
}
