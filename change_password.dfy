/** The change-password page of src/pages/ChangePassword.tsx: its form validator and the
    submit sequence (password update, then session refresh). */
module ChangePassword {
  import opened Wrappers
  import opened Supabase
  import opened AuthContext
  import opened SignUp

  datatype PasswordForm = PasswordForm(currentPassword: string, newPassword: string, confirmPassword: string)

  /** `passwordSchema`: the current password is only checked for length, the new one follows
      the sign-up rule, matches its confirmation and differs from the current one. */
  predicate ValidChange(f: PasswordForm) {
    |f.currentPassword| >= 8 && PasswordOk(f.newPassword) && f.newPassword == f.confirmPassword &&
    f.currentPassword != f.newPassword
  }

  /** A valid form always carries a valid, changed password: at least eight characters with a
      lower-case letter, an upper-case letter and a digit before the first line break. */
  lemma ValidChangeMeans(f: PasswordForm)
    requires ValidChange(f)
    ensures |f.newPassword| >= 8 && f.confirmPassword == f.newPassword && f.newPassword != f.currentPassword
    ensures PasswordOk(f.newPassword)
    ensures exists i :: 0 <= i < |f.newPassword| && IsAsciiLower(f.newPassword[i]) &&
                        forall j :: 0 <= j <= i ==> !IsLineTerminator(f.newPassword[j])
    ensures exists i :: 0 <= i < |f.newPassword| && IsAsciiUpper(f.newPassword[i]) &&
                        forall j :: 0 <= j <= i ==> !IsLineTerminator(f.newPassword[j])
    ensures exists i :: 0 <= i < |f.newPassword| && IsAsciiDigit(f.newPassword[i]) &&
                        forall j :: 0 <= j <= i ==> !IsLineTerminator(f.newPassword[j])
  {
    LookaheadMeans(f.newPassword, IsAsciiLower);
    LookaheadMeans(f.newPassword, IsAsciiUpper);
    LookaheadMeans(f.newPassword, IsAsciiDigit);
  }

  /** Reusing the current password as the new one is always rejected. */
  lemma SamePasswordRejected(f: PasswordForm)
    requires f.currentPassword == f.newPassword
    ensures !ValidChange(f)
  {
  }

  /** The calls a submission made: the password sent to the update, whether the session was
      refreshed, and the error shown. */
  datatype ChangeCalls = ChangeCalls(sent: Option<string>, refreshed: bool, error: Option<string>)

  const NotAuthenticated := "User not authenticated"
  const UpdateFailed := "Failed to update password"

  /** `onSubmit` for session `s`: `updateResult` is the update's outcome. */
  function ChangeSteps(s: SessionState, data: PasswordForm, updateResult: Result<(), string>): (c: ChangeCalls)
    ensures s.user.None? ==> c == ChangeCalls(None, false, Some(NotAuthenticated))
    ensures s.user.Some? ==> c.sent == Some(data.newPassword)
    ensures c.refreshed <==> s.user.Some? && updateResult.Ok?
    ensures c.error.None? <==> c.refreshed
    ensures s.user.Some? && updateResult.Err? && updateResult.error != "" ==> c.error == Some(updateResult.error)
  {
    if s.user.None? then ChangeCalls(None, false, Some(NotAuthenticated))
    else
      match updateResult
      case Ok(_) => ChangeCalls(Some(data.newPassword), true, None)
      case Err(m) => ChangeCalls(Some(data.newPassword), false, Some(MessageOr(m, UpdateFailed)))
  }

  /** The current password is never sent anywhere: the calls do not depend on it. */
  lemma CurrentPasswordUnused(s: SessionState, data: PasswordForm, other: string, updateResult: Result<(), string>)
    ensures ChangeSteps(s, data, updateResult) == ChangeSteps(s, data.(currentPassword := other), updateResult)
  {
  }

  class ChangePasswordPage {
    var isLoading: bool

    constructor ()
      ensures !isLoading
    {
      isLoading := false;
    }

    /** `onSubmit`: the calls of `ChangeSteps`; the refresh (reading `lookup`, `patientFetch`,
        `doctorFetch`) runs only after a successful update. The form reaches this handler
        only through `handleSubmit` with the schema resolver, so it is valid, and the
        password sent always follows the rule and differs from the current one. */
    method Submit(session: Session, data: PasswordForm, updateResult: Result<(), string>, lookup: UserLookup,
                  patientFetch: Result<PatientData, string>, doctorFetch: Result<DoctorData, string>)
      returns (calls: ChangeCalls)
      requires ValidChange(data)
      modifies this, session
      ensures calls.sent.Some? ==> PasswordOk(calls.sent.value) && calls.sent.value != data.currentPassword
      ensures calls == ChangeSteps(old(session.State()), data, updateResult)
      ensures calls.refreshed ==> session.State() == Refreshed(old(session.State()), lookup, patientFetch, doctorFetch)
      ensures !calls.refreshed ==> session.State() == old(session.State())
      ensures old(session.user).Some? ==> !isLoading
      ensures old(session.user).None? ==> isLoading == old(isLoading)
    {
      calls := ChangeSteps(session.State(), data, updateResult);
      if session.user.None? {
        return;
      }
      isLoading := true;
      if calls.refreshed {
        session.RefreshUser(lookup, patientFetch, doctorFetch);
      }
      isLoading := false;
    }
  }
}
