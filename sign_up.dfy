/** The sign-up page of src/pages/SignUp.tsx: the password rule and form validator, the
    wallet probe and connect buttons, and the submit sequence (sign up, sign in, refresh). */
module SignUp {
  import opened Wrappers
  import opened Text
  import opened Supabase
  import opened AuthContext
  import PatientProfile

  // ---------------------------------------------------------------- password rule

  /** The characters a regular-expression `.` does not match. */
  predicate IsLineTerminator(c: char) {
    c == '\n' || c == '\r' || c == '\U{2028}' || c == '\U{2029}'
  }

  predicate IsAsciiLower(c: char) { 'a' <= c <= 'z' }
  predicate IsAsciiUpper(c: char) { 'A' <= c <= 'Z' }
  /** `\d` without the unicode flag: the ten ASCII digits. */
  predicate IsAsciiDigit(c: char) { '0' <= c <= '9' }

  /** The lookahead `(?=.*[class])` at the start of `s`: some character of the class is
      reached before any line terminator. */
  predicate Lookahead(s: string, cls: char -> bool) {
    |s| > 0 && !IsLineTerminator(s[0]) && (cls(s[0]) || Lookahead(s[1..], cls))
  }

  /** The lookahead succeeds exactly when a character of the class comes before the first
      line terminator. */
  lemma {:induction false} LookaheadMeans(s: string, cls: char -> bool)
    ensures Lookahead(s, cls) <==>
              exists i :: 0 <= i < |s| && cls(s[i]) && forall k :: 0 <= k <= i ==> !IsLineTerminator(s[k])
  {
    if |s| > 0 {
      LookaheadMeans(s[1..], cls);
      if Lookahead(s, cls) && !cls(s[0]) {
        var i :| 0 <= i < |s[1..]| && cls(s[1..][i]) && forall k :: 0 <= k <= i ==> !IsLineTerminator(s[1..][k]);
        assert cls(s[i + 1]);
        forall k | 0 <= k <= i + 1 ensures !IsLineTerminator(s[k]) {
          if k > 0 {
            assert s[k] == s[1..][k - 1];
          }
        }
      }
      if (exists i :: 0 <= i < |s| && cls(s[i]) && forall k :: 0 <= k <= i ==> !IsLineTerminator(s[k])) && !cls(s[0]) {
        var i :| 0 <= i < |s| && cls(s[i]) && forall k :: 0 <= k <= i ==> !IsLineTerminator(s[k]);
        assert i > 0 && s[1..][i - 1] == s[i];
        assert forall k :: 0 <= k <= i - 1 ==> !IsLineTerminator(s[1..][k]) by {
          forall k | 0 <= k <= i - 1 ensures !IsLineTerminator(s[1..][k]) {
            assert s[1..][k] == s[k + 1];
          }
        }
      }
    }
  }

  /** On a one-line string the lookahead is plain membership. */
  lemma OneLineLookahead(s: string, cls: char -> bool)
    requires forall k :: 0 <= k < |s| ==> !IsLineTerminator(s[k])
    ensures Lookahead(s, cls) <==> exists i :: 0 <= i < |s| && cls(s[i])
  {
    LookaheadMeans(s, cls);
  }

  /** The password rule: 8 characters or more, and the three lookaheads
      `(?=.*[a-z])(?=.*[A-Z])(?=.*\d)` at the start. */
  predicate PasswordOk(p: string) {
    |p| >= 8 && Lookahead(p, IsAsciiLower) && Lookahead(p, IsAsciiUpper) && Lookahead(p, IsAsciiDigit)
  }

  /** A password with a digit, an upper-case and a lower-case letter on its first line passes. */
  lemma PasswordRuleAccepts()
    ensures PasswordOk("1Aabcdef")
  {
    var p := "1Aabcdef";
    assert Lookahead(p, IsAsciiDigit);
    assert Lookahead(p[1..], IsAsciiUpper);
    assert Lookahead(p[1..][1..], IsAsciiLower);
  }

  /** The rule reads only the first line: a line break ahead of the required characters
      rejects a password that holds all of them. */
  lemma PasswordRuleStopsAtLineBreak()
    ensures !PasswordOk("\n1Aabcdef")
  {
  }

  /** A password without an upper-case letter fails, however long. */
  lemma PasswordRuleNeedsUpper(p: string)
    requires forall k :: 0 <= k < |p| ==> !IsAsciiUpper(p[k])
    ensures !PasswordOk(p)
  {
    LookaheadMeans(p, IsAsciiUpper);
  }

  // ---------------------------------------------------------------- form

  datatype SignUpForm = SignUpForm(email: string, password: string, confirmPassword: string, role: string)

  /** `signUpSchema`; whether the e-mail address passes the library's address check is given
      as `emailOk`. */
  predicate ValidSignUp(f: SignUpForm, emailOk: bool) {
    emailOk && PasswordOk(f.password) && (f.role == "patient" || f.role == "doctor") &&
    f.password == f.confirmPassword
  }

  /** The form's defaults: empty fields and the patient role. */
  function DefaultSignUp(): (f: SignUpForm)
    ensures f.role == "patient" && f.email == "" && f.password == "" && f.confirmPassword == ""
    ensures forall emailOk :: !ValidSignUp(f, emailOk)
  {
    SignUpForm("", "", "", "patient")
  }

  /** A mismatched confirmation is rejected whatever else holds. */
  lemma ConfirmationMustMatch(f: SignUpForm, emailOk: bool)
    requires f.password != f.confirmPassword
    ensures !ValidSignUp(f, emailOk)
  {
  }

  // ---------------------------------------------------------------- submit

  /** The `signUp` call: the wallet address goes along only when one was found. */
  datatype SignUpRequest = SignUpRequest(email: string, password: string, role: string, ethAddress: Option<string>)

  /** The calls a submission made and the error it showed, if any. */
  datatype SignUpCalls = SignUpCalls(signUp: SignUpRequest, signedIn: bool, refreshed: bool, error: Option<string>)

  /** `error.message || fallback`. */
  function MessageOr(message: string, fallback: string): (m: string)
    requires fallback != ""
    ensures m != "" && (message != "" ==> m == message)
  {
    if message != "" then message else fallback
  }

  const SignInFailed := "Failed to sign in after registration."
  const SignUpFailed := "Failed to sign up"

  /** The submit sequence with the wallet address `wallet` held by the page: `signUpResult`
      is the registration's outcome, `signInResult` whether the sign-in returned a user or
      the error it threw. */
  function SignUpSteps(data: SignUpForm, wallet: Option<string>, signUpResult: Result<(), string>,
                       signInResult: Result<bool, string>): (c: SignUpCalls)
    ensures c.signUp.email == data.email && c.signUp.password == data.password && c.signUp.role == data.role
    ensures Truthy(wallet) ==> c.signUp.ethAddress == wallet
    ensures !Truthy(wallet) ==> c.signUp.ethAddress.None?
    ensures c.signedIn <==> signUpResult.Ok?
    ensures c.refreshed <==> signUpResult.Ok? && signInResult == Ok(true)
    ensures c.error.None? <==> c.refreshed
    ensures signUpResult.Ok? && signInResult == Ok(false) ==> c.error == Some(SignInFailed)
  {
    var request := SignUpRequest(data.email, data.password, data.role, if Truthy(wallet) then wallet else None);
    match signUpResult
    case Err(m) => SignUpCalls(request, false, false, Some(MessageOr(m, SignUpFailed)))
    case Ok(_) =>
      match signInResult
      case Err(m) => SignUpCalls(request, true, false, Some(MessageOr(m, SignUpFailed)))
      case Ok(hasUser) =>
        if hasUser then SignUpCalls(request, true, true, None)
        else SignUpCalls(request, true, false, Some(SignInFailed))
  }

  class SignUpPage {
    var isLoading: bool
    var walletAddress: Option<string>
    var isConnectingWallet: bool

    constructor ()
      ensures !isLoading && walletAddress.None? && !isConnectingWallet
    {
      isLoading := false;
      walletAddress := None;
      isConnectingWallet := false;
    }

    /** `checkWallet` on mount: a non-empty address is kept; nothing else changes anything. */
    method CheckWallet(probe: Result<Option<string>, string>)
      modifies this
      ensures probe.Ok? && Truthy(probe.value) ==> walletAddress == probe.value
      ensures !(probe.Ok? && Truthy(probe.value)) ==> walletAddress == old(walletAddress)
      ensures isLoading == old(isLoading) && isConnectingWallet == old(isConnectingWallet)
    {
      if probe.Ok? && Truthy(probe.value) {
        walletAddress := probe.value;
      }
    }

    /** `connectWallet`: after a successful connection the address read next is stored as
        it is, even when absent; a refusal or an error keeps the old one. */
    method ConnectWallet(connected: Result<bool, string>, address: Result<Option<string>, string>)
      modifies this
      ensures connected == Ok(true) && address.Ok? ==> walletAddress == address.value
      ensures !(connected == Ok(true) && address.Ok?) ==> walletAddress == old(walletAddress)
      ensures !isConnectingWallet && isLoading == old(isLoading)
    {
      isConnectingWallet := true;
      if connected == Ok(true) && address.Ok? {
        walletAddress := address.value;
      }
      isConnectingWallet := false;
    }

    /** `onSubmit`: the calls of `SignUpSteps` with the page's wallet address; the refresh
        (reading `lookup`, `patientFetch`, `doctorFetch`) runs only after a sign-in that
        returned a user. The form reaches this handler only through `handleSubmit` with the
        schema resolver, so it is valid (`emailOk` is the e-mail check's verdict), and the
        registration never carries a password that breaks the rule or an unknown role. */
    method Submit(session: Session, data: SignUpForm, emailOk: bool, signUpResult: Result<(), string>,
                  signInResult: Result<bool, string>, lookup: UserLookup,
                  patientFetch: Result<PatientData, string>, doctorFetch: Result<DoctorData, string>)
      returns (calls: SignUpCalls)
      requires ValidSignUp(data, emailOk)
      modifies this, session
      ensures PasswordOk(calls.signUp.password)
      ensures calls.signUp.role == "patient" || calls.signUp.role == "doctor"
      ensures calls == SignUpSteps(data, old(walletAddress), signUpResult, signInResult)
      ensures calls.refreshed ==> session.State() == Refreshed(old(session.State()), lookup, patientFetch, doctorFetch)
      ensures !calls.refreshed ==> session.State() == old(session.State())
      ensures !isLoading && walletAddress == old(walletAddress) && isConnectingWallet == old(isConnectingWallet)
    {
      isLoading := true;
      calls := SignUpSteps(data, walletAddress, signUpResult, signInResult);
      if calls.refreshed {
        session.RefreshUser(lookup, patientFetch, doctorFetch);
      }
      isLoading := false;
    }
  }

  /** The display of the found wallet: `slice(0, 6)`, "...", then `slice(-4)`; it agrees
      with the profile page's `substring` display on every address. */
  function ShortWallet(a: string): string {
    Slice(a, 0, 6) + "..." + Slice(a, -4, |a|)
  }

  /** Both displays show the same text for every address, short ones included. */
  lemma ShortWalletAgrees(a: string)
    ensures ShortWallet(a) == PatientProfile.ShortAddress(a)
  {
    assert Slice(a, 0, 6) == Substring(a, 0, 6);
    assert Slice(a, -4, |a|) == Substring(a, |a| - 4, |a|);
  }
}
