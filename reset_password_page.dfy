/**
 * The reset-password form (`phoenix-client/src/pages/ResetPasswordPage.jsx`):
 * the guard chain `handleSubmit` runs before it posts the new password, and
 * the error / loading / success state it leaves behind.
 */
module ResetPasswordPage {
  import opened Wrappers
  import opened Text

  const MinPasswordLength: nat := 6

  const InvalidLinkMessage: string := "Invalid reset link. Please request a new password reset."
  const MismatchMessage: string := "Passwords do not match."
  const TooShortMessage: string := "Password must be at least 6 characters."
  const FailedMessage: string := "Failed to reset password. The link may be invalid or expired."

  /**
   * The first guard that fails, as the message it shows, or None when the
   * request may be sent. The token comes from the `token` query parameter,
   * with a missing parameter read as "".
   */
  function Validate(token: string, newPassword: string, confirmPassword: string): (r: Option<string>)
    ensures r == None <==> token != "" && newPassword == confirmPassword && Utf16Length(newPassword) >= MinPasswordLength
    ensures r.Some? ==> r.value in {InvalidLinkMessage, MismatchMessage, TooShortMessage}
  {
    if token == "" then Some(InvalidLinkMessage)
    else if newPassword != confirmPassword then Some(MismatchMessage)
    else if Utf16Length(newPassword) < MinPasswordLength then Some(TooShortMessage)
    else None
  }

  /**
   * The guards run in order: each message is shown exactly when every earlier
   * guard passed and its own failed. In particular an empty token wins over a
   * mismatch, and a short password is reported only for matching passwords.
   */
  lemma ValidateOrder(token: string, newPassword: string, confirmPassword: string)
    ensures Validate(token, newPassword, confirmPassword) == Some(InvalidLinkMessage) <==> token == ""
    ensures Validate(token, newPassword, confirmPassword) == Some(MismatchMessage) <==>
      token != "" && newPassword != confirmPassword
    ensures Validate(token, newPassword, confirmPassword) == Some(TooShortMessage) <==>
      token != "" && newPassword == confirmPassword && Utf16Length(newPassword) < MinPasswordLength
  {
    assert InvalidLinkMessage != MismatchMessage && InvalidLinkMessage != TooShortMessage;
    assert MismatchMessage != TooShortMessage by {
      assert MismatchMessage[8] != TooShortMessage[8];
    }
  }

  /**
   * The length guard counts UTF-16 code units: three emoji make a password of
   * length 6, which passes, while three letters do not.
   */
  lemma LengthCountsCodeUnits()
    ensures Validate("t", "\U{1F600}\U{1F600}\U{1F600}", "\U{1F600}\U{1F600}\U{1F600}") == None
    ensures Validate("t", "abc", "abc") == Some(TooShortMessage)
  {
    var p := "\U{1F600}\U{1F600}\U{1F600}";
    assert Utf16Length(p) == 2 + Utf16Length(p[1..]);
    assert Utf16Length(p[1..]) == 2 + Utf16Length(p[2..]);
    assert Utf16Length(p[2..]) == 2 + Utf16Length(p[3..]);
  }

  /** The body posted to `/api/auth/reset-password`. */
  datatype ResetRequest = ResetRequest(token: string, newPassword: string)

  /** The page's React state; `token` is fixed by the URL. */
  class ResetPasswordForm {
    const token: string
    var newPassword: string
    var confirmPassword: string
    var loading: bool
    var error: string
    var success: bool

    constructor (token: string)
      ensures this.token == token
      ensures newPassword == "" && confirmPassword == "" && !loading && error == "" && !success
    {
      this.token := token;
      newPassword, confirmPassword := "", "";
      loading, error, success := false, "", false;
    }

    /**
     * The synchronous part of `handleSubmit`: the error is cleared, then the
     * guards run; only when all pass is `loading` set and a request returned.
     */
    method Submit() returns (request: Option<ResetRequest>)
      modifies this`error, this`loading
      ensures var verdict := Validate(token, newPassword, confirmPassword);
        && (request == None <==> verdict.Some?)
        && error == verdict.GetOr("")
        && loading == (old(loading) || request.Some?)
      ensures request.Some? ==> request.value == ResetRequest(token, newPassword)
    {
      error := "";
      if token == "" {
        error := InvalidLinkMessage;
        return None;
      }
      if newPassword != confirmPassword {
        error := MismatchMessage;
        return None;
      }
      if Utf16Length(newPassword) < MinPasswordLength {
        error := TooShortMessage;
        return None;
      }
      loading := true;
      request := Some(ResetRequest(token, newPassword));
    }

    /**
     * The asynchronous part, given the server's answer (on failure, its
     * message if any). Returns whether the redirect to `/login` is scheduled.
     */
    method Finish(response: Result<(), Option<string>>) returns (redirectToLogin: bool)
      modifies this`error, this`loading, this`success
      ensures !loading
      ensures redirectToLogin <==> response.Ok?
      ensures response.Ok? ==> success && error == old(error)
      ensures response.Err? ==> success == old(success) && error == MessageOr(response.error, FailedMessage)
      ensures response.Err? ==> error != ""
    {
      if response.Ok? {
        success := true;
        redirectToLogin := true;
      } else {
        error := MessageOr(response.error, FailedMessage);
        redirectToLogin := false;
      }
      loading := false;
    }
  }
}
