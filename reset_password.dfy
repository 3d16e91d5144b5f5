/** The last page of the password reset: it needs the email and the verified code
    handed over by the wizard, checks the two password fields with an ordered
    chain of guards, and sends the reset request only when every guard passes. */
module ResetPassword {
  import opened Remote

  const MinLength := 6

  const FieldsRequired := "Vui lòng nhập đầy đủ thông tin"
  const PasswordTooShort := "Mật khẩu phải có ít nhất 6 ký tự"
  const PasswordMismatch := "Mật khẩu xác nhận không khớp"
  const ResetDone := "Đặt lại mật khẩu thành công! Vui lòng đăng nhập lại."
  const ResetFallback := "Không thể đặt lại mật khẩu. Vui lòng thử lại"

  // ---------------------------------------------------------------- entry guard

  /** What the page renders: the "session expired" card, or the form. */
  datatype View = SessionExpired | ResetForm

  /** The page shows the form only when the navigation state carries a truthy
      email and a truthy code. */
  function PageView(email: Option<string>, otp: Option<string>): (v: View)
    ensures v == ResetForm <==> email.Some? && email.value != "" && otp.Some? && otp.value != ""
  {
    if email == None || email.value == "" || otp == None || otp.value == "" then SessionExpired
    else ResetForm
  }

  // ---------------------------------------------------------------- guards

  /** The outcome of the guard chain; the first failing guard wins. */
  datatype Guard = MissingField | TooShort | Mismatch | Passed

  function CheckPasswords(newPassword: string, confirmPassword: string): (g: Guard)
    ensures g == Passed <==>
      newPassword != "" && confirmPassword != "" && |newPassword| >= MinLength && newPassword == confirmPassword
    ensures g == MissingField <==> newPassword == "" || confirmPassword == ""
    ensures g == TooShort <==> newPassword != "" && confirmPassword != "" && |newPassword| < MinLength
    ensures g == Mismatch <==>
      newPassword != "" && confirmPassword != "" && |newPassword| >= MinLength && newPassword != confirmPassword
  {
    if newPassword == "" || confirmPassword == "" then MissingField
    else if |newPassword| < MinLength then TooShort
    else if newPassword != confirmPassword then Mismatch
    else Passed
  }

  /** The toast a failing guard raises. */
  function GuardMessage(g: Guard): string
    requires g != Passed
  {
    match g
    case MissingField => FieldsRequired
    case TooShort => PasswordTooShort
    case Mismatch => PasswordMismatch
  }

  // ---------------------------------------------------------------- the form's hints

  /** The submit button's `disabled`. */
  predicate SubmitDisabled(isLoading: bool, newPassword: string, confirmPassword: string) {
    isLoading || newPassword != confirmPassword || |newPassword| < MinLength
  }

  /** The red "too short" hint under the new password. */
  predicate TooShortHint(newPassword: string) {
    |newPassword| > 0 && |newPassword| < MinLength
  }

  /** The red "do not match" hint under the confirmation. */
  predicate MismatchHint(newPassword: string, confirmPassword: string) {
    |confirmPassword| > 0 && newPassword != confirmPassword
  }

  /** The green "passwords match" indicator. */
  predicate MatchHint(newPassword: string, confirmPassword: string) {
    |confirmPassword| > 0 && newPassword == confirmPassword && |newPassword| >= MinLength
  }

  /** The button lets the form through exactly when the guard chain would pass:
      the button and the handler agree. */
  lemma SubmitEnabledIffGuardsPass(isLoading: bool, newPassword: string, confirmPassword: string)
    ensures !SubmitDisabled(isLoading, newPassword, confirmPassword) <==>
      !isLoading && CheckPasswords(newPassword, confirmPassword) == Passed
  {
  }

  /** The green indicator shows exactly when the guard chain would pass, and
      never together with the mismatch hint. */
  lemma MatchHintIffGuardsPass(newPassword: string, confirmPassword: string)
    ensures MatchHint(newPassword, confirmPassword) <==> CheckPasswords(newPassword, confirmPassword) == Passed
    ensures !(MatchHint(newPassword, confirmPassword) && MismatchHint(newPassword, confirmPassword))
  {
  }

  /** A non-empty password shorter than six characters shows the hint and is
      what the second guard rejects. */
  lemma TooShortHintMatchesGuard(newPassword: string, confirmPassword: string)
    requires confirmPassword != ""
    ensures TooShortHint(newPassword) <==> CheckPasswords(newPassword, confirmPassword) == TooShort
  {
  }

  // ---------------------------------------------------------------- the page

  /** The body of the reset request. */
  datatype ResetRequest = ResetRequest(email: string, otp: string, newPassword: string)

  /** The page once the form is shown: the email and the code come from the
      navigation state and never change. */
  class Page {
    const email: string
    const otp: string
    var newPassword: string
    var confirmPassword: string
    var isLoading: bool
    /** Set when the delayed redirect to the login page has been scheduled. */
    var redirectToLogin: bool
    var toasts: seq<Toast>

    constructor (email: string, otp: string)
      requires PageView(Some(email), Some(otp)) == ResetForm
      ensures this.email == email && this.otp == otp
      ensures newPassword == "" && confirmPassword == "" && !isLoading && !redirectToLogin && toasts == []
    {
      this.email := email;
      this.otp := otp;
      newPassword := "";
      confirmPassword := "";
      isLoading := false;
      redirectToLogin := false;
      toasts := [];
    }

    method TypeNewPassword(text: string)
      modifies this`newPassword
      ensures newPassword == text
    {
      newPassword := text;
    }

    method TypeConfirmPassword(text: string)
      modifies this`confirmPassword
      ensures confirmPassword == text
    {
      confirmPassword := text;
    }

    /** Submitting the form: the first failing guard raises its toast and no
        request leaves; otherwise exactly `(email, otp, newPassword)` is sent, and
        the page is idle again afterwards whatever the server answered. */
    method HandleResetPassword(r: Remote<()>) returns (guard: Guard, request: Option<ResetRequest>)
      modifies this`isLoading, this`redirectToLogin, this`toasts
      ensures guard == CheckPasswords(newPassword, confirmPassword)
      ensures request.Some? <==> guard == Passed
      ensures request.Some? ==> request.value == ResetRequest(email, otp, newPassword)
      ensures guard != Passed ==>
        isLoading == old(isLoading) && redirectToLogin == old(redirectToLogin)
        && toasts == old(toasts) + [ToastError(GuardMessage(guard))]
      ensures guard == Passed ==> !isLoading
      ensures guard == Passed && r.Success? ==>
        redirectToLogin && toasts == old(toasts) + [ToastSuccess(ResetDone)]
      ensures guard == Passed && r.Failure? ==>
        redirectToLogin == old(redirectToLogin) && toasts == old(toasts) + [FailureToast(r, ResetFallback)]
    {
      guard := CheckPasswords(newPassword, confirmPassword);
      if guard != Passed {
        toasts := toasts + [ToastError(GuardMessage(guard))];
        return guard, None;
      }
      isLoading := true;
      request := Some(ResetRequest(email, otp, newPassword));
      match r {
        case Success(_) =>
          toasts := toasts + [ToastSuccess(ResetDone)];
          redirectToLogin := true;
        case Failure(_) =>
          toasts := toasts + [FailureToast(r, ResetFallback)];
      }
      isLoading := false;
    }
  }
}
