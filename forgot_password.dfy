/** The two-step password-reset wizard: ask for an OTP by email ("forgot"),
    then type the code and verify it ("verify"). The form's state fields change
    through its handlers; the server's answers are parameters, and navigation to
    the reset page is recorded as a field. */
module ForgotPassword {
  import opened Remote
  import Text

  datatype Step = Forgot | Verify

  /** The payload of a successful forgot or resend request. */
  datatype OtpResponse = OtpResponse(expiresIn: int, remainingAttempts: int, message: string)

  /** The verify answer after `response.data?.data || response.data`: the two
      spellings of the verdict the front end accepts, and the server's message. */
  datatype VerifyResponse = VerifyResponse(valid: Option<bool>, isValid: Option<bool>, message: string)

  /** Navigation to the reset page, carrying the email and the verified code. */
  datatype Navigation = ToResetPassword(email: string, otp: string)

  const OtpLength := 6

  const EmailRequired := "Vui lòng nhập email"
  const OtpSent := "Mã OTP đã được gửi đến email của bạn"
  const SendFallback := "Không thể gửi mã OTP. Vui lòng thử lại"
  const OtpResent := "Đã gửi lại mã OTP"
  const ResendFallback := "Không thể gửi lại mã OTP. Vui lòng thử lại"
  const OtpLengthRequired := "Mã OTP phải có 6 ký tự"
  const OtpVerified := "Xác thực OTP thành công"
  const OtpRejected := "Mã OTP không hợp lệ"
  const VerifyFallback := "Mã OTP không hợp lệ. Vui lòng thử lại"

  /** `valid === true || isValid === true`. */
  predicate Accepted(v: VerifyResponse) {
    v.valid == Some(true) || v.isValid == Some(true)
  }

  // ---------------------------------------------------------------- OTP input

  /** `replace(/\D/g, "")`: the decimal digits of `s`, in order. */
  function KeepDigits(s: string): (r: string)
    ensures Text.AllDigits(r) && |r| <= |s|
    ensures Text.AllDigits(s) ==> r == s
    ensures |s| == 1 ==> r == if Text.IsDigit(s[0]) then s else ""
  {
    if s == [] then ""
    else if Text.IsDigit(s[0]) then [s[0]] + KeepDigits(s[1..])
    else KeepDigits(s[1..])
  }

  /** Removing the non-digits of two pieces typed one after the other keeps the
      digits of the first, then those of the second: the digits stay in order. */
  lemma {:induction false} KeepDigitsConcat(a: string, b: string)
    ensures KeepDigits(a + b) == KeepDigits(a) + KeepDigits(b)
  {
    if a == [] {
      assert a + b == b;
    } else {
      assert (a + b)[0] == a[0];
      assert (a + b)[1..] == a[1..] + b;
      KeepDigitsConcat(a[1..], b);
    }
  }

  /** What the OTP field keeps of what the user typed: its first six digits. */
  function SanitizeOtp(raw: string): (otp: string)
    ensures Text.AllDigits(otp) && |otp| <= OtpLength
    ensures var digits := KeepDigits(raw);
      otp == digits[..if |digits| < OtpLength then |digits| else OtpLength]
  {
    Text.Take(KeepDigits(raw), OtpLength)
  }

  /** A sanitised code passes through the sanitiser unchanged. */
  lemma SanitizeOtpIdempotent(raw: string)
    ensures SanitizeOtp(SanitizeOtp(raw)) == SanitizeOtp(raw)
  {
    var otp := SanitizeOtp(raw);
    assert KeepDigits(otp) == otp;
  }

  /** Typing six or more digits, whatever else is mixed in, yields a code the
      verify button accepts. */
  lemma SanitizedOtpVerifiable(raw: string)
    requires |KeepDigits(raw)| >= OtpLength
    ensures !VerifyDisabled(false, SanitizeOtp(raw))
  {
  }

  // ---------------------------------------------------------------- countdown

  /** One tick of the expiry countdown: an absent value or one at most 1 becomes 0,
      anything else goes down by one. */
  function CountdownStep(prev: Option<int>): (next: int)
    ensures next >= 0
    ensures prev.Some? && prev.value >= 1 ==> next == prev.value - 1
    ensures prev == None || prev.value <= 1 ==> next == 0
  {
    if prev == None || prev.value <= 1 then 0 else prev.value - 1
  }

  /** Whether the countdown's interval is armed (`otpExpiresIn !== null &&
      otpExpiresIn > 0 && step === "verify"`). */
  predicate CountdownRunning(expiresIn: Option<int>, step: Step) {
    expiresIn.Some? && expiresIn.value > 0 && step == Verify
  }

  /** The countdown's value after `k` ticks from `n`. */
  function Countdown(n: int, k: nat): int
    decreases k
  {
    if k == 0 then n else Countdown(CountdownStep(Some(n)), k - 1)
  }

  /** Ticks compose: the last of k + 1 ticks is one step after the first k. */
  lemma {:induction false} CountdownLast(n: int, k: nat)
    ensures Countdown(n, k + 1) == CountdownStep(Some(Countdown(n, k)))
    decreases k
  {
    if k > 0 {
      CountdownLast(CountdownStep(Some(n)), k - 1);
    }
  }

  /** From a non-negative start the countdown goes down by one per tick and
      stops at 0: it never goes negative and reaches 0 after `n` ticks. */
  lemma {:induction false} CountdownClosedForm(n: nat, k: nat)
    ensures Countdown(n, k) == if k <= n then n - k else 0
  {
    if k > 0 {
      CountdownClosedForm(CountdownStep(Some(n)), k - 1);
    }
  }

  /** Once the countdown from `n` has run its `n` seconds, the resend button is
      enabled again (when no request is in flight). */
  lemma CountdownReenablesResend(n: nat, k: nat)
    requires k >= n
    ensures Countdown(n, k) == 0
    ensures !ResendDisabled(false, Some(Countdown(n, k)))
  {
    CountdownClosedForm(n, k);
  }

  // ---------------------------------------------------------------- formatTime

  /** JavaScript's `%` with a positive divisor: the remainder takes the sign of
      the dividend. */
  function JsRem(a: int, b: int): (r: int)
    requires b > 0
    ensures a >= 0 ==> 0 <= r < b
    ensures a == b * (if a >= 0 then a / b else -((-a) / b)) + r
  {
    if a >= 0 then a % b else -((-a) % b)
  }

  /** `formatTime`: "00:00" for an absent or zero value, otherwise the minutes
      (`Math.floor(seconds / 60)`) and the remainder, each zero-padded to two. */
  function FormatTime(seconds: Option<int>): (r: string)
    ensures seconds == None || seconds == Some(0) ==> r == "00:00"
  {
    if seconds == None || seconds.value == 0 then "00:00"
    else Clock(seconds.value / 60, JsRem(seconds.value, 60))
  }

  /** Two numbers, each zero-padded to two characters, around a colon. */
  function Clock(mins: int, secs: int): string
  {
    Text.PadStart(Text.IntToString(mins), 2, '0') + ":" + Text.PadStart(Text.IntToString(secs), 2, '0')
  }

  /** A positive count of seconds renders as "mm:ss": two digits of seconds
      below 60 after the last colon, and the minutes before it, which read back
      as the original count. */
  lemma FormatTimeReadsBack(s: int)
    requires s > 0
    ensures var r := FormatTime(Some(s));
      |r| >= 5 && r[|r| - 3] == ':'
      && Text.AllDigits(r[..|r| - 3]) && Text.AllDigits(r[|r| - 2..])
      && Text.ParseDigits(r[|r| - 2..]) < 60
      && Text.ParseDigits(r[..|r| - 3]) * 60 + Text.ParseDigits(r[|r| - 2..]) == s
  {
    var mins: nat, secs: nat := s / 60, s % 60;
    assert mins * 60 + secs == s;
    var r := FormatTime(Some(s));
    assert r == Clock(mins, secs);
    ClockReadsBack(mins, secs);
    assert Text.ParseDigits(r[..|r| - 3]) * 60 == mins * 60;
    assert Text.ParseDigits(r[|r| - 2..]) == secs;
  }

  lemma ClockReadsBack(mins: nat, secs: nat)
    requires secs < 60
    ensures var r := Clock(mins, secs);
      |r| >= 5 && r[|r| - 3] == ':'
      && Text.AllDigits(r[..|r| - 3]) && Text.AllDigits(r[|r| - 2..])
      && Text.ParseDigits(r[..|r| - 3]) == mins && Text.ParseDigits(r[|r| - 2..]) == secs
  {
    var a, b := Text.Pad2(mins), Text.Pad2(secs);
    Text.Pad2Digits(mins);
    Text.Pad2Digits(secs);
    ClockParts(mins, secs);
    Text.DigitsAround(a, ':', b, Clock(mins, secs));
  }

  /** For counts that are not negative the clock is their two padded fields
      around a colon. */
  lemma ClockParts(mins: nat, secs: nat)
    ensures Clock(mins, secs) == Text.Pad2(mins) + [':'] + Text.Pad2(secs)
  {
  }

  // ---------------------------------------------------------------- buttons

  /** The resend button's `disabled`: a request is in flight or the code has not
      expired yet. */
  predicate ResendDisabled(isLoading: bool, expiresIn: Option<int>) {
    isLoading || (expiresIn.Some? && expiresIn.value > 0)
  }

  /** The verify button's `disabled`: a request is in flight or the code is not
      six characters long. */
  predicate VerifyDisabled(isLoading: bool, otp: string) {
    isLoading || |otp| != OtpLength
  }

  // ---------------------------------------------------------------- the form

  class Form {
    var step: Step
    var email: string
    var otp: string
    var isLoading: bool
    var otpExpiresIn: Option<int>
    var remainingAttempts: Option<int>
    var navigation: Option<Navigation>
    var toasts: seq<Toast>

    constructor ()
      ensures step == Forgot && email == "" && otp == "" && !isLoading
      ensures otpExpiresIn == None && remainingAttempts == None
      ensures navigation == None && toasts == []
    {
      step := Forgot;
      email := "";
      otp := "";
      isLoading := false;
      otpExpiresIn := None;
      remainingAttempts := None;
      navigation := None;
      toasts := [];
    }

    /** The email field's `onChange`. */
    method TypeEmail(text: string)
      modifies this`email
      ensures email == text
    {
      email := text;
    }

    /** The OTP field's `onChange`: the field only ever holds a sanitised code. */
    method TypeOtp(raw: string)
      modifies this`otp
      ensures otp == SanitizeOtp(raw)
      ensures Text.AllDigits(otp) && |otp| <= OtpLength
    {
      otp := SanitizeOtp(raw);
    }

    /** Step 1, "send OTP": an empty email makes no request; a successful request
        records the expiry and the attempts left and moves to "verify"; a failed
        one leaves the step alone. */
    method HandleForgotPassword(r: Remote<OtpResponse>) returns (requested: bool)
      modifies this`step, this`otpExpiresIn, this`remainingAttempts, this`isLoading, this`toasts
      ensures requested <==> old(email) != ""
      ensures !requested ==>
        step == old(step) && otpExpiresIn == old(otpExpiresIn) && remainingAttempts == old(remainingAttempts)
        && isLoading == old(isLoading) && toasts == old(toasts) + [ToastError(EmailRequired)]
      ensures requested ==> !isLoading
      ensures requested && r.Success? ==>
        step == Verify
        && otpExpiresIn == Some(r.payload.expiresIn) && remainingAttempts == Some(r.payload.remainingAttempts)
        && toasts == old(toasts) + [ToastSuccess(OrElse(r.payload.message, OtpSent))]
      ensures requested && r.Failure? ==>
        step == old(step) && otpExpiresIn == old(otpExpiresIn) && remainingAttempts == old(remainingAttempts)
        && toasts == old(toasts) + [FailureToast(r, SendFallback)]
    {
      if email == "" {
        toasts := toasts + [ToastError(EmailRequired)];
        return false;
      }
      requested := true;
      isLoading := true;
      match r {
        case Success(data) =>
          otpExpiresIn := Some(data.expiresIn);
          remainingAttempts := Some(data.remainingAttempts);
          toasts := toasts + [ToastSuccess(OrElse(data.message, OtpSent))];
          step := Verify;
        case Failure(_) =>
          toasts := toasts + [FailureToast(r, SendFallback)];
      }
      isLoading := false;
    }

    /** "Resend": always requests a new code for the current email; success
        restarts the expiry and the attempts left, and the step never changes. */
    method HandleResendOtp(r: Remote<OtpResponse>)
      modifies this`otpExpiresIn, this`remainingAttempts, this`isLoading, this`toasts
      ensures !isLoading
      ensures r.Success? ==>
        otpExpiresIn == Some(r.payload.expiresIn) && remainingAttempts == Some(r.payload.remainingAttempts)
        && toasts == old(toasts) + [ToastSuccess(OrElse(r.payload.message, OtpResent))]
      ensures r.Failure? ==>
        otpExpiresIn == old(otpExpiresIn) && remainingAttempts == old(remainingAttempts)
        && toasts == old(toasts) + [FailureToast(r, ResendFallback)]
    {
      isLoading := true;
      match r {
        case Success(data) =>
          otpExpiresIn := Some(data.expiresIn);
          remainingAttempts := Some(data.remainingAttempts);
          toasts := toasts + [ToastSuccess(OrElse(data.message, OtpResent))];
        case Failure(_) =>
          toasts := toasts + [FailureToast(r, ResendFallback)];
      }
      isLoading := false;
    }

    /** Step 2, "verify": no request unless the code has six characters; the
        wizard navigates to the reset page, carrying the email and the code,
        exactly when the server's answer accepts the code. */
    method HandleVerifyOtp(r: Remote<VerifyResponse>) returns (requested: bool)
      modifies this`isLoading, this`navigation, this`toasts
      ensures requested <==> |old(otp)| == OtpLength
      ensures !requested ==>
        isLoading == old(isLoading) && navigation == old(navigation)
        && toasts == old(toasts) + [ToastError(OtpLengthRequired)]
      ensures requested ==> !isLoading
      ensures requested && r.Success? && Accepted(r.payload) ==>
        navigation == Some(ToResetPassword(email, otp)) && toasts == old(toasts) + [ToastSuccess(OtpVerified)]
      ensures requested && r.Success? && !Accepted(r.payload) ==>
        navigation == old(navigation) && toasts == old(toasts) + [ToastError(OrElse(r.payload.message, OtpRejected))]
      ensures requested && r.Failure? ==>
        navigation == old(navigation) && toasts == old(toasts) + [FailureToast(r, VerifyFallback)]
    {
      if otp == "" || |otp| != OtpLength {
        toasts := toasts + [ToastError(OtpLengthRequired)];
        return false;
      }
      requested := true;
      isLoading := true;
      match r {
        case Success(data) =>
          if Accepted(data) {
            toasts := toasts + [ToastSuccess(OtpVerified)];
            navigation := Some(ToResetPassword(email, otp));
          } else {
            toasts := toasts + [ToastError(OrElse(data.message, OtpRejected))];
          }
        case Failure(_) =>
          toasts := toasts + [FailureToast(r, VerifyFallback)];
      }
      isLoading := false;
    }

    /** "Back": return to the first step and clear the code. */
    method Back()
      modifies this`step, this`otp
      ensures step == Forgot && otp == ""
    {
      step := Forgot;
      otp := "";
    }

    /** One firing of the countdown interval, which is armed only while the code
        is unexpired on the verify step. */
    method Tick()
      modifies this`otpExpiresIn
      ensures otpExpiresIn == if CountdownRunning(old(otpExpiresIn), step)
        then Some(CountdownStep(old(otpExpiresIn))) else old(otpExpiresIn)
    {
      if CountdownRunning(otpExpiresIn, step) {
        otpExpiresIn := Some(CountdownStep(otpExpiresIn));
      }
    }

    /** `seconds` firings of the interval: an armed countdown ends at the value
        `Countdown` predicts, and an unarmed one stays where it is. */
    method Elapse(seconds: nat)
      modifies this`otpExpiresIn
      ensures otpExpiresIn == if CountdownRunning(old(otpExpiresIn), step)
        then Some(Countdown(old(otpExpiresIn).value, seconds)) else old(otpExpiresIn)
      ensures CountdownRunning(old(otpExpiresIn), step) && seconds >= old(otpExpiresIn).value ==>
        !ResendDisabled(false, otpExpiresIn)
    {
      if !CountdownRunning(otpExpiresIn, step) {
        return;
      }
      var start := otpExpiresIn.value;
      var i := 0;
      while i < seconds
        invariant 0 <= i <= seconds
        invariant otpExpiresIn == Some(Countdown(start, i))
      {
        CountdownLast(start, i);
        CountdownClosedForm(start, i);
        Tick();
        i := i + 1;
      }
      if seconds >= start {
        CountdownReenablesResend(start, seconds);
      }
    }
  }
}
