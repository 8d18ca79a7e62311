/** The three-step password reset page of src/app/forgot-password/page.tsx:
    an email form, then a one-time-code form, then a new-password form. Each
    handler clears both messages, runs its client check, and only then calls
    the server; the reply of that call is a parameter of the handler. */
module ForgotPassword {
  import opened Common

  datatype Step = EmailStep | OtpStep | PasswordStep

  /** Position of a step in the flow. */
  function Rank(s: Step): nat {
    match s
    case EmailStep => 0
    case OtpStep => 1
    case PasswordStep => 2
  }

  const InvalidEmail := "Please enter a valid email."
  const SendFailed := "Failed to send OTP. Try again."
  const OtpSent := "OTP sent to your email."
  const OtpLength := "OTP must be 6 digits."
  const OtpRejected := "Invalid OTP. Try again."
  const OtpAccepted := "OTP verified! Enter new password."
  const PasswordTooShort := "Password must be at least 6 characters long."
  const ChangeFailed := "Failed to change password. Try again."
  const PasswordChanged := "Password changed successfully! Redirecting..."

  /** The page's state: the step, the two messages, and the page a pending
      timer will navigate to. */
  datatype PageState = PageState(step: Step, error: string, successMessage: string, redirect: Option<string>)

  const Initial := PageState(EmailStep, "", "", None)

  /** One form submission, with the reply the server call would give. */
  datatype Submit =
    | SendOtp(email: string, reply: ActionResult)
    | VerifyOtp(otp: string, reply: ActionResult)
    | ChangePassword(newPassword: string, reply: ActionResult)

  /** The step whose form produces the submission (page.tsx:118, 143, 171). */
  function FormOf(ev: Submit): Step {
    match ev
    case SendOtp(_, _) => EmailStep
    case VerifyOtp(_, _) => OtpStep
    case ChangePassword(_, _) => PasswordStep
  }

  /** Whether the submission passes its client check and reaches the server. */
  predicate CallsServer(ev: Submit) {
    match ev
    case SendOtp(email, _) => '@' in email
    case VerifyOtp(otp, _) => |otp| == 6
    case ChangePassword(pw, _) => |pw| >= 6
  }

  /** The page after one submission (page.tsx:17-78). */
  function Handle(p: PageState, ev: Submit): (q: PageState)
    requires FormOf(ev) == p.step
    ensures !CallsServer(ev) ==> q.step == p.step && q.successMessage == "" && q.error != ""
    ensures q.step != p.step <==> CallsServer(ev) && ev.reply.ok && !ev.ChangePassword?
    ensures q.step != p.step ==> Rank(q.step) == Rank(p.step) + 1
    ensures q.error == "" || q.successMessage == ""
  {
    var cleared := p.(error := "", successMessage := "");
    match ev
    case SendOtp(email, reply) =>
      if '@' !in email then cleared.(error := InvalidEmail)
      else if reply.ok then cleared.(successMessage := OtpSent, step := OtpStep)
      else cleared.(error := OrElse(reply.message, SendFailed))
    case VerifyOtp(otp, reply) =>
      if |otp| != 6 then cleared.(error := OtpLength)
      else if reply.ok then cleared.(successMessage := OtpAccepted, step := PasswordStep)
      else cleared.(error := OtpRejected)
    case ChangePassword(pw, reply) =>
      if |pw| < 6 then cleared.(error := PasswordTooShort)
      else if reply.ok then cleared.(successMessage := PasswordChanged, redirect := Some("/signin"))
      else cleared.(error := OrElse(reply.message, ChangeFailed))
  }

  /** A failed verification shows the same text whatever the server said. */
  lemma VerifyFailureIgnoresServerMessage(p: PageState, otp: string, r1: ActionResult, r2: ActionResult)
    requires p.step == OtpStep && |otp| == 6 && !r1.ok && !r2.ok
    ensures Handle(p, VerifyOtp(otp, r1)) == Handle(p, VerifyOtp(otp, r2))
    ensures Handle(p, VerifyOtp(otp, r1)).error == OtpRejected
  {
  }

  /** The page after a sequence of submissions; a submission whose form is
      not on screen cannot happen and leaves the page as it is. */
  function Run(p: PageState, evs: seq<Submit>): PageState {
    if evs == [] then p
    else
      var q := Run(p, evs[..|evs| - 1]);
      var ev := evs[|evs| - 1];
      if FormOf(ev) == q.step then Handle(q, ev) else q
  }

  /** The flow never goes back a step. */
  lemma {:induction false} RunNeverBackward(p: PageState, evs: seq<Submit>)
    ensures Rank(Run(p, evs).step) >= Rank(p.step)
  {
    if evs != [] {
      RunNeverBackward(p, evs[..|evs| - 1]);
    }
  }

  predicate SendAccepted(ev: Submit) {
    ev.SendOtp? && '@' in ev.email && ev.reply.ok
  }

  predicate VerifyAccepted(ev: Submit) {
    ev.VerifyOtp? && |ev.otp| == 6 && ev.reply.ok
  }

  /** Leaving the email step takes a send the server accepted. */
  lemma {:induction false} OtpStepNeedsSend(p: PageState, evs: seq<Submit>)
    requires p.step == EmailStep && Run(p, evs).step != EmailStep
    ensures exists i :: 0 <= i < |evs| && SendAccepted(evs[i])
  {
    var prefix := evs[..|evs| - 1];
    var ev := evs[|evs| - 1];
    if Run(p, prefix).step != EmailStep {
      OtpStepNeedsSend(p, prefix);
      var i :| 0 <= i < |prefix| && SendAccepted(prefix[i]);
      assert evs[i] == prefix[i];
    } else {
      assert SendAccepted(evs[|evs| - 1]);
    }
  }

  /** The new-password form is reached only through an accepted send
      followed by an accepted code. */
  lemma {:induction false} PasswordStepNeedsVerifiedOtp(evs: seq<Submit>)
    requires Run(Initial, evs).step == PasswordStep
    ensures exists i, j :: 0 <= i < j < |evs| && SendAccepted(evs[i]) && VerifyAccepted(evs[j])
  {
    var prefix := evs[..|evs| - 1];
    var q := Run(Initial, prefix);
    if q.step == PasswordStep {
      PasswordStepNeedsVerifiedOtp(prefix);
      var i, j :| 0 <= i < j < |prefix| && SendAccepted(prefix[i]) && VerifyAccepted(prefix[j]);
      assert evs[i] == prefix[i] && evs[j] == prefix[j];
    } else {
      var j := |evs| - 1;
      assert q.step == OtpStep && VerifyAccepted(evs[j]);
      OtpStepNeedsSend(Initial, prefix);
      var i :| 0 <= i < |prefix| && SendAccepted(prefix[i]);
      assert evs[i] == prefix[i];
    }
  }

  class ForgotPasswordPage {
    var step: Step
    var error: string
    var successMessage: string
    var redirect: Option<string>

    function State(): PageState
      reads this
    {
      PageState(step, error, successMessage, redirect)
    }

    constructor ()
      ensures State() == Initial
    {
      step, error, successMessage, redirect := EmailStep, "", "", None;
    }

    /** handleSendOtp (page.tsx:17-36); `called` says whether sendOtpAction runs. */
    method HandleSendOtp(email: string, reply: ActionResult) returns (called: bool)
      requires step == EmailStep
      modifies this
      ensures called <==> '@' in email
      ensures State() == Handle(old(State()), SendOtp(email, reply))
    {
      error := "";
      successMessage := "";
      if '@' !in email {
        error := InvalidEmail;
        return false;
      }
      called := true;
      if reply.ok {
        successMessage := OtpSent;
        step := OtpStep;
      } else {
        error := OrElse(reply.message, SendFailed);
      }
    }

    /** handleVerifyOtp (page.tsx:38-57); `called` says whether verifyOtpAction runs. */
    method HandleVerifyOtp(otp: string, reply: ActionResult) returns (called: bool)
      requires step == OtpStep
      modifies this
      ensures called <==> |otp| == 6
      ensures State() == Handle(old(State()), VerifyOtp(otp, reply))
    {
      error := "";
      successMessage := "";
      if |otp| != 6 {
        error := OtpLength;
        return false;
      }
      called := true;
      if reply.ok {
        successMessage := OtpAccepted;
        step := PasswordStep;
      } else {
        error := OtpRejected;
      }
    }

    /** handleChangePassword (page.tsx:59-78); `called` says whether
        changePasswordAction runs. The two-second timer is the pending
        `redirect`. */
    method HandleChangePassword(newPassword: string, reply: ActionResult) returns (called: bool)
      requires step == PasswordStep
      modifies this
      ensures called <==> |newPassword| >= 6
      ensures State() == Handle(old(State()), ChangePassword(newPassword, reply))
    {
      error := "";
      successMessage := "";
      if |newPassword| < 6 {
        error := PasswordTooShort;
        return false;
      }
      called := true;
      if reply.ok {
        successMessage := PasswordChanged;
        redirect := Some("/signin");
      } else {
        error := OrElse(reply.message, ChangeFailed);
      }
    }
  }
}
