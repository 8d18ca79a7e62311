/** The code-entry page of src/components/Verify.tsx: two client guards,
    then verifyOtpAction, whose reply is a parameter. */
module VerifyPage {
  import opened Common
  import OtpActions

  const OtpLength := "OTP must be 6 digits."
  const MissingEmail := "Missing email. Please retry."
  const Verified := "OTP verified successfully!"
  const Rejected := "Invalid OTP. Try again."

  class VerifyPageState {
    var error: string
    var successMessage: string

    constructor ()
      ensures error == "" && successMessage == ""
    {
      error, successMessage := "", "";
    }

    /** handleVerifyOtp (Verify.tsx:19-43). `called` says whether
        verifyOtpAction runs; `navigate` is the page pushed on success. */
    method HandleVerifyOtp(email: string, otp: string, reply: ActionResult) returns (called: bool, navigate: Option<string>)
      modifies this
      ensures called <==> |otp| == 6 && email != ""
      ensures |otp| != 6 ==> error == OtpLength && successMessage == "" && navigate == None
      ensures |otp| == 6 && email == "" ==> error == MissingEmail && successMessage == "" && navigate == None
      ensures called && reply.ok ==> error == "" && successMessage == Verified && navigate == Some("/home")
      ensures called && !reply.ok ==>
                error == OrElse(reply.message, Rejected) && successMessage == "" && navigate == None
    {
      error := "";
      successMessage := "";
      navigate := None;
      if |otp| != 6 {
        error := OtpLength;
        return false, None;
      }
      if email == "" {
        error := MissingEmail;
        return false, None;
      }
      called := true;
      if reply.ok {
        successMessage := Verified;
        navigate := Some("/home");
      } else {
        error := OrElse(reply.message, Rejected);
      }
    }
  }

  /** What the page shows for each verdict of the server's check: the
      server's own text on a failure, the page's text on success. */
  lemma ShownVerdicts(v: OtpActions.OtpVerdict)
    ensures var reply := OtpActions.OtpReply(v);
            && (reply.ok <==> v == OtpActions.Verified)
            && (v == OtpActions.InvalidOtp ==> OrElse(reply.message, Rejected) == "Invalid OTP")
            && (v == OtpActions.ExpiredOtp ==> OrElse(reply.message, Rejected) == "OTP expired")
  {
  }
}
