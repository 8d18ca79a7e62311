/** The sign-in form of src/components/Signin.tsx: validation rebuilt from
    a blank record on every submit, and the display of loginAction's reply. */
module SigninForm {
  import opened Common
  import opened EmailPattern
  import AuthActions

  datatype SigninErrors = SigninErrors(email: string, password: string, form: string)

  const NoErrors := SigninErrors("", "", "")
  const EmailRequired := "Email is required."
  const EmailInvalid := "Invalid email address."
  const PasswordRequired := "Password is required."
  const LoginFailed := "Invalid email or password."
  const LoginThrew := "An error occurred. Please try again later."

  /** What the client accepts: a non-empty email the pattern matches and a
      non-empty password of any length. */
  predicate Passes(email: string, password: string) {
    email != "" && MatchesEmail(email) && password != ""
  }

  /** validateForm (Signin.tsx:16-37). */
  method ValidateForm(email: string, password: string) returns (valid: bool, newErrors: SigninErrors)
    ensures valid <==> Passes(email, password)
    ensures valid <==> newErrors == NoErrors
    ensures newErrors.form == ""
    ensures newErrors.email == (if email == "" then EmailRequired else if !MatchesEmail(email) then EmailInvalid else "")
    ensures newErrors.password == (if password == "" then PasswordRequired else "")
  {
    valid := true;
    newErrors := NoErrors;
    if email == "" {
      newErrors := newErrors.(email := EmailRequired);
      valid := false;
    } else if !MatchesEmail(email) {
      newErrors := newErrors.(email := EmailInvalid);
      valid := false;
    }
    if password == "" {
      newErrors := newErrors.(password := PasswordRequired);
      valid := false;
    }
  }

  /** The form error shown for a failed reply, as written (Signin.tsx:59):
      the reply's `message`, else the fixed text. */
  function ShownError(result: ActionResult): string {
    OrElse(result.message, LoginFailed)
  }

  /** As written, no failed login reply carries a `message`, so the page
      always shows the fixed text: a five-character password passes the
      form, the server rejects it for its length, and the user reads
      "Invalid email or password." instead. */
  lemma ServerErrorHidden(e: string)
    ensures ShownError(AuthActions.LoginReply(AuthActions.Rejected(e))) == LoginFailed
    ensures Passes("ada@example.org", "abcde")
  {
    assert Candidate("ada@example.org", 3, 11);
  }

  /** The form error the page evidently means to show: the reply's `error`,
      which loginAction fills on every failure, else the fixed text. */
  function IntendedShownError(result: ActionResult): string {
    OrElse(result.error, LoginFailed)
  }

  /** With the intended reading, every server rejection is shown as sent. */
  lemma IntendedShowsServerError(e: string)
    requires e != ""
    ensures IntendedShownError(AuthActions.LoginReply(AuthActions.Rejected(e))) == e
  {
  }

  class SigninFormState {
    var errors: SigninErrors

    constructor ()
      ensures errors == NoErrors
    {
      errors := NoErrors;
    }

    /** handleSubmit up to the call (Signin.tsx:44-48): the record is rebuilt
        from scratch, so nothing from an earlier attempt remains. */
    method HandleSubmit(email: string, password: string) returns (callsLogin: bool)
      modifies this
      ensures callsLogin <==> Passes(email, password)
      ensures callsLogin ==> errors == NoErrors
      ensures errors == SigninErrors(if email == "" then EmailRequired else if !MatchesEmail(email) then EmailInvalid else "",
                                     if password == "" then PasswordRequired else "",
                                     "")
    {
      errors := NoErrors;
      var valid, newErrors := ValidateForm(email, password);
      errors := newErrors;
      callsLogin := valid;
    }

    /** The outcome of the login call (Signin.tsx:51-67): `outcome` is None
        when the call throws. Returns the page navigated to, if any. */
    method FinishLogin(outcome: Option<ActionResult>) returns (navigate: Option<string>)
      modifies this
      ensures outcome.Some? && outcome.value.ok ==> navigate == Some("/home") && errors == old(errors)
      ensures outcome.Some? && !outcome.value.ok ==>
                navigate == None && errors == old(errors).(form := ShownError(outcome.value))
      ensures outcome.None? ==> navigate == None && errors == old(errors).(form := LoginThrew)
    {
      navigate := None;
      match outcome {
        case None =>
          errors := errors.(form := LoginThrew);
        case Some(result) =>
          if result.ok {
            navigate := Some("/home");
          } else {
            errors := errors.(form := ShownError(result));
          }
      }
    }
  }
}
