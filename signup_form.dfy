/** The signup form of src/components/Singup.tsx: field-by-field validation
    into an error record, and the submit handler that calls signupAction
    only when every field passes. */
module SignupForm {
  import opened Common
  import opened EmailPattern

  datatype SignupFields = SignupFields(firstName: string, lastName: string, email: string, username: string,
                                       password: string, confirmPassword: string)

  /** The `errors` state. An unset property renders like the empty string,
      so both are written "". */
  datatype SignupErrors = SignupErrors(firstName: string, lastName: string, email: string, username: string,
                                       password: string, confirmPassword: string, form: string)

  const NoErrors := SignupErrors("", "", "", "", "", "", "")
  const MinPasswordLength := 6

  const FirstNameRequired := "First name is required."
  const LastNameRequired := "Last name is required."
  const EmailRequired := "Email is required."
  const EmailInvalid := "Email address is invalid."
  const UsernameRequired := "Username is required."
  const PasswordRequired := "Password is required."
  const PasswordTooShort := "Password must be at least 6 characters."
  const PasswordsDiffer := "Passwords do not match."

  /** The error of a field whose only check is being non-empty. */
  function RequiredError(value: string, message: string): (e: string)
    requires message != ""
    ensures e == "" <==> value != ""
    ensures value == "" ==> e == message
  {
    if value == "" then message else ""
  }

  function EmailError(email: string): (e: string)
    ensures e == "" <==> email != "" && MatchesEmail(email)
    ensures email == "" ==> e == EmailRequired
    ensures email != "" && !MatchesEmail(email) ==> e == EmailInvalid
  {
    if email == "" then EmailRequired
    else if !MatchesEmail(email) then EmailInvalid
    else ""
  }

  function PasswordError(password: string): (e: string)
    ensures e == "" <==> |password| >= MinPasswordLength
    ensures password == "" ==> e == PasswordRequired
    ensures password != "" && |password| < MinPasswordLength ==> e == PasswordTooShort
  {
    if password == "" then PasswordRequired
    else if |password| < MinPasswordLength then PasswordTooShort
    else ""
  }

  /** Strict inequality: two equal strings, both empty included, agree. */
  function ConfirmError(password: string, confirmPassword: string): (e: string)
    ensures e == "" <==> confirmPassword == password
    ensures e != "" ==> e == PasswordsDiffer
  {
    if confirmPassword != password then PasswordsDiffer else ""
  }

  /** Every field's error for the submitted values, with no form error. */
  function FieldErrors(d: SignupFields): SignupErrors {
    SignupErrors(RequiredError(d.firstName, FirstNameRequired), RequiredError(d.lastName, LastNameRequired),
                 EmailError(d.email), RequiredError(d.username, UsernameRequired),
                 PasswordError(d.password), ConfirmError(d.password, d.confirmPassword), "")
  }

  /** What the validation accepts, field by field. */
  predicate Passes(d: SignupFields) {
    d.firstName != "" && d.lastName != ""
    && d.email != "" && MatchesEmail(d.email)
    && d.username != ""
    && |d.password| >= MinPasswordLength
    && d.confirmPassword == d.password
  }

  /** The form passes exactly when no field shows an error. */
  lemma PassesIffNoFieldErrors(d: SignupFields)
    ensures Passes(d) <==> FieldErrors(d) == NoErrors
  {
  }

  /** validateForm (Singup.tsx:26-84): start from a copy of `current` and set
      every field's error, clearing it when the field passes. */
  method ValidateForm(d: SignupFields, current: SignupErrors) returns (valid: bool, newErrors: SignupErrors)
    ensures valid <==> Passes(d)
    ensures newErrors == FieldErrors(d).(form := current.form)
  {
    valid := true;
    newErrors := current;
    if d.firstName == "" {
      newErrors := newErrors.(firstName := FirstNameRequired);
      valid := false;
    } else {
      newErrors := newErrors.(firstName := "");
    }
    if d.lastName == "" {
      newErrors := newErrors.(lastName := LastNameRequired);
      valid := false;
    } else {
      newErrors := newErrors.(lastName := "");
    }
    if d.email == "" {
      newErrors := newErrors.(email := EmailRequired);
      valid := false;
    } else if !MatchesEmail(d.email) {
      newErrors := newErrors.(email := EmailInvalid);
      valid := false;
    } else {
      newErrors := newErrors.(email := "");
    }
    if d.username == "" {
      newErrors := newErrors.(username := UsernameRequired);
      valid := false;
    } else {
      newErrors := newErrors.(username := "");
    }
    if d.password == "" {
      newErrors := newErrors.(password := PasswordRequired);
      valid := false;
    } else if |d.password| < MinPasswordLength {
      newErrors := newErrors.(password := PasswordTooShort);
      valid := false;
    } else {
      newErrors := newErrors.(password := "");
    }
    if d.confirmPassword != d.password {
      newErrors := newErrors.(confirmPassword := PasswordsDiffer);
      valid := false;
    } else {
      newErrors := newErrors.(confirmPassword := "");
    }
  }

  /** The errors a submit leaves as written: the reset at Singup.tsx:95-103
      and the record validateForm builds are batched, the latter wins, and it
      was copied from the errors of the previous render, form error included. */
  function SubmitErrors(d: SignupFields, previous: SignupErrors): SignupErrors {
    FieldErrors(d).(form := previous.form)
  }

  /** As written, a form error from an earlier attempt survives a new
      submit of valid data, although the reset meant to clear it. */
  lemma StaleFormErrorSurvives()
    ensures var d := SignupFields("Ada", "Lovelace", "ada@example.org", "ada", "secret1", "secret1");
            var previous := NoErrors.(form := "Email already exists. Please use a different one.");
            Passes(d) && SubmitErrors(d, previous).form == previous.form
  {
    var d := SignupFields("Ada", "Lovelace", "ada@example.org", "ada", "secret1", "secret1");
    assert Candidate(d.email, 3, 11);
  }

  /** The errors the reset intends: validation copies the reset record, so
      the result forgets every earlier attempt. It has no form error, is the
      same whatever the previous record was, differs from the as-written
      record only in the form error, and is blank exactly when the form passes. */
  lemma IntendedSubmitForgetsHistory(d: SignupFields, previous: SignupErrors, other: SignupErrors)
    ensures SubmitErrors(d, NoErrors).form == ""
    ensures SubmitErrors(d, NoErrors) == FieldErrors(d)
    ensures SubmitErrors(d, previous).(form := "") == SubmitErrors(d, NoErrors)
    ensures SubmitErrors(d, previous).(form := "") == SubmitErrors(d, other).(form := "")
    ensures Passes(d) <==> SubmitErrors(d, NoErrors) == NoErrors
  {
    PassesIffNoFieldErrors(d);
  }

  class SignupFormState {
    var errors: SignupErrors
    var successMessage: string

    constructor ()
      ensures errors == NoErrors && successMessage == ""
    {
      errors := NoErrors;
      successMessage := "";
    }

    /** handleSubmit up to the call (Singup.tsx:91-111); `callsSignup`
        says whether signupAction is invoked. */
    method HandleSubmit(d: SignupFields) returns (callsSignup: bool)
      modifies this
      ensures callsSignup <==> Passes(d)
      ensures errors == SubmitErrors(d, old(errors))
      ensures successMessage == ""
    {
      var rendered := errors;
      errors := NoErrors;
      successMessage := "";
      var valid, newErrors := ValidateForm(d, rendered);
      errors := newErrors;
      callsSignup := valid;
    }

    /** The outcome of the signup call (Singup.tsx:111-128): `outcome` is
        None when the call throws. Returns the page navigated to, if any. */
    method FinishSignup(outcome: Option<ActionResult>) returns (navigate: Option<string>)
      modifies this
      ensures outcome.Some? && outcome.value.ok ==>
                navigate == Some("/home") && successMessage == "Account created successfully!"
                && errors == old(errors)
      ensures outcome.Some? && !outcome.value.ok ==>
                navigate == None && successMessage == old(successMessage)
                && errors == old(errors).(form := OrElse(outcome.value.error, "Signup failed. Please try again."))
      ensures outcome.None? ==>
                navigate == None && successMessage == old(successMessage)
                && errors == old(errors).(form := "An error occurred. Please try again later.")
    {
      navigate := None;
      match outcome {
        case None =>
          errors := errors.(form := "An error occurred. Please try again later.");
        case Some(result) =>
          if result.ok {
            successMessage := "Account created successfully!";
            navigate := Some("/home");
          } else {
            errors := errors.(form := OrElse(result.error, "Signup failed. Please try again."));
          }
      }
    }
  }
}
