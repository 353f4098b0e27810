/**
  The password-reset page (app/components/auth/ResetPasswordPage.tsx): the
  token and email taken from the query string, validateForm, the guard and
  the outcome handling of handleSubmit, and handleInputChange. The request
  is a parameter.
*/
module ResetPassword {
  import opened Wrappers
  import opened Forms
  import BoardTypes

  /** The payload of resetPassword. */
  datatype ResetCredentials = ResetCredentials(email: string, token: string, password: string, passwordConfirmation: string)

  const MissingLink := "Invalid or missing reset token or email"
  const ResetFailed := "Failed to reset password. Please try again."

  /** A query parameter that `!token` lets through: present and not empty. */
  predicate Present(p: Option<string>) {
    p.Some? && p.value != ""
  }

  /** The error object validateForm builds: the password rule, then the confirmation rule. */
  function ResetErrors(password: string, passwordConfirmation: string): (e: Errors)
    ensures Password in e <==> PasswordError(password).Some?
    ensures Password in e ==> Some(e[Password]) == PasswordError(password)
    ensures PasswordConfirmation in e <==> ConfirmationError(password, passwordConfirmation).Some?
    ensures PasswordConfirmation in e ==> Some(e[PasswordConfirmation]) == ConfirmationError(password, passwordConfirmation)
    ensures e.Keys <= {Password, PasswordConfirmation}
  {
    Record(Record(map[], Password, PasswordError(password)), PasswordConfirmation, ConfirmationError(password, passwordConfirmation))
  }

  /** The form is valid exactly when the password has six characters and the confirmation repeats it. */
  lemma ResetValidIff(password: string, passwordConfirmation: string)
    ensures ResetErrors(password, passwordConfirmation) == map[]
      <==> |password| >= 6 && passwordConfirmation == password
  {
    var e := ResetErrors(password, passwordConfirmation);
    if e != map[] {
      var k :| k in e;
      assert k == Password || k == PasswordConfirmation;
    }
  }

  class Page {
    const token: Option<string>
    const email: Option<string>
    var password: string
    var passwordConfirmation: string
    var isLoading: bool
    var isSuccess: bool
    var errors: Errors

    constructor(token: Option<string>, email: Option<string>)
      ensures this.token == token && this.email == email
      ensures password == "" && passwordConfirmation == "" && !isLoading && !isSuccess && errors == map[]
    {
      this.token := token;
      this.email := email;
      password := "";
      passwordConfirmation := "";
      isLoading := false;
      isSuccess := false;
      errors := map[];
    }

    /** handleInputChange: sets the field and clears only its message. */
    method HandleInputChange(field: FieldName, value: string)
      requires field == Password || field == PasswordConfirmation
      modifies this
      ensures password == (if field == Password then value else old(password))
      ensures passwordConfirmation == (if field == PasswordConfirmation then value else old(passwordConfirmation))
      ensures errors == AfterEdit(old(errors), field)
      ensures isLoading == old(isLoading) && isSuccess == old(isSuccess)
    {
      if field == Password {
        password := value;
      } else {
        passwordConfirmation := value;
      }
      errors := AfterEdit(errors, field);
    }

    /** validateForm: fills a fresh error object, stores it and reports whether it stayed empty. */
    method ValidateForm() returns (valid: bool)
      modifies this
      ensures errors == ResetErrors(password, passwordConfirmation)
      ensures valid <==> errors == map[]
      ensures password == old(password) && passwordConfirmation == old(passwordConfirmation)
      ensures isLoading == old(isLoading) && isSuccess == old(isSuccess)
    {
      var newErrors: Errors := map[];
      newErrors := Record(newErrors, Password, PasswordError(password));
      newErrors := Record(newErrors, PasswordConfirmation, ConfirmationError(password, passwordConfirmation));
      errors := newErrors;
      // Object.keys(newErrors).length === 0
      valid := |newErrors.Keys| == 0;
    }

    /**
      handleSubmit: a missing token or email stops before validation with a
      form-wide message; an invalid form stops with the validation messages.
      Otherwise resetPassword gets the email, the token and both passwords;
      success marks the page done, anything else leaves one form-wide
      message, and the loading flag ends false.
    */
    method HandleSubmit(response: AuthResponse) returns (request: Option<ResetCredentials>)
      modifies this
      ensures password == old(password) && passwordConfirmation == old(passwordConfirmation)
      ensures !(Present(token) && Present(email)) ==>
        request.None? && errors == OnlyGeneral(MissingLink)
        && isLoading == old(isLoading) && isSuccess == old(isSuccess)
      ensures Present(token) && Present(email) && ResetErrors(password, passwordConfirmation) != map[] ==>
        request.None? && errors == ResetErrors(password, passwordConfirmation)
        && isLoading == old(isLoading) && isSuccess == old(isSuccess)
      ensures Present(token) && Present(email) && ResetErrors(password, passwordConfirmation) == map[] ==>
        && request == Some(ResetCredentials(email.value, token.value, password, passwordConfirmation))
        && !isLoading
        && (response.Responded? && response.success ==> isSuccess && errors == map[])
        && (response.Responded? && !response.success ==>
              isSuccess == old(isSuccess) && errors == OnlyGeneral(BoardTypes.OrElse(response.error, ResetFailed)))
        && (response.Threw? ==> isSuccess == old(isSuccess) && errors == OnlyGeneral(UnexpectedError))
    {
      if !Present(token) || !Present(email) {
        errors := OnlyGeneral(MissingLink);
        return None;
      }
      var valid := ValidateForm();
      if !valid {
        return None;
      }
      isLoading := true;
      errors := map[];
      request := Some(ResetCredentials(email.value, token.value, password, passwordConfirmation));
      match response {
        case Responded(success, _, error) =>
          if success {
            isSuccess := true;
          } else {
            errors := OnlyGeneral(BoardTypes.OrElse(error, ResetFailed));
          }
        case Threw =>
          errors := OnlyGeneral(UnexpectedError);
      }
      isLoading := false;
    }
  }
}
