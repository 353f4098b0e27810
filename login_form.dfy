/**
  The log-in form (app/components/auth/LoginForm.tsx): validateForm, the
  guard and the outcome handling of handleSubmit, and the error clearing of
  handleInputChange. The request is a parameter; storing the token and
  navigating are reduced to the destination.
*/
module LoginForm {
  import opened Wrappers
  import Text
  import opened Forms
  import BoardTypes
  import SignupForm

  /** The payload of loginUser. */
  datatype LoginCredentials = LoginCredentials(email: string, password: string)

  const LoginFailed := "Login failed. Please try again."

  /** The error object validateForm builds: the email rule, then the password rule. */
  function LoginErrors(email: string, password: string): (e: Errors)
    ensures Email in e <==> EmailError(email).Some?
    ensures Email in e ==> Some(e[Email]) == EmailError(email)
    ensures Password in e <==> PasswordError(password).Some?
    ensures Password in e ==> Some(e[Password]) == PasswordError(password)
    ensures e.Keys <= {Email, Password}
  {
    Record(Record(map[], Email, EmailError(email)), Password, PasswordError(password))
  }

  /** The form is valid exactly when the email is present and matches the pattern as typed and the password has six characters. */
  lemma LoginValidIff(email: string, password: string)
    ensures LoginErrors(email, password) == map[]
      <==> Text.Trim(email) != "" && MatchesEmailPattern(email) && |password| >= 6
  {
    var e := LoginErrors(email, password);
    if e != map[] {
      var k :| k in e;
      assert k == Email || k == Password;
    }
  }

  /** The log-in form judges the email and the password exactly as the sign-up form does. */
  lemma SameRulesAsSignup(email: string, password: string, name: string, confirmPassword: string,
                          createOrganization: bool, organizationName: string)
    ensures var login := LoginErrors(email, password);
      var signup := SignupForm.SignupErrors(name, email, password, confirmPassword, createOrganization, organizationName);
      && (Email in login <==> Email in signup) && (Email in login ==> login[Email] == signup[Email])
      && (Password in login <==> Password in signup) && (Password in login ==> login[Password] == signup[Password])
  {
  }

  class Form {
    var email: string
    var password: string
    var errors: Errors
    var isLoading: bool

    constructor()
      ensures email == "" && password == "" && errors == map[] && !isLoading
    {
      email := "";
      password := "";
      errors := map[];
      isLoading := false;
    }

    /** handleInputChange: sets the field and clears only its message. */
    method HandleInputChange(field: FieldName, value: string)
      requires field == Email || field == Password
      modifies this
      ensures email == (if field == Email then value else old(email))
      ensures password == (if field == Password then value else old(password))
      ensures errors == AfterEdit(old(errors), field) && isLoading == old(isLoading)
    {
      if field == Email {
        email := value;
      } else {
        password := value;
      }
      errors := AfterEdit(errors, field);
    }

    /** validateForm: fills a fresh error object, stores it and reports whether it stayed empty. */
    method ValidateForm() returns (valid: bool)
      modifies this
      ensures errors == LoginErrors(email, password)
      ensures valid <==> errors == map[]
      ensures email == old(email) && password == old(password) && isLoading == old(isLoading)
    {
      var newErrors: Errors := map[];
      newErrors := Record(newErrors, Email, EmailError(email));
      newErrors := Record(newErrors, Password, PasswordError(password));
      errors := newErrors;
      // Object.keys(newErrors).length === 0
      valid := |newErrors.Keys| == 0;
    }

    /**
      handleSubmit: an invalid form stops with the validation messages, no
      request and the loading flag untouched. Otherwise loginUser gets the
      trimmed email and the password as typed, and the response is handled
      as Respond states.
    */
    method HandleSubmit(response: AuthResponse) returns (login: Option<LoginCredentials>, destination: Option<string>)
      modifies this
      ensures email == old(email) && password == old(password)
      ensures LoginErrors(email, password) != map[] ==>
        login.None? && destination.None? && errors == LoginErrors(email, password) && isLoading == old(isLoading)
      ensures LoginErrors(email, password) == map[] ==>
        login == Some(LoginCredentials(Text.Trim(email), password)) && Responded(response, destination)
    {
      destination := None;
      var valid := ValidateForm();
      if !valid {
        login := None;
        return;
      }
      isLoading := true;
      errors := map[];
      login := Some(LoginCredentials(Text.Trim(email), password));
      destination := Respond(response);
    }

    /**
      What handling the log-in response leaves: the dashboard after a success
      with a token, else one form-wide message; the loading flag false.
    */
    ghost predicate Responded(response: AuthResponse, destination: Option<string>)
      reads this
    {
      && !isLoading
      && (response.Responded? && response.success && response.complete ==>
            destination == Some(SignupForm.Dashboard) && errors == map[])
      && (response.Responded? && !(response.success && response.complete) ==>
            destination.None? && errors == OnlyGeneral(BoardTypes.OrElse(response.error, LoginFailed)))
      && (response.Threw? ==> destination.None? && errors == OnlyGeneral(UnexpectedError))
    }

    /** The part of handleSubmit after loginUser returned or threw, with its `finally`. */
    method Respond(response: AuthResponse) returns (destination: Option<string>)
      requires errors == map[]
      modifies this
      ensures email == old(email) && password == old(password)
      ensures Responded(response, destination)
    {
      destination := None;
      match response {
        case Responded(success, complete, error) =>
          if success && complete {
            destination := Some(SignupForm.Dashboard);
          } else {
            errors := OnlyGeneral(BoardTypes.OrElse(error, LoginFailed));
          }
        case Threw =>
          errors := OnlyGeneral(UnexpectedError);
      }
      isLoading := false;
    }
  }
}
